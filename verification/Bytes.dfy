/** Bytes, fixed-width integers and the two result shapes the other modules share. */
module Bytes {
  const U32_SIZE: int := 0x1_0000_0000
  const U32_MAX: int := 0xFFFF_FFFF

  type byte = x: int | 0 <= x < 256
  type u32 = x: int | 0 <= x < 0x1_0000_0000
  type Buffer = seq<byte>

  datatype Option<+T> = None | Some(value: T)
  datatype Result<+T, +E> = Ok(value: T) | Err(error: E)

  /** `u32::wrapping_*` arithmetic: the exact result reduced modulo 2^32. */
  function Wrap(x: int): u32 {
    x % 0x1_0000_0000
  }

  /** `u32::try_from(n).unwrap_or(u32::MAX)`. */
  function Saturate(n: nat): u32 {
    if n <= U32_MAX then n else U32_MAX
  }

  /** Adding a multiple of 2^32 changes nothing. */
  lemma {:induction false} WrapShift(x: int, k: int)
    ensures Wrap(x + 0x1_0000_0000 * k) == Wrap(x)
  {
  }

  /** Reducing a summand first changes nothing. */
  lemma {:induction false} WrapAdd(x: int, y: int)
    ensures Wrap(Wrap(x) + y) == Wrap(x + y)
    ensures Wrap(x + Wrap(y)) == Wrap(x + y)
  {
    WrapShift(x + y, -(x / 0x1_0000_0000));
    WrapShift(x + y, -(y / 0x1_0000_0000));
  }

  lemma {:induction false} WrapSub(x: int, y: int)
    ensures Wrap(x - Wrap(y)) == Wrap(x - y)
  {
    WrapShift(x - y, y / 0x1_0000_0000);
  }

  /** Little-endian digits of `n`, `width` of them (`to_le_bytes`). */
  function ToLe(n: nat, width: nat): (s: Buffer)
    ensures |s| == width
  {
    if width == 0 then [] else [n % 256] + ToLe(n / 256, width - 1)
  }

  /** `from_le_bytes`. */
  function FromLe(s: Buffer): nat {
    if s == [] then 0 else s[0] + 256 * FromLe(s[1..])
  }

  function Pow256(k: nat): nat {
    if k == 0 then 1 else 256 * Pow256(k - 1)
  }

  /** The low byte comes first, the others as in `n / 256`. */
  lemma {:induction false} LeDigits(n: nat)
    ensures ToLe(n, 4) == [n % 256, n / 256 % 256, n / 256 / 256 % 256, n / 256 / 256 / 256 % 256]
    ensures ToLe(n, 8) == ToLe(n, 4) + ToLe(n / 256 / 256 / 256 / 256, 4)
  {
    var a := n / 256;
    var b := a / 256;
    var c := b / 256;
    var d := c / 256;
    assert ToLe(c, 1) == [c % 256] && ToLe(c, 5) == [c % 256] + ToLe(d, 4);
    assert ToLe(b, 2) == [b % 256] + ToLe(c, 1) && ToLe(b, 6) == [b % 256] + ToLe(c, 5);
    assert ToLe(a, 3) == [a % 256] + ToLe(b, 2) && ToLe(a, 7) == [a % 256] + ToLe(b, 6);
    assert ToLe(n, 4) == [n % 256] + ToLe(a, 3) && ToLe(n, 8) == [n % 256] + ToLe(a, 7);
  }

  lemma {:induction false} LeInverse(s: Buffer)
    ensures ToLe(FromLe(s), |s|) == s
  {
    if s != [] {
      LeInverse(s[1..]);
      assert FromLe(s) % 256 == s[0] && FromLe(s) / 256 == FromLe(s[1..]);
      assert s == [s[0]] + s[1..];
    }
  }

  lemma {:induction false} LeRoundTrip(n: nat, width: nat)
    requires n < Pow256(width)
    ensures FromLe(ToLe(n, width)) == n
  {
    if width > 0 {
      LeRoundTrip(n / 256, width - 1);
      assert ToLe(n, width)[1..] == ToLe(n / 256, width - 1);
    }
  }
}
