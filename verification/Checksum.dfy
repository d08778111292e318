/**
 The weak rolling checksum. The source accumulates in wrapping 32-bit arithmetic, eight bytes at a
 time, and slides the window in constant time; the definition it promises is a pair of plain sums
 reduced modulo 2^16. This module proves the fast forms equal to that definition.
 */
module Checksum {
  import opened Bytes

  /** The plain sum of the first `n` bytes of the window. */
  function SumTo(w: Buffer, n: nat): nat
    requires n <= |w|
  {
    if n == 0 then 0 else SumTo(w, n - 1) + w[n - 1]
  }

  /** The position-weighted sum of the first `n` bytes: byte `k` weighs `|w| - k`. */
  function WeightedTo(w: Buffer, n: nat): nat
    requires n <= |w|
  {
    if n == 0 then 0 else WeightedTo(w, n - 1) + Product(|w| - (n - 1), w[n - 1])
  }

  function Product(x: nat, y: nat): nat {
    x * y
  }

  /** The checksum as its definition states it: `a + b * M`, both sums reduced modulo `M = 2^16`. */
  function WeakOf(w: Buffer): u32 {
    SumTo(w, |w|) % 65536 + (WeightedTo(w, |w|) % 65536) * 65536
  }

  /** The bytes 1, 2, 3 sum to 6, and to 3 * 1 + 2 * 2 + 1 * 3 = 10 by weight: 0x000a0006. */
  lemma {:induction false} WeakOfThree()
    ensures WeakOf([1, 2, 3]) == 0x000a_0006
  {
    var w: Buffer := [1, 2, 3];
    assert SumTo(w, 1) == 1 && SumTo(w, 2) == 3;
    assert WeightedTo(w, 1) == 3 && WeightedTo(w, 2) == 7;
  }

  /** Two windows that overlap in all but one byte: the sums move by the terms `Roll` applies. */
  lemma {:induction false} SlideTo(w: Buffer, v: Buffer, n: nat)
    requires 0 < |w| == |v| && n < |w|
    requires forall k :: 0 <= k < |w| - 1 ==> v[k] == w[k + 1]
    ensures SumTo(v, n) == SumTo(w, n + 1) - w[0]
    ensures WeightedTo(v, n) == WeightedTo(w, n + 1) - Product(|w|, w[0]) + SumTo(w, n + 1) - w[0]
  {
    if n == 0 {
      assert SumTo(w, 1) == SumTo(w, 0) + w[0];
      assert WeightedTo(w, 1) == WeightedTo(w, 0) + Product(|w|, w[0]);
    } else {
      SlideTo(w, v, n - 1);
      assert Product(|v| - (n - 1), v[n - 1]) == Product(|w| - n, w[n]) + w[n];
    }
  }

  lemma {:induction false} Slide(w: Buffer, x: byte)
    requires |w| > 0
    ensures var v := w[1..] + [x];
            && SumTo(v, |v|) == SumTo(w, |w|) - w[0] + x
            && WeightedTo(v, |v|) == WeightedTo(w, |w|) - Product(|w|, w[0]) + SumTo(v, |v|)
  {
    var v := w[1..] + [x];
    SlideTo(w, v, |w| - 1);
  }

  /** The sum of the eight bytes one unrolled iteration reads. */
  function Sum8(w: Buffer, base: nat): nat
    requires base + 8 <= |w|
  {
    Sum4(w, base) + Sum4(w, base + 4)
  }

  function Sum4(w: Buffer, base: nat): nat
    requires base + 4 <= |w|
  {
    var b0: nat, b1: nat, b2: nat, b3: nat := w[base], w[base + 1], w[base + 2], w[base + 3];
    b0 + b1 + b2 + b3
  }

  /** What the factored form subtracts: byte `i` of the iteration, `i` times. */
  function Offset8(w: Buffer, base: nat): nat
    requires base + 8 <= |w|
  {
    Offset4(w, base) + Offset4(w, base + 4) + 4 * Sum4(w, base + 4)
  }

  function Offset4(w: Buffer, base: nat): nat
    requires base + 4 <= |w|
  {
    var b1: nat, b2: nat, b3: nat := w[base + 1], w[base + 2], w[base + 3];
    b1 + 2 * b2 + 3 * b3
  }

  lemma {:induction false} Distribute(x: nat, i: nat, y: nat)
    requires i <= x
    ensures Product(x - i, y) == Product(x, y) - i * y
  {
  }

  lemma {:induction false} ProductAdd(x: nat, y: nat, z: nat)
    ensures Product(x, y + z) == Product(x, y) + Product(x, z)
  {
  }

  lemma {:induction false} FourTerms(w: Buffer, base: nat)
    requires base + 4 <= |w|
    ensures SumTo(w, base + 4) == SumTo(w, base) + Sum4(w, base)
    ensures WeightedTo(w, base + 4)
         == WeightedTo(w, base) + Product(|w| - base, Sum4(w, base)) - Offset4(w, base)
  {
    var L := |w| - base;
    var b0: nat, b1: nat, b2: nat, b3: nat := w[base], w[base + 1], w[base + 2], w[base + 3];
    Distribute(L, 1, b1);
    Distribute(L, 2, b2);
    Distribute(L, 3, b3);
    ProductAdd(L, b0, b1);
    ProductAdd(L, b0 + b1, b2);
    ProductAdd(L, b0 + b1 + b2, b3);
    assert SumTo(w, base + 2) == SumTo(w, base) + b0 + b1;
    assert WeightedTo(w, base + 2) == WeightedTo(w, base) + Product(L, b0) + Product(L - 1, b1);
    assert WeightedTo(w, base + 3) == WeightedTo(w, base + 2) + Product(L - 2, b2);
    assert WeightedTo(w, base + 4) == WeightedTo(w, base + 3) + Product(L - 3, b3);
  }

  /** Eight terms of the definition equal the factored form of one unrolled iteration. */
  lemma {:induction false} EightTerms(w: Buffer, base: nat)
    requires base + 8 <= |w|
    ensures SumTo(w, base + 8) == SumTo(w, base) + Sum8(w, base)
    ensures WeightedTo(w, base + 8)
         == WeightedTo(w, base) + Product(|w| - base, Sum8(w, base)) - Offset8(w, base)
  {
    FourTerms(w, base);
    FourTerms(w, base + 4);
    Distribute(|w| - base, 4, Sum4(w, base + 4));
    ProductAdd(|w| - base, Sum4(w, base), Sum4(w, base + 4));
  }

  /** Accumulating a wrapped difference into a wrapped total wraps the exact result. */
  lemma {:induction false} Accumulate(acc: int, p: int, o: int)
    ensures Wrap(Wrap(acc) + Wrap(Wrap(p) - o)) == Wrap(acc + p - o)
  {
    WrapAdd(p, -o);
    WrapSum(acc, p - o);
  }

  lemma {:induction false} WrapSum(x: int, y: int)
    ensures Wrap(Wrap(x) + Wrap(y)) == Wrap(x + y)
  {
    WrapAdd(x, Wrap(y));
    WrapAdd(x, y);
  }

  lemma {:induction false} Small(x: int)
    requires 0 <= x < U32_SIZE
    ensures Wrap(x) == x
  {
  }

  lemma {:induction false} Sum8Bound(w: Buffer, base: nat)
    requires base + 8 <= |w|
    ensures Sum8(w, base) < U32_SIZE && Offset8(w, base) < U32_SIZE
  {
  }

  /** One unrolled iteration, in wrapping arithmetic, adds exactly the next eight terms. */
  lemma {:induction false} ChunkStep(w: Buffer, base: nat)
    requires base + 8 <= |w| <= U32_MAX
    ensures Wrap(Wrap(SumTo(w, base)) + Wrap(Sum8(w, base))) == Wrap(SumTo(w, base + 8))
    ensures Wrap(Wrap(WeightedTo(w, base)) +
                 Wrap(WrapMul(Wrap(|w| - Wrap(base)), Wrap(Sum8(w, base))) - Wrap(Offset8(w, base))))
         == Wrap(WeightedTo(w, base + 8))
  {
    EightTerms(w, base);
    Sum8Bound(w, base);
    var L, s, o := |w| - base, Sum8(w, base), Offset8(w, base);
    Small(base);
    Small(L);
    Small(s);
    Small(o);
    WrapAdd(SumTo(w, base), s);
    Accumulate(WeightedTo(w, base), Product(L, s), o);
  }

  lemma {:induction false} ByteStep(w: Buffer, i: nat)
    requires i < |w| <= U32_MAX
    ensures Wrap(Wrap(SumTo(w, i)) + w[i]) == Wrap(SumTo(w, i + 1))
    ensures Wrap(Wrap(WeightedTo(w, i)) + WrapMul(Wrap(|w| - i), w[i])) == Wrap(WeightedTo(w, i + 1))
  {
    WrapAdd(SumTo(w, i), w[i]);
    Small(|w| - i);
    WrapSum(WeightedTo(w, i), Product(|w| - i, w[i]));
  }

  /** `u32::wrapping_mul`. */
  function WrapMul(x: nat, y: nat): u32 {
    Wrap(Product(x, y))
  }

  /** The two updates of `Roll` on wrapped accumulators wrap the exact updates. */
  lemma {:induction false} RollFirst(s: int, first: int, x: int)
    ensures Wrap(Wrap(Wrap(s) - first) + x) == Wrap(s - first + x)
  {
    WrapAdd(s, -first);
    WrapAdd(s - first, x);
  }

  lemma {:induction false} RollSecond(t: int, p: int, s: int)
    ensures Wrap(Wrap(Wrap(t) - Wrap(p)) + Wrap(s)) == Wrap(t - p + s)
  {
    WrapSub(Wrap(t), p);
    WrapAdd(t, -p);
    WrapSum(t - p, s);
  }

  /** One `roll` step takes the wrapped sums of a window to those of the window slid by one byte. */
  lemma {:induction false} RollSums(w: Buffer, x: byte)
    requires |w| > 0
    ensures var v := w[1..] + [x];
            && Wrap(Wrap(Wrap(SumTo(w, |w|)) - w[0]) + x) == Wrap(SumTo(v, |v|))
            && Wrap(Wrap(Wrap(WeightedTo(w, |w|)) - WrapMul(|w|, w[0])) + Wrap(SumTo(v, |v|))) ==
                 Wrap(WeightedTo(v, |v|))
  {
    Slide(w, x);
    var v := w[1..] + [x];
    RollFirst(SumTo(w, |w|), w[0], x);
    RollSecond(WeightedTo(w, |w|), Product(|w|, w[0]), SumTo(v, |v|));
  }

  /** The loops of `new`: eight bytes per iteration, then the remaining 0 to 7. */
  method UnrolledSums(window: Buffer) returns (x: u32, y: u32)
    ensures |window| <= U32_MAX ==> x == Wrap(SumTo(window, |window|)) && y == Wrap(WeightedTo(window, |window|))
  {
    var len := |window|;
    var windowLen := Saturate(len);
    x, y := 0, 0;
    var chunks := len / 8;
    for chunk := 0 to chunks
      invariant len <= U32_MAX ==> x == Wrap(SumTo(window, 8 * chunk)) && y == Wrap(WeightedTo(window, 8 * chunk))
    {
      var base := chunk * 8;
      var w: int := Wrap(windowLen - Wrap(base));
      var s: int := Wrap(Sum8(window, base));
      var weighted: int := Wrap(Offset8(window, base));
      if len <= U32_MAX {
        ChunkStep(window, base);
      }
      x := Wrap(x + s);
      y := Wrap(y + Wrap(WrapMul(w, s) - weighted));
    }
    for i := chunks * 8 to len
      invariant len <= U32_MAX ==> x == Wrap(SumTo(window, i)) && y == Wrap(WeightedTo(window, i))
    {
      var weight := Wrap(windowLen - (if i <= U32_MAX then i else 0));
      if len <= U32_MAX {
        ByteStep(window, i);
      }
      x := Wrap(x + window[i]);
      y := Wrap(y + WrapMul(weight, window[i]));
    }
  }

  class RollingChecksum {
    ghost var window: Buffer  // the bytes currently under the window
    var a: u32
    var b: u32
    const windowLen: u32

    /** The two accumulators hold the definition's sums for the window, modulo 2^32. */
    ghost predicate Valid()
      reads this
    {
      && windowLen == |window|
      && a == Wrap(SumTo(window, |window|))
      && b == Wrap(WeightedTo(window, |window|))
    }

    /** `new`. A window too long for its length field is accepted, but nothing is promised of it. */
    constructor (window: Buffer)
      ensures this.window == window && windowLen == Saturate(|window|)
      ensures |window| <= U32_MAX ==> Valid()
    {
      var x, y := UnrolledSums(window);
      this.window, a, b, windowLen := window, x, y, Saturate(|window|);
    }

    /** `roll`: `outByte` leaves on the left, `inByte` enters on the right. */
    method Roll(outByte: byte, inByte: byte)
      requires Valid() && |window| > 0 && window[0] == outByte
      modifies this
      ensures Valid() && window == old(window)[1..] + [inByte]
    {
      RollSums(window, inByte);
      window := window[1..] + [inByte];
      a := Wrap(Wrap(a - outByte) + inByte);
      b := Wrap(Wrap(b - WrapMul(windowLen, outByte)) + a);
    }

    /** `value`: the low halves of the accumulators, packed; reducing twice loses nothing. */
    function Value(): (weak: u32)
      reads this
      ensures Valid() ==> weak == WeakOf(window)
    {
      HalfOfWrap(SumTo(window, |window|));
      HalfOfWrap(WeightedTo(window, |window|));
      a % 65536 + (b % 65536) * 65536
    }
  }

  lemma {:induction false} HalfOfWrap(x: nat)
    ensures Wrap(x) % 65536 == x % 65536
  {
  }

  /**
   Rolling refinement: from any start, sliding one byte at a time over `data` keeps the state equal
   to a fresh checksum of the current window, so the final value is the definition's.
   */
  method RollAcross(data: Buffer, len: nat) returns (weak: u32)
    requires 0 < len <= |data| && len <= U32_MAX
    ensures weak == WeakOf(data[|data| - len..])
  {
    var rc := new RollingChecksum(data[..len]);
    var i := 0;
    while i + len < |data|
      invariant i + len <= |data|
      invariant fresh(rc) && rc.Valid() && rc.window == data[i..i + len]
    {
      rc.Roll(data[i], data[i + len]);
      assert data[i..i + len][1..] + [data[i + len]] == data[i + 1..i + 1 + len];
      i := i + 1;
    }
    assert data[i..i + len] == data[|data| - len..];
    weak := rc.Value();
  }
}
