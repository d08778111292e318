/**
 The delta engine: signature, lookup, greedy encoder and apply. The encoder is proved equal to a
 plain greedy matcher that recomputes every checksum and scans every block, and the properties the
 design promises (round trip, exact length, no missed block) are proved about that matcher.

 The strong hash is a parameter: nothing is assumed of it beyond being a function, except where a
 lemma names collision-freedom as a hypothesis.
 */
module DeltaEngine {
  import opened Bytes
  import opened Checksum

  type Hasher = Buffer -> Buffer

  datatype Op = Copy(index: nat) | Literal(bytes: Buffer)
  datatype BlockSig = BlockSig(weak: u32, strong: Buffer, len: u32)
  datatype Signature = Signature(blockSize: u32, blocks: seq<BlockSig>)
  datatype Delta = Delta(blockSize: u32, ops: seq<Op>)
  datatype ApplyError = OutOfRange(index: nat)

  // ---------- blocks and signature ----------

  function Mul(i: nat, block: nat): nat {
    i * block
  }

  function Min(x: nat, y: nat): nat {
    if x <= y then x else y
  }

  /** How many chunks of `block` bytes cover `len` bytes. */
  function BlockCount(len: nat, block: nat): (n: nat)
    requires block > 0
    ensures forall i: nat :: i < n <==> Mul(i, block) < len
  {
    if len == 0 then 0
    else if len <= block then 1
    else
      var n := BlockCount(len - block, block);
      assert forall i: nat :: i < n + 1 <==> Mul(i, block) < len by {
        forall i: nat
          ensures i < n + 1 <==> Mul(i, block) < len
        {
          if i > 0 {
            assert Mul(i, block) == Mul(i - 1, block) + block;
          }
        }
      }
      n + 1
  }

  /** Chunk `i` of `base`; the last one may be short. */
  function Block(base: Buffer, block: nat, i: nat): Buffer
    requires Mul(i, block) < |base|
  {
    base[Mul(i, block)..Min(Mul(i, block) + block, |base|)]
  }

  /** Sizes the format can carry: a block size and a block count that fit in 32 bits. */
  predicate Fits(base: Buffer, block: nat) {
    0 < block <= U32_MAX && BlockCount(|base|, block) <= U32_MAX
  }

  function SigOf(h: Hasher, chunk: Buffer): BlockSig {
    BlockSig(WeakOf(chunk), h(chunk), Saturate(|chunk|))
  }

  /** The signature of `base` by definition: one fingerprint per chunk, in order. */
  function SignatureOf(h: Hasher, base: Buffer, block: nat): Signature
    requires 0 < block <= U32_MAX
  {
    var n := BlockCount(|base|, block);
    Signature(block, seq(n, i requires 0 <= i < n => SigOf(h, Block(base, block, i))))
  }

  /** What is computed of one chunk, however long: only the checksum of an oversized one is anyone's guess. */
  predicate Fingerprints(h: Hasher, sig: BlockSig, chunk: Buffer) {
    sig.strong == h(chunk) && sig.len == Saturate(|chunk|) && (|chunk| <= U32_MAX ==> sig.weak == WeakOf(chunk))
  }

  /** `Signature::compute` with an explicit block size, through the unrolled checksum. */
  method ComputeSignature(h: Hasher, base: Buffer, blockOverride: nat) returns (sig: Signature)
    ensures var block := if blockOverride < 1 then 1 else blockOverride;
            && sig.blockSize == Saturate(block) && |sig.blocks| == BlockCount(|base|, block)
            && (forall k :: 0 <= k < |sig.blocks| ==> Fingerprints(h, sig.blocks[k], Block(base, block, k)))
            && (block <= U32_MAX ==> sig == SignatureOf(h, base, block))
  {
    var block := if blockOverride < 1 then 1 else blockOverride;
    var n := BlockCount(|base|, block);
    var blocks: seq<BlockSig> := [];
    for i := 0 to n
      invariant |blocks| == i
      invariant forall k :: 0 <= k < i ==> Fingerprints(h, blocks[k], Block(base, block, k))
    {
      var chunk := Block(base, block, i);
      var rc := new RollingChecksum(chunk);
      blocks := blocks + [BlockSig(rc.Value(), h(chunk), Saturate(|chunk|))];
    }
    sig := Signature(Saturate(block), blocks);
    if block <= U32_MAX {
      assert forall k :: 0 <= k < n ==> blocks[k] == SigOf(h, Block(base, block, k));
    }
  }

  // ---------- lookup ----------

  predicate Matches(h: Hasher, block: BlockSig, weak: u32, window: Buffer) {
    block.weak == weak && block.len == |window| && block.strong == h(window)
  }

  /** The reference search: the first block, in order from `i`, that matches. */
  function FirstMatch(h: Hasher, blocks: seq<BlockSig>, weak: u32, window: Buffer, i: nat): Option<nat>
    requires i <= |blocks|
    decreases |blocks| - i
  {
    if i == |blocks| then None
    else if Matches(h, blocks[i], weak, window) then Some(i)
    else FirstMatch(h, blocks, weak, window, i + 1)
  }

  lemma {:induction false} FirstMatchIsFirst(h: Hasher, blocks: seq<BlockSig>, weak: u32, window: Buffer, i: nat)
    requires i <= |blocks|
    ensures match FirstMatch(h, blocks, weak, window, i)
            case None => forall k :: i <= k < |blocks| ==> !Matches(h, blocks[k], weak, window)
            case Some(m) => i <= m < |blocks| && Matches(h, blocks[m], weak, window)
                            && forall k :: i <= k < m ==> !Matches(h, blocks[k], weak, window)
    decreases |blocks| - i
  {
    if i < |blocks| && !Matches(h, blocks[i], weak, window) {
      FirstMatchIsFirst(h, blocks, weak, window, i + 1);
    }
  }

  function Find(h: Hasher, sig: Signature, window: Buffer): Option<nat> {
    FirstMatch(h, sig.blocks, WeakOf(window), window, 0)
  }

  /** The blocks among the first `n` that carry checksum `weak`, in order. */
  function Bucket(blocks: seq<BlockSig>, n: nat, weak: u32): seq<nat>
    requires n <= |blocks|
  {
    if n == 0 then []
    else if blocks[n - 1].weak == weak then Bucket(blocks, n - 1, weak) + [n - 1]
    else Bucket(blocks, n - 1, weak)
  }

  lemma {:induction false} BucketIsExact(blocks: seq<BlockSig>, n: nat, weak: u32)
    requires n <= |blocks|
    ensures var r := Bucket(blocks, n, weak);
            && (forall k :: 0 <= k < |r| ==> r[k] < n && blocks[r[k]].weak == weak)
            && (forall j, k :: 0 <= j < k < |r| ==> r[j] < r[k])
            && (forall i :: 0 <= i < n && blocks[i].weak == weak ==> i in r)
  {
    if n > 0 {
      BucketIsExact(blocks, n - 1, weak);
      var before, r := Bucket(blocks, n - 1, weak), Bucket(blocks, n, weak);
      if blocks[n - 1].weak == weak {
        assert r == before + [n - 1];
        assert forall k :: 0 <= k < |before| ==> r[k] == before[k];
        assert r[|r| - 1] == n - 1;
        assert forall i :: i in before ==> i in r;
      } else {
        assert r == before;
      }
    }
  }

  /** The first `n` blocks are indexed, each under its own checksum, and nothing else is. */
  ghost predicate Indexes(byWeak: map<u32, seq<nat>>, blocks: seq<BlockSig>, n: nat)
    requires n <= |blocks|
  {
    forall w: u32 :: (if w in byWeak then byWeak[w] else []) == Bucket(blocks, n, w)
  }

  /** `Lookup`: weak checksum to the indices of the blocks that carry it. Fixed once built. */
  class Lookup {
    const sig: Signature
    const byWeak: map<u32, seq<nat>>

    ghost predicate Valid() {
      Indexes(byWeak, sig.blocks, |sig.blocks|)
    }

    constructor (sig: Signature)
      requires |sig.blocks| <= U32_MAX
      ensures this.sig == sig && Valid()
    {
      var byWeak: map<u32, seq<nat>> := map[];
      for i := 0 to |sig.blocks|
        invariant Indexes(byWeak, sig.blocks, i)
      {
        var w := sig.blocks[i].weak;
        byWeak := byWeak[w := (if w in byWeak then byWeak[w] else []) + [Saturate(i)]];
      }
      this.sig, this.byWeak := sig, byWeak;
    }

    /** `find`: the candidate loop with its cached strong hash is the reference search. */
    method FindBlock(h: Hasher, weak: u32, window: Buffer) returns (r: Option<nat>)
      requires Valid()
      ensures r == FirstMatch(h, sig.blocks, weak, window, 0)
    {
      BucketIsExact(sig.blocks, |sig.blocks|, weak);
      assert (if weak in byWeak then byWeak[weak] else []) == Bucket(sig.blocks, |sig.blocks|, weak);
      FirstMatchIsFirst(h, sig.blocks, weak, window, 0);
      if weak !in byWeak {
        return None;
      }
      var candidates := byWeak[weak];
      var strong: Option<Buffer> := None;
      for c := 0 to |candidates|
        invariant strong.Some? ==> strong.value == h(window)
        invariant forall k :: 0 <= k < c ==> !Matches(h, sig.blocks[candidates[k]], weak, window)
      {
        var block := sig.blocks[candidates[c]];
        if block.len != |window| {
          continue;
        }
        if strong.None? {
          strong := Some(h(window));
        }
        if block.strong == strong.value {
          return Some(candidates[c]);
        }
      }
      return None;
    }
  }

  // ---------- encoder ----------

  /** The block of `sig` the `blockSize` window at `pos` matches, if any. */
  function FindAt(h: Hasher, sig: Signature, data: Buffer, pos: nat): Option<nat>
    requires pos + sig.blockSize <= |data|
  {
    Find(h, sig, data[pos..pos + sig.blockSize])
  }

  function Run(bytes: Buffer): seq<Op> {
    if bytes == [] then [] else [Literal(bytes)]
  }

  /** What is emitted for the bytes from `lit` on once no further window fits or matches. */
  function Tail(h: Hasher, sig: Signature, data: Buffer, lit: nat): seq<Op>
    requires lit <= |data|
  {
    if lit == |data| then []
    else match Find(h, sig, data[lit..])
      case Some(i) => [Copy(i)]
      case None => [Literal(data[lit..])]
  }

  /** The reference matcher: every window hashed afresh, every block scanned. */
  function Greedy(h: Hasher, sig: Signature, data: Buffer, pos: nat, lit: nat): seq<Op>
    requires sig.blockSize > 0 && lit <= pos <= |data|
    decreases |data| - pos
  {
    var b := sig.blockSize;
    if pos + b > |data| then Tail(h, sig, data, lit)
    else match FindAt(h, sig, data, pos)
      case Some(i) => Run(data[lit..pos]) + ([Copy(i)] + Greedy(h, sig, data, pos + b, pos + b))
      case None => if pos + b < |data| then Greedy(h, sig, data, pos + 1, lit) else Tail(h, sig, data, lit)
  }

  lemma {:induction false} GreedyWithoutBlocks(h: Hasher, sig: Signature, data: Buffer, pos: nat)
    requires sig.blockSize > 0 && sig.blocks == [] && pos <= |data|
    ensures Greedy(h, sig, data, pos, 0) == Run(data)
    decreases |data| - pos
  {
    assert data[0..] == data;
    if pos + sig.blockSize < |data| {
      GreedyWithoutBlocks(h, sig, data, pos + 1);
    }
  }

  /** A window longer than any recorded block length matches nothing, whatever its checksum. */
  lemma {:induction false} OversizedFindsNothing(h: Hasher, sig: Signature, weak: u32, window: Buffer)
    requires |window| > U32_MAX
    ensures FirstMatch(h, sig.blocks, weak, window, 0) == None == Find(h, sig, window)
  {
    FirstMatchIsFirst(h, sig.blocks, weak, window, 0);
    FirstMatchIsFirst(h, sig.blocks, WeakOf(window), window, 0);
  }

  /** No window from `start` up to but not including `pos` matches a block. */
  ghost predicate MissesBetween(h: Hasher, sig: Signature, data: Buffer, start: nat, pos: nat)
    requires pos + sig.blockSize <= |data|
  {
    forall p :: start <= p < pos ==> FindAt(h, sig, data, p) == None
  }

  lemma {:induction false} OneMoreMiss(h: Hasher, sig: Signature, data: Buffer, start: nat, pos: nat)
    requires start <= pos && pos + sig.blockSize < |data|
    requires MissesBetween(h, sig, data, start, pos) && FindAt(h, sig, data, pos) == None
    ensures MissesBetween(h, sig, data, start, pos + 1)
  {
  }

  /** Windows that match nothing only lengthen the pending run. */
  lemma {:induction false} GreedyMisses(h: Hasher, sig: Signature, data: Buffer, start: nat, pos: nat, lit: nat)
    requires sig.blockSize > 0 && lit <= start <= pos && pos + sig.blockSize <= |data|
    requires MissesBetween(h, sig, data, start, pos)
    ensures Greedy(h, sig, data, start, lit) == Greedy(h, sig, data, pos, lit)
    decreases pos - start
  {
    if start < pos {
      assert FindAt(h, sig, data, start) == None;
      GreedyMisses(h, sig, data, start + 1, pos, lit);
    }
  }

  /** Scanning from the start of a run to its first match emits the run and the copy. */
  lemma {:induction false} GreedyUntil(h: Hasher, sig: Signature, data: Buffer, lit: nat, pos: nat, i: nat,
                                       ops: seq<Op>)
    requires sig.blockSize > 0 && lit <= pos && pos + sig.blockSize <= |data|
    requires MissesBetween(h, sig, data, lit, pos) && FindAt(h, sig, data, pos) == Some(i)
    ensures ops + Greedy(h, sig, data, lit, lit)
         == ops + Run(data[lit..pos]) + [Copy(i)] + Greedy(h, sig, data, pos + sig.blockSize, pos + sig.blockSize)
  {
    GreedyMisses(h, sig, data, lit, pos, lit);
    var run, rest := Run(data[lit..pos]), Greedy(h, sig, data, pos + sig.blockSize, pos + sig.blockSize);
    assert ops + (run + ([Copy(i)] + rest)) == ops + run + [Copy(i)] + rest;
  }

  /** Scanning to the last window without a match leaves everything to the tail. */
  lemma {:induction false} GreedyRunsOut(h: Hasher, sig: Signature, data: Buffer, lit: nat, pos: nat)
    requires sig.blockSize > 0 && lit <= pos && pos + sig.blockSize == |data|
    requires MissesBetween(h, sig, data, lit, pos) && FindAt(h, sig, data, pos) == None
    ensures Greedy(h, sig, data, lit, lit) == Tail(h, sig, data, lit)
  {
    GreedyMisses(h, sig, data, lit, pos, lit);
  }

  /**
   The windows between two copies: a fresh checksum at `start`, then one byte at a time while
   nothing matches. Returns the first window that matches, or the last one there is.
   */
  method SlideToMatch(h: Hasher, index: Lookup, data: Buffer, start: nat) returns (hit: Option<nat>, pos: nat)
    requires index.Valid() && index.sig.blockSize > 0
    requires start + index.sig.blockSize <= |data|
    ensures start <= pos <= pos + index.sig.blockSize <= |data|
    ensures MissesBetween(h, index.sig, data, start, pos)
    ensures hit == FindAt(h, index.sig, data, pos)
    ensures hit.None? ==> pos + index.sig.blockSize == |data|
  {
    var block: nat := index.sig.blockSize;
    pos := start;
    var rc := new RollingChecksum(data[pos..pos + block]);
    hit := index.FindBlock(h, rc.Value(), data[pos..pos + block]);
    while hit.None? && pos + block < |data|
      invariant start <= pos <= pos + block <= |data|
      invariant fresh(rc) && rc.Valid() && rc.window == data[pos..pos + block]
      invariant MissesBetween(h, index.sig, data, start, pos)
      invariant hit == FindAt(h, index.sig, data, pos)
      decreases |data| - pos
    {
      OneMoreMiss(h, index.sig, data, start, pos);
      SlideWindow(data, pos, block);
      rc.Roll(data[pos], data[pos + block]);
      pos := pos + 1;
      hit := index.FindBlock(h, rc.Value(), data[pos..pos + block]);
    }
  }

  lemma {:induction false} SlideWindow(data: Buffer, pos: nat, block: nat)
    requires 0 < block && pos + block < |data|
    ensures data[pos..pos + block][0] == data[pos]
    ensures data[pos..pos + block][1..] + [data[pos + block]] == data[pos + 1..pos + 1 + block]
  {
  }

  /** One turn of the window loop: flush the run, emit the copy, jump one block; or find no match left. */
  method ScanToCopy(h: Hasher, index: Lookup, data: Buffer, ops: seq<Op>, lit: nat)
    returns (more: bool, now: seq<Op>, next: nat)
    requires index.Valid() && index.sig.blockSize > 0 && lit + index.sig.blockSize <= |data|
    ensures lit <= next <= |data| && (more ==> lit < next)
    ensures ops + Greedy(h, index.sig, data, lit, lit) ==
            now + if more then Greedy(h, index.sig, data, next, next) else Tail(h, index.sig, data, next)
  {
    var hit, pos := SlideToMatch(h, index, data, lit);
    if hit.None? {
      GreedyRunsOut(h, index.sig, data, lit, pos);
      return false, ops, lit;
    }
    GreedyUntil(h, index.sig, data, lit, pos, hit.value, ops);
    return true, ops + Run(data[lit..pos]) + [Copy(hit.value)], pos + index.sig.blockSize;
  }

  /** The window loop of `encode_with_signature`. */
  method ScanWindows(h: Hasher, index: Lookup, data: Buffer) returns (ops: seq<Op>, lit: nat)
    requires index.Valid() && index.sig.blockSize > 0
    ensures lit <= |data|
    ensures ops + Tail(h, index.sig, data, lit) == Greedy(h, index.sig, data, 0, 0)
  {
    ops, lit := [], 0;
    var more := true;
    while more && lit + index.sig.blockSize <= |data|
      invariant lit <= |data|
      invariant ops + (if more then Greedy(h, index.sig, data, lit, lit) else Tail(h, index.sig, data, lit)) ==
                  Greedy(h, index.sig, data, 0, 0)
      decreases more, |data| - lit
    {
      more, ops, lit := ScanToCopy(h, index, data, ops, lit);
    }
  }

  /** `encode_with_signature`: the window loop, then one last lookup for the short remainder. */
  method EncodeWithSignature(h: Hasher, sig: Signature, data: Buffer) returns (delta: Delta)
    requires sig.blockSize > 0 && |sig.blocks| <= U32_MAX
    ensures delta == Delta(sig.blockSize, Greedy(h, sig, data, 0, 0))
  {
    if |sig.blocks| == 0 {
      GreedyWithoutBlocks(h, sig, data, 0);
      return Delta(sig.blockSize, if data == [] then [] else [Literal(data)]);
    }
    var index := new Lookup(sig);
    var ops, lit := ScanWindows(h, index, data);
    var remaining := data[lit..];
    if remaining != [] {
      var rc := new RollingChecksum(remaining);
      if |remaining| > U32_MAX {
        OversizedFindsNothing(h, sig, rc.Value(), remaining);
      }
      var hit := index.FindBlock(h, rc.Value(), remaining);
      if hit.Some? {
        ops := ops + [Copy(hit.value)];
      } else {
        ops := ops + [Literal(remaining)];
      }
    }
    delta := Delta(sig.blockSize, ops);
  }

  // ---------- apply ----------

  function Prepend(bytes: Buffer, rest: Result<Buffer, ApplyError>): Result<Buffer, ApplyError> {
    match rest
    case Ok(tail) => Ok(bytes + tail)
    case Err(e) => Err(e)
  }

  /** The bytes a list of operations stands for, given `base`. */
  function Meaning(base: Buffer, block: nat, ops: seq<Op>): Result<Buffer, ApplyError> {
    if ops == [] then Ok([])
    else match ops[0]
      case Literal(bytes) => Prepend(bytes, Meaning(base, block, ops[1..]))
      case Copy(i) =>
        if Mul(i, block) < |base| then Prepend(Block(base, block, i), Meaning(base, block, ops[1..]))
        else if Mul(i, block) == 0 then Meaning(base, block, ops[1..])
        else Err(OutOfRange(i))
  }

  /** A copy that starts past the end of the base; the empty base has its one block at the start. */
  ghost predicate Overruns(base: Buffer, block: nat, op: Op) {
    op.Copy? && Mul(op.index, block) >= |base| && Mul(op.index, block) != 0
  }

  ghost predicate FirstOverrun(base: Buffer, block: nat, ops: seq<Op>, k: nat) {
    k < |ops| && Overruns(base, block, ops[k]) && forall j :: 0 <= j < k ==> !Overruns(base, block, ops[j])
  }

  /** Operations mean something if and only if no copy overruns; otherwise the first one that does is named. */
  lemma {:induction false} FirstBadCopy(base: Buffer, block: nat, ops: seq<Op>)
    ensures match Meaning(base, block, ops)
            case Ok(_) => forall k :: 0 <= k < |ops| ==> !Overruns(base, block, ops[k])
            case Err(e) => exists k: nat :: FirstOverrun(base, block, ops, k) && e == OutOfRange(ops[k].index)
  {
    if ops != [] {
      FirstBadCopy(base, block, ops[1..]);
      assert forall k :: 0 < k < |ops| ==> ops[k] == ops[1..][k - 1];
      if Overruns(base, block, ops[0]) {
        assert FirstOverrun(base, block, ops, 0);
      } else if Meaning(base, block, ops[1..]).Err? {
        var k: nat :| FirstOverrun(base, block, ops[1..], k) &&
                      Meaning(base, block, ops[1..]).error == OutOfRange(ops[1..][k].index);
        assert FirstOverrun(base, block, ops, k + 1);
      }
    }
  }

  /** `apply`: the output buffer grows operation by operation and the first bad copy stops it. */
  method Apply(base: Buffer, delta: Delta) returns (r: Result<Buffer, ApplyError>)
    ensures r == Meaning(base, delta.blockSize, delta.ops)
    ensures r.Ok? <==> forall k :: 0 <= k < |delta.ops| ==> !Overruns(base, delta.blockSize, delta.ops[k])
    ensures r.Err? ==>
              exists k: nat :: FirstOverrun(base, delta.blockSize, delta.ops, k) &&
                               r.error == OutOfRange(delta.ops[k].index)
  {
    FirstBadCopy(base, delta.blockSize, delta.ops);
    var out: Buffer := [];
    var block := delta.blockSize;
    assert delta.ops[0..] == delta.ops;
    PrependNothing(Meaning(base, block, delta.ops));
    for k := 0 to |delta.ops|
      invariant Prepend(out, Meaning(base, block, delta.ops[k..])) == Meaning(base, block, delta.ops)
    {
      var rest := delta.ops[k..];
      assert rest[1..] == delta.ops[k + 1..];
      match delta.ops[k]
      case Literal(bytes) =>
        PrependTwice(out, bytes, Meaning(base, block, rest[1..]));
        out := out + bytes;
      case Copy(i) =>
        var start := Mul(i, block);
        if start >= |base| && !(start == 0 && base == []) {
          return Err(OutOfRange(i));
        }
        PrependNothing(Meaning(base, block, rest[1..]));
        PrependTwice(out, base[start..Min(start + block, |base|)], Meaning(base, block, rest[1..]));
        out := out + base[start..Min(start + block, |base|)];
    }
    assert out + [] == out;
    r := Ok(out);
  }

  lemma {:induction false} PrependNothing(r: Result<Buffer, ApplyError>)
    ensures Prepend([], r) == r
  {
    if r.Ok? {
      assert [] + r.value == r.value;
    }
  }

  lemma {:induction false} PrependTwice(a: Buffer, b: Buffer, r: Result<Buffer, ApplyError>)
    ensures Prepend(a, Prepend(b, r)) == Prepend(a + b, r)
  {
    if r.Ok? {
      assert a + (b + r.value) == (a + b) + r.value;
    }
  }
}
