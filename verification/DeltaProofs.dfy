/** What the delta engine promises, proved of the reference matcher that the encoder computes. */
module DeltaProofs {
  import opened Bytes
  import opened Checksum
  import opened DeltaEngine

  function LiteralBytes(ops: seq<Op>): nat {
    if ops == [] then 0
    else (match ops[0] case Literal(bytes) => |bytes| case Copy(_) => 0) + LiteralBytes(ops[1..])
  }

  function CopiedBytes(base: Buffer, block: nat, ops: seq<Op>): nat {
    if ops == [] then 0
    else (match ops[0]
          case Literal(_) => 0
          case Copy(i) => if Mul(i, block) < |base| then |Block(base, block, i)| else 0)
         + CopiedBytes(base, block, ops[1..])
  }

  /**
   No window of `data` shares its length and strong hash with a block of `base` without sharing its
   bytes. Nothing is assumed about any other pair of buffers.
   */
  ghost predicate CollisionFree(h: Hasher, base: Buffer, block: nat, data: Buffer) {
    forall i: nat, s: nat, e: nat ::
      (&& Mul(i, block) < |base| && s <= e <= |data| && |Block(base, block, i)| == e - s
       && h(Block(base, block, i)) == h(data[s..e]))
      ==> Block(base, block, i) == data[s..e]
  }

  /** A match names a real block of the same length, and of the same bytes unless hashes collide. */
  lemma {:induction false} MatchIsBlock(h: Hasher, base: Buffer, block: nat, data: Buffer, s: nat, e: nat)
    requires Fits(base, block) && s <= e <= |data|
    ensures match Find(h, SignatureOf(h, base, block), data[s..e])
            case None => true
            case Some(i) =>
              && Mul(i, block) < |base|
              && |Block(base, block, i)| == e - s
              && (CollisionFree(h, base, block, data) ==> Block(base, block, i) == data[s..e])
  {
    var sig := SignatureOf(h, base, block);
    FirstMatchIsFirst(h, sig.blocks, WeakOf(data[s..e]), data[s..e], 0);
    match Find(h, sig, data[s..e])
    case None =>
    case Some(i) =>
      assert sig.blocks[i] == SigOf(h, Block(base, block, i));
  }

  /**
   What the operations from one point of the encoding on amount to. `exact` asks for the bytes, which
   takes a hash that does not collide.
   */
  ghost predicate Rebuilds(exact: bool, base: Buffer, block: nat, data: Buffer, lit: nat, ops: seq<Op>)
    requires lit <= |data|
  {
    var r := Meaning(base, block, ops);
    && r.Ok?
    && |r.value| == |data| - lit
    && LiteralBytes(ops) + CopiedBytes(base, block, ops) == |data| - lit
    && (exact ==> r.value == data[lit..])
  }

  lemma {:induction false} RebuildsCopy(exact: bool, base: Buffer, block: nat, data: Buffer, lit: nat, i: nat,
                                        next: nat, rest: seq<Op>)
    requires lit <= next <= |data| && Mul(i, block) < |base| && |Block(base, block, i)| == next - lit
    requires exact ==> Block(base, block, i) == data[lit..next]
    requires Rebuilds(exact, base, block, data, next, rest)
    ensures Rebuilds(exact, base, block, data, lit, [Copy(i)] + rest)
  {
    var ops := [Copy(i)] + rest;
    assert ops[1..] == rest;
    assert data[lit..] == data[lit..next] + data[next..];
  }

  lemma {:induction false} RebuildsRun(exact: bool, base: Buffer, block: nat, data: Buffer, lit: nat, next: nat,
                                       rest: seq<Op>)
    requires lit <= next <= |data|
    requires Rebuilds(exact, base, block, data, next, rest)
    ensures Rebuilds(exact, base, block, data, lit, Run(data[lit..next]) + rest)
  {
    var ops := Run(data[lit..next]) + rest;
    if lit < next {
      assert ops[1..] == rest;
      assert data[lit..] == data[lit..next] + data[next..];
    } else {
      assert ops == rest;
    }
  }

  lemma {:induction false} TailRebuilds(exact: bool, h: Hasher, base: Buffer, block: nat, data: Buffer, lit: nat)
    requires Fits(base, block) && lit <= |data| && (exact ==> CollisionFree(h, base, block, data))
    ensures Rebuilds(exact, base, block, data, lit, Tail(h, SignatureOf(h, base, block), data, lit))
  {
    var sig := SignatureOf(h, base, block);
    assert Rebuilds(exact, base, block, data, |data|, []);
    assert data[lit..|data|] == data[lit..];
    if lit < |data| {
      MatchIsBlock(h, base, block, data, lit, |data|);
      match Find(h, sig, data[lit..])
      case Some(i) =>
        RebuildsCopy(exact, base, block, data, lit, i, |data|, []);
        assert [Copy(i)] + [] == [Copy(i)];
      case None =>
        RebuildsRun(exact, base, block, data, lit, |data|, []);
        assert Run(data[lit..]) + [] == Run(data[lit..]);
    }
  }

  lemma {:induction false} RebuildsHit(exact: bool, base: Buffer, block: nat, data: Buffer, pos: nat, lit: nat, i: nat,
                                       rest: seq<Op>)
    requires lit <= pos <= pos + block <= |data| && Mul(i, block) < |base| && |Block(base, block, i)| == block
    requires exact ==> Block(base, block, i) == data[pos..pos + block]
    requires Rebuilds(exact, base, block, data, pos + block, rest)
    ensures Rebuilds(exact, base, block, data, lit, Run(data[lit..pos]) + ([Copy(i)] + rest))
  {
    RebuildsCopy(exact, base, block, data, pos, i, pos + block, rest);
    RebuildsRun(exact, base, block, data, lit, pos, [Copy(i)] + rest);
  }

  lemma {:induction false} GreedyHit(h: Hasher, sig: Signature, data: Buffer, pos: nat, lit: nat)
    requires sig.blockSize > 0 && lit <= pos <= pos + sig.blockSize <= |data| && FindAt(h, sig, data, pos).Some?
    ensures Greedy(h, sig, data, pos, lit)
         == Run(data[lit..pos]) + ([Copy(FindAt(h, sig, data, pos).value)] +
                                   Greedy(h, sig, data, pos + sig.blockSize, pos + sig.blockSize))
  {
  }

  lemma {:induction false} HitRebuilds(exact: bool, h: Hasher, base: Buffer, block: nat, data: Buffer, pos: nat,
                                       lit: nat)
    requires Fits(base, block) && lit <= pos <= pos + block <= |data| && (exact ==> CollisionFree(h, base, block, data))
    requires FindAt(h, SignatureOf(h, base, block), data, pos).Some?
    requires Rebuilds(exact, base, block, data, pos + block,
                      Greedy(h, SignatureOf(h, base, block), data, pos + block, pos + block))
    ensures Rebuilds(exact, base, block, data, lit, Greedy(h, SignatureOf(h, base, block), data, pos, lit))
  {
    var sig := SignatureOf(h, base, block);
    MatchIsBlock(h, base, block, data, pos, pos + block);
    GreedyHit(h, sig, data, pos, lit);
    RebuildsHit(exact, base, block, data, pos, lit, FindAt(h, sig, data, pos).value,
                Greedy(h, sig, data, pos + block, pos + block));
  }

  /** Past the last match, or with no room for another window, the tail is all there is. */
  lemma {:induction false} EndRebuilds(exact: bool, h: Hasher, base: Buffer, block: nat, data: Buffer, pos: nat,
                                       lit: nat)
    requires Fits(base, block) && lit <= pos <= |data| && (exact ==> CollisionFree(h, base, block, data))
    requires pos + block > |data| ||
             (pos + block == |data| && FindAt(h, SignatureOf(h, base, block), data, pos) == None)
    ensures Rebuilds(exact, base, block, data, lit, Greedy(h, SignatureOf(h, base, block), data, pos, lit))
  {
    TailRebuilds(exact, h, base, block, data, lit);
    assert Greedy(h, SignatureOf(h, base, block), data, pos, lit) == Tail(h, SignatureOf(h, base, block), data, lit);
  }

  lemma {:induction false} GreedyRebuilds(exact: bool, h: Hasher, base: Buffer, block: nat, data: Buffer, pos: nat,
                                          lit: nat)
    requires Fits(base, block) && lit <= pos <= |data| && (exact ==> CollisionFree(h, base, block, data))
    ensures Rebuilds(exact, base, block, data, lit, Greedy(h, SignatureOf(h, base, block), data, pos, lit))
    decreases |data| - pos
  {
    var sig := SignatureOf(h, base, block);
    if pos + block > |data| {
      EndRebuilds(exact, h, base, block, data, pos, lit);
    } else if FindAt(h, sig, data, pos).Some? {
      GreedyRebuilds(exact, h, base, block, data, pos + block, pos + block);
      HitRebuilds(exact, h, base, block, data, pos, lit);
    } else if pos + block < |data| {
      GreedyRebuilds(exact, h, base, block, data, pos + 1, lit);
      assert Greedy(h, sig, data, pos, lit) == Greedy(h, sig, data, pos + 1, lit);
    } else {
      EndRebuilds(exact, h, base, block, data, pos, lit);
    }
  }

  /** `encode(base, data, block)` by definition. */
  function Encoded(h: Hasher, base: Buffer, block: nat, data: Buffer): seq<Op>
    requires Fits(base, block)
  {
    Greedy(h, SignatureOf(h, base, block), data, 0, 0)
  }

  /** With no assumption on the hash, a self-produced delta applies, to exactly `|data|` bytes. */
  lemma {:induction false} AppliesToExactLength(h: Hasher, base: Buffer, block: nat, data: Buffer)
    requires Fits(base, block)
    ensures var ops := Encoded(h, base, block, data);
            && Meaning(base, block, ops).Ok?
            && |Meaning(base, block, ops).value| == |data|
            && LiteralBytes(ops) + CopiedBytes(base, block, ops) == |data|
  {
    GreedyRebuilds(false, h, base, block, data, 0, 0);
  }

  /** Round trip: unless the strong hash collides, applying the encoding rebuilds `data`. */
  lemma {:induction false} RoundTrip(h: Hasher, base: Buffer, block: nat, data: Buffer)
    requires Fits(base, block) && CollisionFree(h, base, block, data)
    ensures Meaning(base, block, Encoded(h, base, block, data)) == Ok(data)
  {
    GreedyRebuilds(true, h, base, block, data, 0, 0);
    assert data[0..] == data;
  }

  // ---------- greedy completeness ----------

  /** Some full-size block of `base` has exactly the bytes of `w`. */
  ghost predicate IsFullBlock(base: Buffer, block: nat, w: Buffer) {
    exists i: nat :: Mul(i, block) + block <= |base| && block > 0 && Block(base, block, i) == w
  }

  ghost predicate ReusableAt(base: Buffer, block: nat, data: Buffer, p: nat) {
    p + block <= |data| && IsFullBlock(base, block, data[p..p + block])
  }

  /**
   Read from output position `off`, every literal run repeats `data` in place, and no position
   inside one begins a window that equals a full block of `base`.
   */
  ghost predicate NothingMissed(base: Buffer, block: nat, data: Buffer, off: nat, ops: seq<Op>)
    decreases |ops|
  {
    ops == [] ||
    match ops[0]
    case Literal(bytes) =>
      && off + |bytes| <= |data| && bytes == data[off..off + |bytes|]
      && NoneReusable(base, block, data, off, off + |bytes|)
      && NothingMissed(base, block, data, off + |bytes|, ops[1..])
    case Copy(i) =>
      && Mul(i, block) < |base|
      && NothingMissed(base, block, data, off + |Block(base, block, i)|, ops[1..])
  }

  /** Every full block is found wherever it occurs, so a miss means no block is there. */
  lemma {:induction false} MissMeansAbsent(h: Hasher, base: Buffer, block: nat, data: Buffer, p: nat)
    requires Fits(base, block) && p + block <= |data|
    requires FindAt(h, SignatureOf(h, base, block), data, p) == None
    ensures !ReusableAt(base, block, data, p)
  {
    var sig, w := SignatureOf(h, base, block), data[p..p + block];
    FirstMatchIsFirst(h, sig.blocks, WeakOf(w), w, 0);
    forall i: nat | Mul(i, block) + block <= |base|
      ensures Block(base, block, i) != w
    {
      assert sig.blocks[i] == SigOf(h, Block(base, block, i));
      assert !Matches(h, sig.blocks[i], WeakOf(w), w);
    }
  }

  /** No position from `from` up to but not including `to` begins a window that could be copied. */
  ghost predicate NoneReusable(base: Buffer, block: nat, data: Buffer, from: nat, to: nat) {
    forall p :: from <= p < to ==> !ReusableAt(base, block, data, p)
  }

  lemma {:induction false} TailMissesNothing(h: Hasher, base: Buffer, block: nat, data: Buffer, lit: nat, to: nat)
    requires Fits(base, block) && lit <= |data| && to + block > |data|
    requires NoneReusable(base, block, data, lit, to)
    ensures NothingMissed(base, block, data, lit, Tail(h, SignatureOf(h, base, block), data, lit))
  {
    assert data[lit..|data|] == data[lit..];
    MatchIsBlock(h, base, block, data, lit, |data|);
  }

  lemma {:induction false} CopyMissesNothing(base: Buffer, block: nat, data: Buffer, off: nat, i: nat, rest: seq<Op>)
    requires Mul(i, block) < |base| && NothingMissed(base, block, data, off + |Block(base, block, i)|, rest)
    ensures NothingMissed(base, block, data, off, [Copy(i)] + rest)
  {
    assert ([Copy(i)] + rest)[1..] == rest;
  }

  lemma {:induction false} RunMissesNothing(base: Buffer, block: nat, data: Buffer, off: nat, next: nat, rest: seq<Op>)
    requires off <= next <= |data| && NothingMissed(base, block, data, next, rest)
    requires NoneReusable(base, block, data, off, next)
    ensures NothingMissed(base, block, data, off, Run(data[off..next]) + rest)
  {
    if off < next {
      assert (Run(data[off..next]) + rest)[1..] == rest;
    } else {
      assert Run(data[off..next]) + rest == rest;
    }
  }

  lemma {:induction false} HitMissesNothing(h: Hasher, base: Buffer, block: nat, data: Buffer, pos: nat, lit: nat)
    requires Fits(base, block) && lit <= pos <= pos + block <= |data| && NoneReusable(base, block, data, lit, pos)
    requires FindAt(h, SignatureOf(h, base, block), data, pos).Some?
    requires NothingMissed(base, block, data, pos + block,
                           Greedy(h, SignatureOf(h, base, block), data, pos + block, pos + block))
    ensures NothingMissed(base, block, data, lit, Greedy(h, SignatureOf(h, base, block), data, pos, lit))
  {
    var sig := SignatureOf(h, base, block);
    var i, rest := FindAt(h, sig, data, pos).value, Greedy(h, sig, data, pos + block, pos + block);
    MatchIsBlock(h, base, block, data, pos, pos + block);
    CopyMissesNothing(base, block, data, pos, i, rest);
    RunMissesNothing(base, block, data, lit, pos, [Copy(i)] + rest);
    GreedyHit(h, sig, data, pos, lit);
  }

  lemma {:induction false} GreedyMissesNothing(h: Hasher, base: Buffer, block: nat, data: Buffer, pos: nat, lit: nat)
    requires Fits(base, block) && lit <= pos <= |data| && NoneReusable(base, block, data, lit, pos)
    ensures NothingMissed(base, block, data, lit, Greedy(h, SignatureOf(h, base, block), data, pos, lit))
    decreases |data| - pos
  {
    var sig := SignatureOf(h, base, block);
    if pos + block > |data| {
      TailMissesNothing(h, base, block, data, lit, pos);
      assert Greedy(h, sig, data, pos, lit) == Tail(h, sig, data, lit);
    } else if FindAt(h, sig, data, pos).Some? {
      GreedyMissesNothing(h, base, block, data, pos + block, pos + block);
      HitMissesNothing(h, base, block, data, pos, lit);
    } else {
      MissExtends(h, base, block, data, lit, pos);
      if pos + block < |data| {
        GreedyMissesNothing(h, base, block, data, pos + 1, lit);
        assert Greedy(h, sig, data, pos, lit) == Greedy(h, sig, data, pos + 1, lit);
      } else {
        TailMissesNothing(h, base, block, data, lit, pos + 1);
        assert Greedy(h, sig, data, pos, lit) == Tail(h, sig, data, lit);
      }
    }
  }

  lemma {:induction false} MissExtends(h: Hasher, base: Buffer, block: nat, data: Buffer, lit: nat, pos: nat)
    requires Fits(base, block) && lit <= pos <= pos + block <= |data| && NoneReusable(base, block, data, lit, pos)
    requires FindAt(h, SignatureOf(h, base, block), data, pos) == None
    ensures NoneReusable(base, block, data, lit, pos + 1)
  {
    MissMeansAbsent(h, base, block, data, pos);
  }

  /** Greedy completeness: no literal byte of an encoding begins a window that could have been copied. */
  lemma {:induction false} EncodingMissesNothing(h: Hasher, base: Buffer, block: nat, data: Buffer)
    requires Fits(base, block)
    ensures NothingMissed(base, block, data, 0, Encoded(h, base, block, data))
  {
    GreedyMissesNothing(h, base, block, data, 0, 0);
  }

  // ---------- an unchanged file ----------

  predicate AllCopies(ops: seq<Op>) {
    forall k :: 0 <= k < |ops| ==> ops[k].Copy?
  }

  lemma {:induction false} OwnBlockIsFound(h: Hasher, base: Buffer, block: nat, k: nat)
    requires Fits(base, block) && Mul(k, block) < |base|
    ensures Find(h, SignatureOf(h, base, block), Block(base, block, k)).Some?
  {
    var sig, w := SignatureOf(h, base, block), Block(base, block, k);
    FirstMatchIsFirst(h, sig.blocks, WeakOf(w), w, 0);
    assert sig.blocks[k] == SigOf(h, w);
    assert Matches(h, sig.blocks[k], WeakOf(w), w);
  }

  lemma {:induction false} SelfStep(h: Hasher, base: Buffer, block: nat, k: nat)
    requires Fits(base, block) && Mul(k, block) < |base|
    ensures var sig, pos := SignatureOf(h, base, block), Mul(k, block);
            if pos + block <= |base| then FindAt(h, sig, base, pos).Some? else AllCopies(Tail(h, sig, base, pos))
  {
    var pos := Mul(k, block);
    OwnBlockIsFound(h, base, block, k);
    if pos + block <= |base| {
      assert Block(base, block, k) == base[pos..pos + block];
    } else {
      assert Block(base, block, k) == base[pos..];
    }
  }

  lemma {:induction false} MulNext(k: nat, block: nat)
    ensures Mul(k + 1, block) == Mul(k, block) + block
  {
  }

  lemma {:induction false} SelfGreedy(h: Hasher, base: Buffer, block: nat, k: nat)
    requires Fits(base, block) && Mul(k, block) <= |base|
    ensures AllCopies(Greedy(h, SignatureOf(h, base, block), base, Mul(k, block), Mul(k, block)))
    decreases |base| - Mul(k, block)
  {
    var pos := Mul(k, block);
    if pos < |base| {
      SelfStep(h, base, block, k);
      if pos + block <= |base| {
        MulNext(k, block);
        SelfGreedy(h, base, block, k + 1);
      }
    }
  }

  lemma {:induction false} CopiesHoldNoLiterals(ops: seq<Op>)
    requires AllCopies(ops)
    ensures LiteralBytes(ops) == 0
  {
    if ops != [] {
      CopiesHoldNoLiterals(ops[1..]);
    }
  }

  /** An unchanged buffer encodes to copies alone, for every block size, short last block included. */
  lemma {:induction false} SelfEncodingIsAllCopies(h: Hasher, base: Buffer, block: nat)
    requires Fits(base, block)
    ensures AllCopies(Encoded(h, base, block, base)) && LiteralBytes(Encoded(h, base, block, base)) == 0
  {
    assert Mul(0, block) == 0;
    SelfGreedy(h, base, block, 0);
    CopiesHoldNoLiterals(Encoded(h, base, block, base));
  }

  /** `encode` then `apply`, through the fast forms on both sides. */
  method EncodeAndApply(h: Hasher, base: Buffer, data: Buffer, block: nat) returns (r: Result<Buffer, ApplyError>)
    requires Fits(base, block)
    ensures r.Ok? && |r.value| == |data|
    ensures CollisionFree(h, base, block, data) ==> r == Ok(data)
  {
    var sig := ComputeSignature(h, base, block);
    var delta := EncodeWithSignature(h, sig, data);
    r := Apply(base, delta);
    AppliesToExactLength(h, base, block, data);
    if CollisionFree(h, base, block, data) {
      RoundTrip(h, base, block, data);
    }
  }
}
