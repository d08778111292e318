/**
 The hard-link phase call by call. Unlike a copy, a link unlinks its target before the rename, for a
 rename over another name of the same inode would do nothing; so between those two calls, or when the
 second fails, the target shows neither its old object nor the new one.
 */
module LinkPhase {
  import opened Trees
  import opened FilePhase

  /** One planned link: where it goes, the random name it is made under, and the path it repeats. */
  datatype Linking = Linking(target: Path, tmp: Path, first: Path)

  /** How far a link has come. `Kept` failed before its target was cleared, `Lost` afterwards. */
  datatype LinkStage = Waiting | Linked | Bare | Placed | Kept | Lost

  datatype LinkState = LinkState(tree: Tree, stages: seq<LinkStage>)

  /** Targets and first members are files of one source; temporary names are fresh. */
  ghost predicate LinksPlanned(before: Tree, links: seq<Linking>) {
    && (forall i :: 0 <= i < |links| ==>
          && |links[i].target| > 0 && |links[i].tmp| > 0 && links[i].tmp !in before
          && Parent(links[i].tmp) == Parent(links[i].target)
          && links[i].first in before && before[links[i].first].node.File?)
    && (forall i, j :: 0 <= i < |links| && 0 <= j < |links| ==>
          && links[i].tmp != links[j].target && !(links[i].target <= links[j].first)
          && (i != j ==> links[i].tmp != links[j].tmp && !(links[i].target <= links[j].target)))
  }

  // ---------- the calls of one link ----------

  /** `hard_link`: the first member gets another name. */
  ghost predicate NameIt(s: LinkState, u: LinkState, l: Linking, i: nat)
    requires i < |s.stages|
  {
    && s.stages[i] == Waiting && l.first in s.tree && l.tmp !in s.tree
    && u == LinkState(s.tree[l.tmp := s.tree[l.first]], s.stages[i := Linked])
  }

  /** Whatever is at the target goes: a file or link at once, a directory in one go or in pieces. */
  ghost predicate Unlink(s: LinkState, u: LinkState, l: Linking, i: nat)
    requires i < |s.stages|
  {
    && s.stages[i] == Linked
    && (|| u == LinkState(Clear(s.tree, l.target), s.stages[i := Bare])
        || (DirAt(s.tree, l.target) && u.stages == s.stages && PartCleared(s.tree, u.tree, l.target)))
  }

  ghost predicate Move(s: LinkState, u: LinkState, l: Linking, i: nat)
    requires i < |s.stages|
  {
    && s.stages[i] == Bare && l.tmp in s.tree
    && u == LinkState((s.tree - {l.tmp})[l.target := s.tree[l.tmp]], s.stages[i := Placed])
  }

  /** Any call may fail; the temporary is then cleaned up, or left behind. */
  ghost predicate GiveUp(s: LinkState, u: LinkState, l: Linking, i: nat)
    requires i < |s.stages|
  {
    && Active(s.stages[i])
    && u.stages == s.stages[i := if s.stages[i] == Bare then Lost else Kept]
    && (u.tree == s.tree || (s.stages[i] != Waiting && u.tree == s.tree - {l.tmp}))
  }

  predicate Active(stage: LinkStage) {
    stage == Waiting || stage == Linked || stage == Bare
  }

  ghost predicate LinkStepOf(l: Linking, s: LinkState, u: LinkState, i: nat)
    requires i < |s.stages|
  {
    NameIt(s, u, l, i) || Unlink(s, u, l, i) || Move(s, u, l, i) || GiveUp(s, u, l, i)
  }

  /** One call of the link whose turn it is, all before it having ended; directories may show another time after it. */
  ghost predicate LinkStep(links: seq<Linking>, s: LinkState, u: LinkState) {
    && |s.stages| == |links|
    && exists i, v :: 0 <= i < |links| && Turn(links, s, v, i) && LinkRestamped(v, u)
  }

  ghost predicate Turn(links: seq<Linking>, s: LinkState, v: LinkState, i: nat)
    requires i < |links| == |s.stages|
  {
    LinkStepOf(links[i], s, v, i) && forall j :: 0 <= j < i ==> !Active(s.stages[j])
  }

  ghost predicate LinkRestamped(v: LinkState, u: LinkState) {
    u.stages == v.stages && u.tree.Keys == v.tree.Keys && forall q :: q in v.tree ==> Alike(u.tree[q], v.tree[q])
  }

  // ---------- what every step keeps ----------

  ghost predicate SameAt(before: Tree, t: Tree, p: Path) {
    (p in before <==> p in t) && (p in before && p in t ==> Alike(t[p], before[p]))
  }

  /** The state of one link: its target by its stage, the first member untouched. */
  ghost predicate LinkOk(before: Tree, s: LinkState, l: Linking, i: nat)
    requires i < |s.stages|
  {
    && SameAt(before, s.tree, l.first) && l.first in before
    && (s.stages[i] == Linked || s.stages[i] == Bare ==> l.tmp in s.tree && s.tree[l.tmp] == before[l.first])
    && match s.stages[i]
       case Placed => l.target in s.tree && s.tree[l.target] == before[l.first]
       case Bare => l.target !in s.tree
       case Lost => l.target !in s.tree
       case _ => SameAt(before, s.tree, l.target)
  }

  ghost predicate LinkInv(before: Tree, links: seq<Linking>, s: LinkState) {
    && |s.stages| == |links|
    && forall i :: 0 <= i < |links| ==> LinkOk(before, s, links[i], i)
  }

  /** A step of one link changes nothing but its temporary, its target and what was below that. */
  lemma {:induction false} LinkFrame(l: Linking, s: LinkState, u: LinkState, i: nat, q: Path)
    requires i < |s.stages| && LinkStepOf(l, s, u, i) && q != l.tmp && !(l.target <= q)
    ensures SameAt(s.tree, u.tree, q)
    ensures |u.stages| == |s.stages| && forall j :: 0 <= j < |s.stages| && j != i ==> u.stages[j] == s.stages[j]
  {
  }

  lemma {:induction false} OwnLinkStep(before: Tree, l: Linking, s: LinkState, u: LinkState, i: nat)
    requires i < |s.stages| && LinkStepOf(l, s, u, i) && LinkOk(before, s, l, i) && |u.stages| == |s.stages|
    requires before[l.first].node.File?
    requires l.tmp != l.target && !(l.target <= l.tmp) && !(l.target <= l.first) && l.first != l.tmp
    ensures LinkOk(before, u, l, i)
  {
    assert l.target <= l.target;
  }

  /** No temporary is at or below any target. */
  lemma {:induction false} TmpNotBelow(before: Tree, links: seq<Linking>, i: nat, j: nat)
    requires LinksPlanned(before, links) && i < |links| && j < |links|
    ensures !(links[i].target <= links[j].tmp)
  {
    if links[i].target <= links[j].tmp {
      AboveSibling(links[i].target, links[j].tmp, links[j].target);
    }
  }

  lemma {:induction false} LinkRestampKeeps(before: Tree, v: LinkState, u: LinkState, l: Linking, i: nat)
    requires i < |v.stages| && LinkRestamped(v, u) && LinkOk(before, v, l, i) && before[l.first].node.File?
    ensures LinkOk(before, u, l, i)
  {
    assert l.target in v.tree ==> Alike(u.tree[l.target], v.tree[l.target]);
    assert l.first in v.tree ==> Alike(u.tree[l.first], v.tree[l.first]);
    assert l.tmp in v.tree ==> Alike(u.tree[l.tmp], v.tree[l.tmp]);
  }

  lemma {:induction false} LinkStepKeepsInv(before: Tree, links: seq<Linking>, s: LinkState, u: LinkState)
    requires LinksPlanned(before, links) && LinkInv(before, links, s) && LinkStep(links, s, u)
    ensures LinkInv(before, links, u)
  {
    var i, v :| 0 <= i < |links| && Turn(links, s, v, i) && LinkRestamped(v, u);
    LinkCallKeepsInv(before, links, s, v, i);
    forall j | 0 <= j < |links|
      ensures LinkOk(before, u, links[j], j)
    {
      LinkRestampKeeps(before, v, u, links[j], j);
    }
  }

  lemma {:induction false} LinkCallKeepsInv(before: Tree, links: seq<Linking>, s: LinkState, u: LinkState, i: nat)
    requires LinksPlanned(before, links) && LinkInv(before, links, s) && i < |links| && LinkStepOf(links[i], s, u, i)
    ensures LinkInv(before, links, u)
  {
    TmpNotBelow(before, links, i, i);
    LinkFrame(links[i], s, u, i, links[i].first);
    OwnLinkStep(before, links[i], s, u, i);
    forall j | 0 <= j < |links| && j != i
      ensures LinkOk(before, u, links[j], j)
    {
      TmpNotBelow(before, links, i, j);
      assert LinkOk(before, s, links[j], j);
      LinkFrame(links[i], s, u, i, links[j].tmp);
      LinkFrame(links[i], s, u, i, links[j].target);
      LinkFrame(links[i], s, u, i, links[j].first);
    }
  }

  /** A run of the phase, cut off anywhere. */
  ghost predicate IsLinkRun(before: Tree, links: seq<Linking>, run: seq<LinkState>) {
    && |run| > 0
    && run[0] == LinkState(before, seq(|links|, _ => Waiting))
    && forall k :: 0 <= k < |run| - 1 ==> LinkStep(links, run[k], run[k + 1])
  }

  lemma {:induction false} LinkRunKeepsInv(before: Tree, links: seq<Linking>, run: seq<LinkState>, k: nat)
    requires LinksPlanned(before, links) && IsLinkRun(before, links, run) && k < |run|
    ensures LinkInv(before, links, run[k])
  {
    if k > 0 {
      LinkRunKeepsInv(before, links, run, k - 1);
      assert LinkStep(links, run[k - 1], run[k - 1 + 1]);
      LinkStepKeepsInv(before, links, run[k - 1], run[k]);
    }
  }

  /**
   What the target of a link shows, at every moment of every run: nothing exactly while it waits to be
   renamed over, after that rename failed, or if it never was there and is not placed; otherwise its old
   object, directory times apart, or the first member's once it is placed.
   */
  lemma {:induction false} OldNewOrGone(before: Tree, links: seq<Linking>, run: seq<LinkState>, k: nat, i: nat)
    requires LinksPlanned(before, links) && IsLinkRun(before, links, run) && k < |run| && i < |links|
    ensures |run[k].stages| == |links|
    ensures var p, t, stage := links[i].target, run[k].tree, run[k].stages[i];
            && (p !in t <==> stage == Bare || stage == Lost || (p !in before && stage != Placed))
            && (p in t && stage != Placed ==> p in before && Alike(t[p], before[p]))
            && (stage == Placed ==> t[p] == before[links[i].first])
  {
    LinkRunKeepsInv(before, links, run, k);
    assert LinkOk(before, run[k], links[i], i);
  }

  // ---------- the window is real ----------

  /** The first `n` links have failed at once, the others wait. */
  function Forsaken(links: seq<Linking>, n: nat): seq<LinkStage> {
    seq(|links|, j => if j < n then Kept else Waiting)
  }

  lemma {:induction false} OneCall(links: seq<Linking>, run: seq<LinkState>, before: Tree, u: LinkState, i: nat)
    requires IsLinkRun(before, links, run) && i < |links| == |run[|run| - 1].stages|
    requires Turn(links, run[|run| - 1], u, i)
    ensures IsLinkRun(before, links, run + [u])
  {
    assert LinkRestamped(u, u);
    assert LinkStep(links, run[|run| - 1], u);
    var more := run + [u];
    forall k | 0 <= k < |more| - 1
      ensures LinkStep(links, more[k], more[k + 1])
    {
      assert k < |run| - 1 ==> LinkStep(links, run[k], run[k + 1]);
    }
  }

  /** Any number of links can fail before anything has been touched. */
  lemma {:induction false} ForsakenRun(before: Tree, links: seq<Linking>, n: nat) returns (run: seq<LinkState>)
    requires n <= |links|
    ensures IsLinkRun(before, links, run) && run[|run| - 1] == LinkState(before, Forsaken(links, n))
  {
    if n == 0 {
      run := [LinkState(before, seq(|links|, _ => Waiting))];
      assert Forsaken(links, 0) == seq(|links|, _ => Waiting);
    } else {
      run := ForsakenRun(before, links, n - 1);
      var u := LinkState(before, Forsaken(links, n));
      assert Forsaken(links, n) == Forsaken(links, n - 1)[n - 1 := Kept];
      assert GiveUp(run[|run| - 1], u, links[n - 1], n - 1);
      OneCall(links, run, before, u, n - 1);
      run := run + [u];
    }
  }

  /** Whatever else is planned, a link can be stopped with its target gone and the new name not there. */
  lemma {:induction false} TargetCanVanish(before: Tree, links: seq<Linking>, i: nat) returns (run: seq<LinkState>)
    requires LinksPlanned(before, links) && i < |links| && links[i].target in before
    ensures IsLinkRun(before, links, run) && links[i].target !in run[|run| - 1].tree
  {
    var l := links[i];
    run := ForsakenRun(before, links, i);
    var start := run[|run| - 1];
    var linked := LinkState(before[l.tmp := before[l.first]], start.stages[i := Linked]);
    assert NameIt(start, linked, l, i);
    OneCall(links, run, before, linked, i);
    run := run + [linked];
    var bare := LinkState(Clear(linked.tree, l.target), linked.stages[i := Bare]);
    assert Unlink(linked, bare, l, i);
    OneCall(links, run, before, bare, i);
    run := run + [bare];
  }

  /** The target shows its old object or its old absence, or the first member's object. */
  ghost predicate OldOrNewAt(before: Tree, t: Tree, l: Linking) {
    || SameAt(before, t, l.target)
    || (l.target in t && l.first in before && t[l.target] == before[l.first])
  }

  ghost predicate AlwaysOldOrNew(before: Tree, links: seq<Linking>, l: Linking) {
    forall run: seq<LinkState>, k: int :: IsLinkRun(before, links, run) && 0 <= k < |run| ==>
                                          OldOrNewAt(before, run[k].tree, l)
  }

  /** Old or new at every moment of every run is what a link keeps exactly if nothing was at its target. */
  lemma {:induction false} LinkIsOldOrNew(before: Tree, links: seq<Linking>, i: nat)
    requires LinksPlanned(before, links) && i < |links|
    ensures AlwaysOldOrNew(before, links, links[i]) <==> links[i].target !in before
  {
    if links[i].target in before {
      var run := TargetCanVanish(before, links, i);
      assert !OldOrNewAt(before, run[|run| - 1].tree, links[i]);
    } else {
      forall run: seq<LinkState>, k: int | IsLinkRun(before, links, run) && 0 <= k < |run|
        ensures OldOrNewAt(before, run[k].tree, links[i])
      {
        OldNewOrGone(before, links, run, k, i);
      }
    }
  }
}
