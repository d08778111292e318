/** One local run, end to end: plan from two walks, apply, and the guarantees that follow. */
module Sync {
  import opened Bytes
  import opened Trees
  import opened Steps
  import opened Jobs
  import opened Plan
  import opened Report
  import opened Destination
  import opened Apply
  import opened Partition
  import opened Tally
  import opened Phases
  import opened Mirror

  datatype Outcome = Unplanned(error: PlanError) | Cancelled | Applied

  /** A plan made against the visible destination is a plan for the whole of it. */
  lemma {:induction false} PlanIgnoresHidden(h: Hasher, src: Tree, dst: Tree, opts: PlanOptions, es: seq<Entry>,
                                             actions: seq<PlannedAction>)
    requires NothingHidden(src) && IsWalk(src, es) && PlansActions(h, src, Visible(dst), opts, es, actions)
    ensures PlansActions(h, src, dst, opts, es, actions)
  {
    forall i | 0 <= i < |es|
      ensures ActionFor(h, src, dst, opts, es, i) == ActionFor(h, src, Visible(dst), opts, es, i)
    {
      assert es[i].rel in src;
      if opts.hardLinks && IsDuplicate(es, i) {
        assert es[FirstNamed(es, es[i].ino, i)].rel in src;
      }
    }
  }

  lemma {:induction false} VisibleIsClosed(t: Tree)
    requires Closed(t)
    ensures Closed(Visible(t)) && NothingHidden(Visible(t)) && (Coherent(t) ==> Coherent(Visible(t)))
  {
    forall p | p in Visible(t)
      ensures Ready(Visible(t), p)
    {
      assert Ready(t, p);
      if |p| > 1 {
        HiddenBelow(Parent(p), p);
      }
    }
  }

  predicate Deleting(opts: ApplyOptions) {
    opts.delete && opts.yes
  }

  /** The paths a plan deletes, if that has been asked for and confirmed. */
  function Sweep(plan: SyncPlan, opts: ApplyOptions): set<Path> {
    if Deleting(opts) then set del | del in plan.deletions :: del.rel else {}
  }

  /** The run a plan describes. */
  function RunFor(src: Tree, dst: Tree, es: seq<Entry>, plan: SyncPlan, opts: ApplyOptions): Run
    requires |es| == |plan.actions|
  {
    Run(src, dst, es, plan.actions, opts.hardLinks, JobsOf(es, plan.actions, opts.hardLinks, |es|), Sweep(plan, opts))
  }

  lemma {:induction false} RunIsValid(h: Hasher, src: Tree, dst: Tree, checksum: bool, es: seq<Entry>, plan: SyncPlan,
                                      opts: ApplyOptions)
    requires Closed(src) && NothingHidden(src) && Closed(dst)
    requires IsWalk(src, es) && Careful(h, src, dst, checksum, es, plan.actions)
    ensures RunFor(src, dst, es, plan, opts).Valid()
    ensures KeepsMatch(h, src, dst, checksum, RunFor(src, dst, es, plan, opts).jobs)
  {
    PlanJobsFit(h, src, dst, checksum, es, plan.actions, opts.hardLinks);
    assert forall i :: 0 <= i < |es| ==> CarefulAt(h, src, dst, checksum, es[i], plan.actions[i]);
    KeptMeansSkipped(h, src, dst, checksum, es, plan.actions, opts.hardLinks);
  }

  lemma {:induction false} KeptMeansSkipped(h: Hasher, src: Tree, dst: Tree, checksum: bool, es: seq<Entry>,
                                            actions: seq<PlannedAction>, hardLinks: bool)
    requires IsWalk(src, es) && Careful(h, src, dst, checksum, es, actions)
    ensures KeepsMatch(h, src, dst, checksum, JobsOf(es, actions, hardLinks, |es|))
  {
    var jobs := JobsOf(es, actions, hardLinks, |es|);
    forall p | p in jobs && jobs[p].Keep? && p in src
      ensures Classify(h, src, dst, p, checksum) == Skip
    {
      assert Lists(es, p);
      var i :| 0 <= i < |es| && es[i].rel == p;
      KeptIsSkipped(h, src, dst, checksum, es, actions, hardLinks, i);
    }
  }

  lemma {:induction false} KeptIsSkipped(h: Hasher, src: Tree, dst: Tree, checksum: bool, es: seq<Entry>,
                                         actions: seq<PlannedAction>, hardLinks: bool, i: nat)
    requires IsWalk(src, es) && Careful(h, src, dst, checksum, es, actions) && i < |es|
    requires var jobs := JobsOf(es, actions, hardLinks, |es|); es[i].rel in jobs && jobs[es[i].rel] == Keep
    ensures Classify(h, src, dst, es[i].rel, checksum) == Skip
  {
    JobsOfEntry(es, actions, hardLinks, |es|, i);
    assert JobAt(es, actions, hardLinks, i) == Keep;
    SkipMeansSameKind(h, src, dst, checksum, es, actions, i);
  }

  lemma {:induction false} DeletionsAreDeletable(src: Tree, dst: Tree, run: Run, dels: seq<Deletion>)
    requires Closed(dst) && run.src == src && run.dst == dst && PlansDeletions(src, Visible(dst), dels)
    ensures (forall del :: del in dels ==> del.rel in run.sweep) ==> forall del :: del in dels ==> Deletable(run, del)
    ensures forall p :: p in dst && !Hidden(p) && p !in src ==> exists k :: 0 <= k < |dels| && dels[k].rel == p
  {
    forall del | del in dels
      ensures del.rel in run.sweep ==> Deletable(run, del)
    {
      assert Ready(dst, del.rel);
    }
    forall p | p in dst && !Hidden(p) && p !in src
      ensures exists k :: 0 <= k < |dels| && dels[k].rel == p
    {
      assert Deletion(p, DirAt(Visible(dst), p)) in dels;
    }
  }

  // ---------- what a run without errors guarantees ----------

  /** Every entry was served, whatever the others came to. */
  ghost predicate AllServed(run: Run, t: Tree) {
    |run.es| == |run.actions| && forall i :: 0 <= i < |run.es| ==> run.es[i].rel in run.src && Served(run, t, i)
  }

  /** Every source path is there, of its kind. */
  ghost predicate NothingMissing(src: Tree, t: Tree) {
    forall p :: p in src ==> p in t && SameKind(t[p].node, src[p].node)
  }

  /** Of the destination's own metadata directory nothing changed, its directories' times apart. */
  ghost predicate MetadataStays(dst: Tree, t: Tree) {
    forall p :: p in dst && Hidden(p) ==> p in t && Alike(t[p], dst[p])
  }

  /** What holds for every plan that leaves nothing alone which the classifier would not. */
  ghost predicate Mirrored(h: Hasher, run: Run, checksum: bool, deleting: bool, t: Tree)
    requires |run.es| == |run.actions|
  {
    && AllServed(run, t) && NothingMissing(run.src, t) && SameTargets(run.src, t) && MetadataStays(run.dst, t)
    && (deleting ==> SamePathsAndKinds(run.src, t))
    && FilesArrive(h, run.src, run.dst, checksum, run.hardLinks, t)
    && (SkipsAreEqual(h, run.src, run.dst, checksum) || (checksum && NoCollisions(h, run.src, run.dst)) ==>
          SameContents(run.src, t))
    && (run.hardLinks ==> (SameTopology(run.src, t) <==> GroupsTogether(run)))
  }

  /** A live-walk plan never splits a hard-link group. */
  ghost predicate Guarantees(h: Hasher, run: Run, checksum: bool, deleting: bool, t: Tree)
    requires |run.es| == |run.actions|
  {
    && Mirrored(h, run, checksum, deleting, t)
    && (run.hardLinks && Coherent(run.dst) ==> SameTopology(run.src, t))
  }

  lemma {:induction false} FinishedMirrors(h: Hasher, checksum: bool, deleting: bool, run: Run, dels: seq<Deletion>,
                                           t: Tree, written: map<Path, Obj>, timed: bool)
    requires run.Valid() && Coherent(run.src) && KeepsMatch(h, run.src, run.dst, checksum, run.jobs)
    requires deleting ==> PlansDeletions(run.src, Visible(run.dst), dels)
    requires deleting ==> forall k :: 0 <= k < |dels| ==> dels[k].rel !in t
    requires Settled(run, t, written, timed)
    ensures Mirrored(h, run, checksum, deleting, t)
  {
    forall i | 0 <= i < |run.es|
      ensures run.es[i].rel in run.src && Served(run, t, i)
    {
      EntryServed(run, t, written, timed, i);
    }
    forall p | p in run.src
      ensures p in t && SameKind(t[p].node, run.src[p].node)
    {
      FinalObject(run, t, written, timed, p);
    }
    forall p | p in run.dst && Hidden(p)
      ensures p in t && Alike(t[p], run.dst[p])
    {
      assert Accounted(true, run.src, run.dst, t, written, p);
    }
    if deleting {
      DeletionsAreDeletable(run.src, run.dst, run, dels);
      MirrorsPaths(run, t, written, timed, dels);
    }
    MirrorsTargets(h, checksum, run, t, written, timed);
    MirrorsContents(h, checksum, run, t, written, timed);
    if NoCollisions(h, run.src, run.dst) {
      ChecksumEarnsTrust(h, run.src, run.dst);
    }
    if run.hardLinks {
      HardLinkTopology(run, t, written, timed);
    }
  }

  lemma {:induction false} FinishedGuarantees(h: Hasher, popts: PlanOptions, deleting: bool, run: Run,
                                              dels: seq<Deletion>, t: Tree, written: map<Path, Obj>, timed: bool)
    requires run.Valid() && Coherent(run.src) && run.hardLinks == popts.hardLinks
    requires PlansActions(h, run.src, run.dst, popts, run.es, run.actions)
    requires KeepsMatch(h, run.src, run.dst, popts.checksum, run.jobs)
    requires deleting ==> PlansDeletions(run.src, Visible(run.dst), dels)
    requires deleting ==> forall k :: 0 <= k < |dels| ==> dels[k].rel !in t
    requires Settled(run, t, written, timed)
    ensures Guarantees(h, run, popts.checksum, deleting, t)
  {
    FinishedMirrors(h, popts.checksum, deleting, run, dels, t, written, timed);
    if run.hardLinks && Coherent(run.dst) {
      WalkPlanKeepsGroups(h, popts, run);
    }
  }

  // ---------- convergence ----------

  /** Planning entry `i` again leaves it alone. */
  ghost predicate Rests(h: Hasher, src: Tree, t: Tree, popts: PlanOptions, es: seq<Entry>, i: nat)
    requires i < |es|
  {
    ActionFor(h, src, t, popts, es, i) == Skip
  }

  /**
   Exactly the entries at rest are left alone next time, save directories that no longer show the
   source's second; and only directories that lost an entry can be such.
   */
  ghost predicate Settles(h: Hasher, popts: PlanOptions, run: Run, dels: seq<Deletion>, t: Tree) {
    forall i :: 0 <= i < |run.es| && run.es[i].rel in run.src ==>
      var p := run.es[i].rel;
      && (Rests(h, run.src, t, popts, run.es, i) <==> AtRest(run, p) && ClockAgrees(run.src, t, p))
      && (!LosesEntry(dels, p) ==> ClockAgrees(run.src, t, p))
  }

  /** No source mode carries a bit that `set_mode` strips. */
  ghost predicate AllPlain(src: Tree) {
    forall p :: p in src ==> Plain(src[p].node)
  }

  /** A plain source with nothing deleted leaves nothing to do. */
  lemma {:induction false} NothingLeft(h: Hasher, popts: PlanOptions, run: Run, t: Tree)
    requires Settles(h, popts, run, [], t) && AllPlain(run.src) && IsWalk(run.src, run.es)
    ensures forall i :: 0 <= i < |run.es| ==> Rests(h, run.src, t, popts, run.es, i)
  {
    forall i | 0 <= i < |run.es|
      ensures Rests(h, run.src, t, popts, run.es, i)
    {
      assert AtRest(run, run.es[i].rel);
    }
  }

  lemma {:induction false} AllConverge(h: Hasher, popts: PlanOptions, run: Run, t: Tree, written: map<Path, Obj>,
                                       dels: seq<Deletion>)
    requires run.Valid() && run.hardLinks == popts.hardLinks && Coherent(run.src)
    requires popts.hardLinks ==> GroupsTogether(run)
    requires Settled(run, t, written, true) && TimesRestored(run, t, dels)
    requires KeepsMatch(h, run.src, run.dst, popts.checksum, run.jobs)
    ensures Settles(h, popts, run, dels, t)
  {
    forall i | 0 <= i < |run.es| {
      Converges(h, popts, run, t, written, dels, i);
    }
  }

  // ---------- conservation ----------

  /** Every entry and every confirmed deletion ended in one count; `missed` errors are failed deletions. */
  predicate Conserved(s: Stats, missed: nat, entries: nat, dels: nat) {
    && missed <= s.errors
    && s.copied + s.updated + s.skipped + (s.errors - missed) == entries
    && s.deleted + missed == dels
  }

  // ---------- applying ----------

  /** A destination about to be synchronised: nothing counted, written or failed yet. */
  ghost predicate Untouched(d: Destination)
    reads d
  {
    && Closed(d.tree) && d.stats.Handled() == 0 && d.stats.deleted == 0 && d.stats.bytes == 0
    && d.written == map[] && d.lost == {} && !d.escaped && !d.silent && !d.faulted && !d.cancelled
  }

  /** Exactly these source paths are not there in the end; the others are, each of its kind. */
  ghost predicate Lacks(src: Tree, t: Tree, lost: set<Path>) {
    forall p :: p in src ==> if p in lost then p !in t else p in t && SameKind(t[p].node, src[p].node)
  }

  /** Nothing was reported, and no link is made under the name of a source path that is not placed after it. */
  ghost predicate Clean(run: Run, d: Destination)
    requires |run.es| == |run.actions|
    reads d`stats
  {
    d.stats.errors == 0 && Lost(run, d.suffix) == {}
  }

  /**
   What every applied run keeps, whatever failed: the counts; what cannot be unlinked, whose planned
   deletions are missed; a closed tree; identities, unless a call went astray, which takes a failed
   entry; and without errors exactly the source paths whose names no link's temporary took.
   */
  ghost predicate Accountable(d: Destination, run: Run, plan: SyncPlan, opts: ApplyOptions, missed: nat)
    requires |run.es| == |run.actions|
    reads d
  {
    && Conserved(d.stats, missed, |plan.actions|, PlannedDeletions(plan, opts))
    && (Deleting(opts) && NamesPinned(d.pinned, run.dst, plan.deletions) ==> missed > 0)
    && (d.stats.errors == missed ==> !d.escaped)
    && (d.stats.errors == 0 ==> Lacks(run.src, d.tree, Lost(run, d.suffix)) && Counted(run, d.stats))
    && Closed(d.tree) && (!d.escaped && Coherent(run.dst) ==> Coherent(d.tree))
  }

  /** What a finished run has lost is gone, and all else is there. */
  lemma {:induction false} FinishedLacks(run: Run, t: Tree, written: map<Path, Obj>, timed: bool, lost: set<Path>)
    requires run.Fits() && OnTrack(run, t, written, timed, lost) && AllWritten(run, written)
    ensures Lacks(run.src, t, lost)
  {
    forall p | p in run.src && p !in lost
      ensures p in t && SameKind(t[p].node, run.src[p].node)
    {
      assert JobFits(run.src, run.dst, run.jobs, p);
      assert Accounted(true, run.src, run.dst, t, written, p);
    }
  }

  /** So nothing of the source is missing exactly if nothing was lost. */
  lemma {:induction false} LacksNothing(src: Tree, t: Tree, lost: set<Path>)
    requires Lacks(src, t, lost) && lost <= src.Keys
    ensures NothingMissing(src, t) <==> lost == {}
  {
    if q :| q in lost {
      assert q in src && q !in t;
    }
  }

  /** `apply_real` on a careful plan, wherever it came from. */
  method ApplyCareful(h: Hasher, d: Destination, src: Tree, es: seq<Entry>, plan: SyncPlan, checksum: bool,
                      opts: ApplyOptions)
    returns (ok: bool, ghost missed: nat)
    requires Closed(src) && NothingHidden(src) && Coherent(src) && Untouched(d)
    requires IsWalk(src, es) && Careful(h, src, d.tree, checksum, es, plan.actions)
    requires if opts.delete then PlansDeletions(src, Visible(d.tree), plan.deletions) else plan.deletions == []
    modifies d
    ensures (!ok ==> d.cancelled && d.stoppable) && (d.faulted ==> d.CanFail())
    ensures var run := RunFor(src, old(d.tree), es, plan, opts);
            && (ok ==> Accountable(d, run, plan, opts, missed))
            && (!d.escaped ==> LeavesAlone(run, d.suffix, d.tree))
            && (!d.faulted ==> !d.silent && (Unblocked(run, d.suffix) ==> d.stats.errors == 0))
            && run.Valid() && KeepsMatch(h, src, old(d.tree), checksum, run.jobs)
            && (ok && Clean(run, d) ==>
                  Finished(run, d, plan.deletions, Deleting(opts)) &&
                  Mirrored(h, run, checksum, Deleting(opts), d.tree))
  {
    var run := RunFor(src, d.tree, es, plan, opts);
    RunIsValid(h, src, d.tree, checksum, es, plan, opts);
    StartsOnTrack(run, !d.silent);
    if opts.delete {
      DeletionsAreDeletable(src, d.tree, run, plan.deletions);
    }
    ok, missed := ApplyReal(d, plan, run, opts);
    if ok && d.stats.errors == 0 {
      FinishedLacks(run, d.tree, d.written, !d.silent, d.lost);
    }
    if ok && Clean(run, d) {
      FinishedMirrors(h, checksum, Deleting(opts), run, plan.deletions, d.tree, d.written, !d.silent);
    }
  }

  /** `apply_plan` on a plan made for this source and destination. */
  method ApplyPlan(h: Hasher, d: Destination, src: Tree, es: seq<Entry>, plan: SyncPlan, popts: PlanOptions,
                   opts: ApplyOptions)
    returns (ok: bool, ghost missed: nat)
    requires Closed(src) && NothingHidden(src) && Coherent(src) && Untouched(d)
    requires IsPlan(h, src, Visible(d.tree), popts, es, plan)
    requires popts.delete == opts.delete && popts.hardLinks == opts.hardLinks
    modifies d
    ensures (!ok ==> d.cancelled && d.stoppable) && (d.faulted ==> d.CanFail())
    ensures var run := RunFor(src, old(d.tree), es, plan, opts);
            && (ok ==> Accountable(d, run, plan, opts, missed))
            && (!d.escaped ==> LeavesAlone(run, d.suffix, d.tree))
            && (!d.faulted ==> !d.silent && (Unblocked(run, d.suffix) ==> d.stats.errors == 0))
            && (ok && Clean(run, d) ==> Guarantees(h, run, popts.checksum, Deleting(opts), d.tree))
            && (ok && Clean(run, d) && !d.silent && Coherent(old(d.tree)) ==>
                  Settles(h, popts, run, if Deleting(opts) then plan.deletions else [], d.tree))
  {
    ghost var dst := d.tree;
    ghost var run := RunFor(src, dst, es, plan, opts);
    PlanIgnoresHidden(h, src, dst, popts, es, plan.actions);
    PlanIsCareful(h, src, dst, popts, es, plan.actions);
    ok, missed := ApplyCareful(h, d, src, es, plan, popts.checksum, opts);
    if ok && Clean(run, d) {
      FinishedGuarantees(h, popts, Deleting(opts), run, plan.deletions, d.tree, d.written, !d.silent);
      if !d.silent && Coherent(dst) {
        if popts.hardLinks {
          WalkPlanKeepsGroups(h, popts, run);
        }
        AllConverge(h, popts, run, d.tree, d.written, if Deleting(opts) then plan.deletions else []);
      }
    }
  }

  /**
   One local run from the outcomes of two walks. A failed or cancelled walk, or an empty source when
   deletions are asked for, ends it before anything is touched; otherwise every planned entry, and
   every confirmed deletion, ends in exactly one count, a run in which no system call failed reports
   no error, and a run without errors keeps its guarantees.
   */
  method SyncTree(h: Hasher, d: Destination, src: Tree, srcWalk: Result<seq<Entry>, PlanError>,
                  dstWalk: Result<seq<Entry>, PlanError>, checksum: bool, opts: ApplyOptions)
    returns (r: Outcome, ghost plan: SyncPlan, ghost missed: nat)
    requires Closed(src) && Coherent(src) && Untouched(d)
    requires (srcWalk.Ok? ==> IsWalk(src, srcWalk.value)) && (dstWalk.Ok? ==> IsWalk(d.tree, dstWalk.value))
    modifies d
    ensures srcWalk.Err? ==> r == Unplanned(srcWalk.error)
    ensures srcWalk.Ok? && opts.delete && Visible(src) == map[] ==> r == Unplanned(EmptySource)
    ensures srcWalk.Ok? && !(opts.delete && Visible(src) == map[]) ==>
              if dstWalk.Err? then r == Unplanned(dstWalk.error) else !r.Unplanned?
    ensures r.Unplanned? ==> d.tree == old(d.tree) && d.stats == old(d.stats)
    ensures opts.delete && Visible(src) == map[] ==> d.tree == old(d.tree)
    ensures (r.Cancelled? ==> d.cancelled && d.stoppable) && (d.faulted ==> d.CanFail())
    ensures r.Applied? && PlannedDeletions(plan, opts) == 0 ==> d.stats.Handled() == |plan.actions|
    ensures r.Applied? && Deleting(opts) && NamesPinned(d.pinned, old(d.tree), plan.deletions) ==>
              d.stats.Handled() > |plan.actions|
    ensures var popts := PlanOptions(checksum, opts.delete, opts.hardLinks);
            !r.Unplanned? ==>
              && srcWalk.Ok?
              && var es := Retain(srcWalk.value);
              && IsPlan(h, Visible(src), Visible(old(d.tree)), popts, es, plan)
              && var run := RunFor(Visible(src), old(d.tree), es, plan, opts);
                 && (r.Applied? ==> Accountable(d, run, plan, opts, missed))
                 && (!d.escaped ==> LeavesAlone(run, d.suffix, d.tree))
                 && (!d.faulted ==> !d.silent && (Unblocked(run, d.suffix) ==> d.stats.errors == 0))
                 && (r.Applied? && Clean(run, d) ==> Guarantees(h, run, checksum, Deleting(opts), d.tree))
                 && (r.Applied? && Clean(run, d) && opts.delete ==> exists p :: p in d.tree && !Hidden(p))
                 && (r.Applied? && Clean(run, d) && !d.silent && Coherent(old(d.tree)) ==>
                       Settles(h, popts, run, if Deleting(opts) then plan.deletions else [], d.tree))
  {
    var popts := PlanOptions(checksum, opts.delete, opts.hardLinks);
    VisibleIsClosed(src);
    var built, es := BuildPlan(h, src, d.tree, srcWalk, dstWalk, popts);
    if built.Err? {
      plan, missed := SyncPlan([], []), 0;
      return Unplanned(built.error), plan, missed;
    }
    plan := built.value;
    var ok;
    ok, missed := ApplyPlan(h, d, Visible(src), es, built.value, popts, opts);
    r := if ok then Applied else Cancelled;
    if opts.delete && NothingMissing(Visible(src), d.tree) {
      SomethingIsLeft(Visible(src), d.tree);
    }
  }

  /** What is not empty does not mirror to nothing. */
  lemma {:induction false} SomethingIsLeft(src: Tree, t: Tree)
    requires NothingMissing(src, t) && src != map[] && NothingHidden(src)
    ensures exists p :: p in t && !Hidden(p)
  {
    assert src.Keys != {};
    var p :| p in src;
    assert p in t && !Hidden(p);
  }

  /** Without confirmed deletions, whatever else the destination had it keeps. */
  lemma {:induction false} StraysStay(src: Tree, dst: Tree, es: seq<Entry>, plan: SyncPlan, opts: ApplyOptions,
                                      suffix: string, t: Tree, p: Path)
    requires |es| == |plan.actions| && LeavesAlone(RunFor(src, dst, es, plan, opts), suffix, t)
    requires p in dst && p !in src && !(opts.delete && opts.yes)
    requires forall k :: 0 < k < |p| && p[..k] in src ==> src[p[..k]].node.Dir?
    requires var jobs := JobsOf(es, plan.actions, opts.hardLinks, |es|);
             forall q :: q in jobs && |q| > 0 && jobs[q].Point? ==> TmpOf(q, suffix) != p
    ensures p in t && Alike(t[p], dst[p])
  {
    assert StaysAt(RunFor(src, dst, es, plan, opts), suffix, t, p);
  }

  /** What is to be left alone stays as it is, whatever fails. */
  lemma {:induction false} SkippedStay(run: Run, suffix: string, t: Tree, p: Path)
    requires run.Valid() && LeavesAlone(run, suffix, t) && forall q :: q in run.sweep ==> |q| > 0 && q !in run.src
    requires p in run.src && run.jobs[p].Keep? && !Borrowed(run, suffix, p)
    ensures p in run.dst && p in t && Alike(t[p], run.dst[p])
  {
    assert JobFits(run.src, run.dst, run.jobs, p);
    assert Ready(run.src, p);
    if Displaced(run.src, p) {
      var k :| 0 < k < |p| && p[..k] in run.src && !run.src[p[..k]].node.Dir?;
      AncestorIsDir(run.src, p[..k], p);
    }
    if Swept(run, p) {
      var q :| q in run.sweep && q <= p;
      assert |q| == |p| ==> q == p;
      AncestorIsDir(run.src, q, p);
    }
    assert StaysAt(run, suffix, t, p);
  }

  // ---------- runs after one another ----------

  /**
   A stray path that cannot be unlinked makes every run that comes to its end count more outcomes than
   there are entries.
   */
  method PinnedStrayIsCounted(h: Hasher, d: Destination, src: Tree, srcWalk: seq<Entry>, dstWalk: seq<Entry>,
                              checksum: bool, opts: ApplyOptions, ghost stray: Path)
    returns (r: Outcome)
    requires Closed(src) && Coherent(src) && Untouched(d) && IsWalk(src, srcWalk) && IsWalk(d.tree, dstWalk)
    requires Deleting(opts) && stray in d.pinned && stray in Visible(d.tree) && stray !in Visible(src)
    modifies d
    ensures r.Applied? ==> d.stats.Handled() > |Retain(srcWalk)|
  {
    ghost var dst, plan, missed := d.tree, SyncPlan([], []), 0;
    r, plan, missed := SyncTree(h, d, src, Ok(srcWalk), Ok(dstWalk), checksum, opts);
    if r.Applied? {
      assert Deletion(stray, DirAt(Visible(dst), stray)) in plan.deletions;
    }
  }

  /** One kept file and one stray beside it: two outcomes for the one entry. */
  method FailedDeletionIsCounted(h: Hasher, o: Obj) returns (r: Outcome, counted: nat)
    requires o.node.File?
    ensures r.Applied? ==> counted > 1
  {
    var p, q: Path := ["a"], ["b"];
    var src, dst: Tree := map[p := o], map[p := o, q := o];
    var srcWalk, dstWalk := [EntryOf(p, o)], [EntryOf(p, o), EntryOf(q, o)];
    StrayCase(o, p, q, src, dst, srcWalk, dstWalk);
    var d := new Destination(dst, {q}, "1");
    r := PinnedStrayIsCounted(h, d, src, srcWalk, dstWalk, false, ApplyOptions(true, true, false, 1), q);
    counted := d.stats.Handled();
  }

  lemma {:induction false} StrayCase(o: Obj, p: Path, q: Path, src: Tree, dst: Tree, srcWalk: seq<Entry>,
                                     dstWalk: seq<Entry>)
    requires o.node.File? && p == ["a"] && q == ["b"] && src == map[p := o] && dst == map[p := o, q := o]
    requires srcWalk == [EntryOf(p, o)] && dstWalk == [EntryOf(p, o), EntryOf(q, o)]
    ensures Closed(src) && Coherent(src) && Closed(dst) && IsWalk(src, srcWalk) && IsWalk(dst, dstWalk)
    ensures q in Visible(dst) && q !in Visible(src) && |Retain(srcWalk)| == 1
  {
    assert p[0] == "a" && q[0] == "b" && "a"[0] != "b"[0] && |METADATA_DIR| > 1;
    assert srcWalk[0].rel == p && dstWalk[0].rel == p && dstWalk[1].rel == q;
    assert Retain(srcWalk[1..]) == [];
  }

  /** A link new to the destination is placed. */
  lemma {:induction false} NewLinkIsPlaced(h: Hasher, run: Run, opts: PlanOptions, p: Path)
    requires run.Valid() && PlansActions(h, run.src, Visible(run.dst), opts, run.es, run.actions)
    requires p in run.src && run.src[p].node.Symlink? && p !in run.dst
    ensures p in run.jobs && run.jobs[p] == Point
  {
    assert Lists(run.es, p);
    var i :| 0 <= i < |run.es| && run.es[i].rel == p;
    assert run.es[i] == EntryOf(p, run.src[p]);
    assert run.actions[i] == PlannedAction(run.es[i], ActionFor(h, run.src, Visible(run.dst), opts, run.es, i));
    JobsOfEntry(run.es, run.actions, run.hardLinks, |run.es|, i);
  }

  /** A placed link takes the name of a source path that is no link. */
  lemma {:induction false} FileIsTaken(run: Run, suffix: string, p: Path)
    requires run.Valid() && p in run.src && |p| > 0 && p in run.jobs && run.jobs[p] == Point
    requires TmpOf(p, suffix) in run.src && !run.src[TmpOf(p, suffix)].node.Symlink?
    ensures TmpOf(p, suffix) in Lost(run, suffix)
  {
    var q := TmpOf(p, suffix);
    assert Lists(run.es, p);
    var i :| 0 <= i < |run.es| && run.es[i].rel == p;
    JobsOfEntry(run.es, run.actions, run.hardLinks, |run.es|, i);
    forall j | i < j < |run.es| && PlacesLink(run, j)
      ensures run.es[j].rel != q
    {
      assert run.es[j] == EntryOf(run.es[j].rel, run.src[run.es[j].rel]);
    }
    assert Takes(run, suffix, |run.es|, i, q);
    LostExactly(run, suffix, q);
  }

  /** No directory on either side has the name of a source link's temporary. */
  ghost predicate NoDirInTheWay(src: Tree, dst: Tree, suffix: string) {
    forall p :: p in src && |p| > 0 && src[p].node.Symlink? ==>
      !DirAt(src, TmpOf(p, suffix)) && !DirAt(dst, TmpOf(p, suffix))
  }

  lemma {:induction false} NothingBlocks(run: Run, suffix: string)
    requires run.Fits() && NoDirInTheWay(run.src, run.dst, suffix)
    ensures Unblocked(run, suffix)
  {
    forall p | p in run.src && p in run.jobs && |p| > 0 && run.jobs[p].Point?
      ensures !DirAt(run.src, TmpOf(p, suffix)) && !DirAt(run.dst, TmpOf(p, suffix))
    {
      assert JobFits(run.src, run.dst, run.jobs, p);
    }
  }

  /**
   A new link beside a source file of its temporary's name costs that file. A run in which no call
   failed reports no error all the same, and no run without errors has the file.
   */
  method LinkTakesFile(h: Hasher, d: Destination, src: Tree, srcWalk: seq<Entry>, dstWalk: seq<Entry>, checksum: bool,
                       opts: ApplyOptions, ghost p: Path)
    returns (r: Outcome)
    requires Closed(src) && Coherent(src) && Untouched(d) && IsWalk(src, srcWalk) && IsWalk(d.tree, dstWalk)
    requires p in Visible(src) && src[p].node.Symlink? && p !in d.tree && |p| > 0
    requires TmpOf(p, d.suffix) in Visible(src) && src[TmpOf(p, d.suffix)].node.File?
    modifies d
    ensures r.Applied? && d.stats.errors == 0 ==> TmpOf(p, d.suffix) !in d.tree && !d.escaped
    ensures r.Applied? && !d.faulted && NoDirInTheWay(Visible(src), old(d.tree), d.suffix) ==> d.stats.errors == 0
  {
    ghost var dst, plan, missed := d.tree, SyncPlan([], []), 0;
    r, plan, missed := SyncTree(h, d, src, Ok(srcWalk), Ok(dstWalk), checksum, opts);
    if r.Applied? {
      ghost var popts := PlanOptions(checksum, opts.delete, opts.hardLinks);
      ghost var run := RunFor(Visible(src), dst, Retain(srcWalk), plan, opts);
      VisibleIsClosed(src);
      PlanIgnoresHidden(h, Visible(src), dst, popts, run.es, run.actions);
      PlanIsCareful(h, Visible(src), dst, popts, run.es, run.actions);
      RunIsValid(h, Visible(src), dst, checksum, run.es, plan, opts);
      NewLinkIsPlaced(h, run, popts, p);
      FileIsTaken(run, d.suffix, p);
      if NoDirInTheWay(run.src, run.dst, d.suffix) {
        NothingBlocks(run, d.suffix);
      }
    }
  }

  /**
   Once a plain source has been mirrored, a second run, whatever happens to it short of an error,
   leaves every source path what it was, directory times apart.
   */
  lemma {:induction false} SecondRunChangesNothing(h: Hasher, popts: PlanOptions, first: Run, second: Run, t: Tree)
    requires first.Valid() && Settles(h, popts, first, [], second.dst) && AllPlain(first.src)
    requires second.src == first.src && second.es == first.es
    requires PlansActions(h, second.src, second.dst, popts, second.es, second.actions)
    requires AllServed(second, t)
    ensures forall p :: p in second.src ==> p in second.dst && p in t && Alike(t[p], second.dst[p])
  {
    NothingLeft(h, popts, first, second.dst);
    forall p | p in second.src
      ensures p in second.dst && p in t && Alike(t[p], second.dst[p])
    {
      assert Lists(second.es, p);
      var i :| 0 <= i < |second.es| && second.es[i].rel == p;
      assert Rests(h, second.src, second.dst, popts, second.es, i) && Served(second, t, i);
    }
  }
}
