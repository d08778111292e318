/**
 Runs planned from the manifest: after any history of recorded runs the cached plan never leaves alone
 what a live walk would not, and applying it mirrors the source as a walked plan does.
 */
module Cached {
  import opened Bytes
  import opened Trees
  import opened Plan
  import opened Journal
  import opened Index
  import opened Store
  import opened Persist
  import opened Destination
  import opened Apply
  import opened Partition
  import opened Mirror
  import opened Sync

  /** What the loaded records must be worth for a plan that sees `seen` to rely on them. */
  ghost predicate Reliable(h: Hasher, history: seq<Sight>, m: Entries, seen: Sight, checksum: bool) {
    Sourced(h, history, m) && (checksum ==> ContentFollowsStat(history, seen))
  }

  /** Records of past destinations make a plan bolder than the live walk exactly where a link is on the way. */
  lemma {:induction false} HistoryIsNeverBolder(h: Hasher, history: seq<Sight>, m: Entries, src: Tree, dst: Tree,
                                                seen: Sight, es: seq<Entry>, opts: PlanOptions, i: nat)
    requires IsWalk(src, es) && i < |es| && Reliable(h, history, m, seen, opts.checksum)
    requires Closed(dst) && Sees(dst, seen)
    requires IndexAction(h, m, src, seen, es, opts, i) == Skip
    ensures ActionFor(h, src, dst, opts, es, i) == Skip <==> Direct(dst, es, opts, i)
    ensures Classify(h, src, dst, es[i].rel, opts.checksum) == Skip <==> !BehindLink(dst, es[i].rel)
  {
    if opts.checksum {
      HistoryJustifies(h, history, m, seen);
    }
    IndexPlanSkipsLess(h, m, src, dst, seen, es, opts, i);
    assert es[i] == EntryOf(es[i].rel, src[es[i].rel]);
    IndexSkipIsWalkSkip(h, m, src, dst, seen, es[i].rel, opts.checksum);
  }

  /** What is left alone is what a live walk would leave alone, save where a link is on the way. */
  ghost predicate NoBolder(h: Hasher, src: Tree, dst: Tree, opts: PlanOptions, es: seq<Entry>,
                           actions: seq<PlannedAction>) {
    && |actions| == |es|
    && forall i :: 0 <= i < |es| ==>
         && actions[i].entry == es[i]
         && (actions[i].action == Skip ==> (ActionFor(h, src, dst, opts, es, i) == Skip <==> Direct(dst, es, opts, i)))
  }

  /** Planning from the manifest against a destination some history of runs has left behind. */
  method PlanFromHistory(h: Hasher, m: Entries, ghost history: seq<Sight>, src: Tree, ghost dst: Tree, seen: Sight,
                         es: seq<Entry>, opts: PlanOptions)
    returns (actions: seq<PlannedAction>)
    requires IsWalk(src, es) && Reliable(h, history, m, seen, opts.checksum) && Closed(dst) && Sees(dst, seen)
    ensures NoBolder(h, src, dst, opts, es, actions)
    ensures Unlinked(src, dst) ==> Careful(h, src, dst, opts.checksum, es, actions)
    ensures |actions| == |es|
    ensures forall i :: 0 <= i < |es| ==> actions[i] == PlannedAction(es[i], IndexAction(h, m, src, seen, es, opts, i))
  {
    actions := PlanFromManifest(h, m, src, seen, es, opts);
    forall i | 0 <= i < |es|
      ensures Unlinked(src, dst) ==> CarefulAt(h, src, dst, opts.checksum, es[i], actions[i])
      ensures actions[i].action == Skip ==> (ActionFor(h, src, dst, opts, es, i) == Skip <==> Direct(dst, es, opts, i))
    {
      if actions[i].action == Skip {
        HistoryIsNeverBolder(h, history, m, src, dst, seen, es, opts, i);
      }
    }
  }

  /**
   Any history of runs, each recorded as far as it got, then a plan from whatever the store then holds:
   what is left alone the live walk would leave alone, exactly if no link is on the way.
   */
  method PlanAfterHistory(s: Store, h: Hasher, runs: seq<Applied>, src: Tree, ghost dst: Tree, seen: Sight,
                          es: seq<Entry>, opts: PlanOptions)
    returns (actions: Option<seq<PlannedAction>>)
    requires Sane(s.format) && s.Load() == None && s.journal == None
    requires forall i :: 0 <= i < |runs| ==> runs[i].h == h
    requires IsWalk(src, es) && (opts.checksum ==> ContentFollowsStat(Left(runs, |runs|), seen))
    requires Closed(dst) && Sees(dst, seen)
    modifies s
    ensures actions.Some? <==> s.Load().Some?
    ensures actions.Some? ==> |actions.value| == |es|
    ensures actions.Some? ==> forall i :: 0 <= i < |es| ==>
              actions.value[i] == PlannedAction(es[i], IndexAction(h, s.Load().value, src, seen, es, opts, i))
    ensures actions.Some? ==> NoBolder(h, src, dst, opts, es, actions.value)
    ensures actions.Some? && Unlinked(src, dst) ==> Careful(h, src, dst, opts.checksum, es, actions.value)
  {
    var _ := PersistHistory(s, h, runs);
    var loaded := s.Load();
    if loaded.None? {
      return None;
    }
    var planned := PlanFromHistory(h, loaded.value, Left(runs, |runs|), src, dst, seen, es, opts);
    actions := Some(planned);
  }

  /** With no link on the way anywhere, nothing is left alone that a live walk would not leave alone. */
  lemma {:induction false} UnlinkedIsNeverBolder(h: Hasher, src: Tree, dst: Tree, opts: PlanOptions, es: seq<Entry>,
                                                 actions: seq<PlannedAction>, i: nat)
    requires IsWalk(src, es) && NoBolder(h, src, dst, opts, es, actions) && Unlinked(src, dst)
    requires i < |es| && actions[i].action == Skip
    ensures ActionFor(h, src, dst, opts, es, i) == Skip
  {
    if IsDuplicate(es, i) {
      assert es[FirstNamed(es, es[i].ino, i)].rel in src;
    }
  }

  // ---------- hard links ----------

  /** The manifest cannot tell a duplicate that is left alone from its group's first member. */
  ghost predicate KnowsFirst(h: Hasher, m: Entries, src: Tree, seen: Sight, es: seq<Entry>, opts: PlanOptions, i: nat)
    requires i < |es|
  {
    IsDuplicate(es, i) && IndexAction(h, m, src, seen, es, opts, i) == Skip ==>
      var q := es[FirstNamed(es, es[i].ino, i)].rel;
      q in m && es[i].rel in m && SameRecord(m[q], m[es[i].rel], opts.checksum)
  }

  /** An index plan keeps its groups together exactly when the manifest knows every first member alike. */
  lemma {:induction false} IndexKeepsGroups(h: Hasher, m: Entries, opts: PlanOptions, run: Run, seen: Sight)
    requires run.Valid() && opts.hardLinks && Coherent(run.src) && Coherent(seen)
    requires Sees(run.dst, seen) && Unlinked(run.src, run.dst)
    requires forall i :: 0 <= i < |run.es| ==>
               run.actions[i].action == IndexAction(h, m, run.src, seen, run.es, opts, i)
    ensures GroupsTogether(run) <==> forall i :: 0 <= i < |run.es| ==> KnowsFirst(h, m, run.src, seen, run.es, opts, i)
  {
    forall i | 0 <= i < |run.es|
      ensures Together(run, i) <==> KnowsFirst(h, m, run.src, seen, run.es, opts, i)
    {
      if IsDuplicate(run.es, i) && run.actions[i].action == Skip {
        IndexDuplicateFollowsFirst(h, m, run.src, seen, run.es, opts, i);
        SkippedIsThere(h, m, opts, run, seen, i);
      }
    }
  }

  lemma {:induction false} SkippedIsThere(h: Hasher, m: Entries, opts: PlanOptions, run: Run, seen: Sight, i: nat)
    requires IsWalk(run.src, run.es) && opts.hardLinks && i < |run.es| && IsDuplicate(run.es, i)
    requires Sees(run.dst, seen) && Unlinked(run.src, run.dst)
    requires IndexAction(h, m, run.src, seen, run.es, opts, i) == Skip
    ensures var p, q := run.es[i].rel, run.es[FirstNamed(run.es, run.es[i].ino, i)].rel;
            p in run.dst && q in run.dst && run.dst[p].ino == run.dst[q].ino
  {
    var p, q := run.es[i].rel, run.es[FirstNamed(run.es, run.es[i].ino, i)].rel;
    assert q in run.src && p in seen;
    assert Identity(seen, p) == Identity(seen, q);
  }

  // ---------- applying ----------

  /**
   A run planned from the index, over a destination where no source path is behind a link. It never
   deletes, and what it guarantees is what a walked plan would, except that hard-link groups survive
   exactly if the plan keeps them together.
   */
  method SyncFromIndex(h: Hasher, m: Entries, ghost history: seq<Sight>, d: Destination, seen: Sight, src: Tree,
                       srcWalk: seq<Entry>, checksum: bool, opts: ApplyOptions)
    returns (ok: bool, plan: SyncPlan)
    requires Closed(src) && Coherent(src) && Untouched(d) && !opts.delete
    requires IsWalk(src, srcWalk) && Reliable(h, history, m, seen, checksum)
    requires Sees(d.tree, seen) && Unlinked(Visible(src), d.tree)
    modifies d
    ensures (!ok ==> d.cancelled && d.stoppable) && (d.faulted ==> d.CanFail())
    ensures NoBolder(h, Visible(src), old(d.tree), PlanOptions(checksum, false, opts.hardLinks), Retain(srcWalk),
                     plan.actions)
    ensures plan.deletions == [] && |plan.actions| == |Retain(srcWalk)|
    ensures var es, popts := Retain(srcWalk), PlanOptions(checksum, false, opts.hardLinks);
            forall i :: 0 <= i < |es| ==>
              plan.actions[i] == PlannedAction(es[i], IndexAction(h, m, Visible(src), seen, es, popts, i))
    ensures var run := RunFor(Visible(src), old(d.tree), Retain(srcWalk), plan, opts);
            && (ok ==> Accountable(d, run, plan, opts, 0))
            && (!d.escaped ==> LeavesAlone(run, d.suffix, d.tree))
            && (!d.faulted ==> !d.silent && (Unblocked(run, d.suffix) ==> d.stats.errors == 0))
            && (ok && Clean(run, d) ==> Mirrored(h, run, checksum, false, d.tree))
  {
    VisibleIsClosed(src);
    RetainWalks(src, srcWalk);
    var es := Retain(srcWalk);
    var actions := PlanFromHistory(h, m, history, Visible(src), d.tree, seen, es,
                                   PlanOptions(checksum, false, opts.hardLinks));
    plan := SyncPlan(actions, []);
    ghost var missed;
    ok, missed := ApplyCareful(h, d, Visible(src), es, plan, checksum, opts);
  }

  // ---------- where a link is on the way ----------

  /**
   The directory that was moved away and linked back, applied: all there is to do is the directory, and
   once that is done nothing has failed, yet the file the index left alone is not there.
   */
  method LinkedBackIsLost(h: Hasher, m: Entries, dirLen: nat, through: Reader, dir: Obj, file: Obj, link: Obj)
    returns (work: Work, done: bool, errors: nat, there: bool)
    requires dir.node.Dir? && file.node.File? && link.node.Symlink?
    requires ["d", "x"] in m
    requires RecordFor(h, map[["d"] := dir, ["d", "x"] := file], dirLen, through, EntryOf(["d", "x"], file), false)
          == Some(m[["d", "x"]])
    ensures work == Work([EntryOf(["d"], dir)], [EntryOf(["d"], dir)], [], [], [])
    ensures done ==> errors == 0 && !there
  {
    var p, x, e: Path := ["d"], ["d", "x"], ["e"];
    var src: Tree := map[p := dir, x := file];
    var dst: Tree := map[e := dir, e + ["x"] := file, p := link];
    var es := [EntryOf(p, dir), EntryOf(x, file)];
    LinkedBackIsSkipped(h, m, dirLen, through, src, dst, dst[x := file], p, x, e, dir, file, link);
    var actions := PlanFromManifest(h, m, src, dst[x := file], es, PlanOptions(false, false, false));
    var d := new Destination(dst, {}, "");
    var run := Run(src, dst, es, actions, false, map[], {});
    work := Distribute(d, run);
    TwoEntries(run);
    done := d.CreateDirectory(work.dirs[0]);
    errors, there := d.stats.errors, x in d.tree;
  }

  lemma {:induction false} TwoEntries(run: Run)
    requires |run.es| == |run.actions| == 2 && !run.hardLinks
    requires run.es[0].kind.KindDir? && run.actions[0].action != Skip
    requires run.es[1].kind.KindFile? && run.actions[1].action == Skip
    ensures WorkOf(run, 2) == Work([run.es[0]], [run.es[0]], [], [], [])
  {
    assert WorkOf(run, 0) == Work([], [], [], [], []);
    assert WorkOf(run, 1) == Assign(run, WorkOf(run, 0), 0);
    assert WorkOf(run, 2) == Assign(run, WorkOf(run, 1), 1);
  }
}
