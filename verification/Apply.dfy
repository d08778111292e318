/**
 The apply phases: partition the plan, make directories in depth batches, copy files in chunks,
 link, place symlinks, restore directory times, delete. Work inside a batch or a chunk is done in
 an arbitrary order; cancellation may strike at any checkpoint and any call may fail.
 */
module Apply {
  import opened Bytes
  import opened Trees
  import opened Steps
  import opened Jobs
  import opened Plan
  import opened Report
  import opened Destination

  datatype ApplyOptions = ApplyOptions(delete: bool, yes: bool, hardLinks: bool, threads: nat)

  /** One unit of file, link or symlink work. */
  datatype Task = Task(entry: Entry, action: Action, first: Path)

  datatype Work = Work(dirs: seq<Entry>, timed: seq<Entry>, files: seq<Task>, links: seq<Task>, symlinks: seq<Task>)

  function EntryPaths(es: seq<Entry>): set<Path> { set e | e in es :: e.rel }
  function TaskPaths(ts: seq<Task>): set<Path> { set t | t in ts :: t.entry.rel }

  /**
   The fixed inputs of a run: source, destination before it, walk, actions and what they ask for, and the
   paths whose deletion has been confirmed.
   */
  datatype Run = Run(src: Tree, dst: Tree, es: seq<Entry>, actions: seq<PlannedAction>, hardLinks: bool,
                     jobs: map<Path, Job>, sweep: set<Path>) {
    ghost predicate Fits() {
      Closed(src) && NothingHidden(src) && JobsFit(src, dst, jobs)
    }

    ghost predicate Valid() {
      && Fits() && Closed(dst)
      && IsWalk(src, es) && |actions| == |es|
      && (forall i :: 0 <= i < |es| ==> actions[i].entry == es[i])
      && jobs == JobsOf(es, actions, hardLinks, |es|)
    }
  }

  /** Every path is accounted for, those in `lost` as gone, and what has been written is what was asked for. */
  ghost predicate OnTrack(run: Run, t: Tree, written: map<Path, Obj>, timed: bool, lost: set<Path> := {})
    requires run.Fits()
  {
    && Progress(true, run.src, run.dst, t, written, lost)
    && AllDelivered(run.src, run.dst, run.jobs, written, timed)
  }

  /** No directory, on either side, is in the way of the name that a link to be placed is made under. */
  ghost predicate Unblocked(run: Run, suffix: string) {
    forall p :: p in run.src && p in run.jobs && |p| > 0 && run.jobs[p].Point? ==>
      !DirAt(run.src, TmpOf(p, suffix)) && !DirAt(run.dst, TmpOf(p, suffix))
  }

  /** What is lost once the link at `p` has been placed: the path its temporary took, and `p` no longer. */
  function Taken(src: Tree, suffix: string, lost: set<Path>, p: Path): set<Path> {
    (if |p| > 0 && TmpOf(p, suffix) in src then lost + {TmpOf(p, suffix)} else lost) - {p}
  }

  /** A link that is to be placed is made under the name `p`. */
  ghost predicate Borrowed(run: Run, suffix: string, p: Path) {
    exists q :: q in run.jobs && run.jobs[q].Point? && |q| > 0 && TmpOf(q, suffix) == p
  }

  /** `p` is at or below a path whose deletion has been confirmed. */
  ghost predicate Swept(run: Run, p: Path) {
    exists q :: q in run.sweep && q <= p
  }

  /**
   What a run has no business with: old paths the source lacks or that are to be left alone, unless they
   are in the way of a source path, of a link's temporary, or are to be deleted.
   */
  ghost predicate Bystander(run: Run, suffix: string, p: Path) {
    && p in run.dst && (p in run.src ==> p in run.jobs && run.jobs[p].Keep?)
    && !Displaced(run.src, p) && !Borrowed(run, suffix, p) && !Swept(run, p)
  }

  ghost predicate StaysAt(run: Run, suffix: string, t: Tree, p: Path) {
    Bystander(run, suffix, p) ==> p in t && Alike(t[p], run.dst[p])
  }

  /** Every bystander is there as it was, directory times apart. */
  ghost predicate LeavesAlone(run: Run, suffix: string, t: Tree) {
    forall p {:trigger StaysAt(run, suffix, t, p)} :: StaysAt(run, suffix, t, p)
  }

  /** Whatever happens at or below a source path that is no directory and not left alone. */
  lemma {:induction false} PlacingLeavesAlone(run: Run, suffix: string, t: Tree, u: Tree, p: Path)
    requires Closed(run.src) && LeavesAlone(run, suffix, t) && Outside(t, u, p)
    requires p in run.src && !run.src[p].node.Dir? && p in run.jobs && !run.jobs[p].Keep?
    ensures LeavesAlone(run, suffix, u)
  {
    assert Ready(run.src, p);
    forall q
      ensures StaysAt(run, suffix, u, q)
    {
      assert StaysAt(run, suffix, t, q);
      if p <= q && q != p {
        assert |p| < |q| && q[..|p|] == p;
        assert Displaced(run.src, q);
      }
    }
  }

  /** Whatever happens at a source directory that is not left alone. */
  lemma {:induction false} MakingLeavesAlone(run: Run, suffix: string, t: Tree, u: Tree, p: Path)
    requires LeavesAlone(run, suffix, t) && OnlyAt(t, u, p)
    requires p in run.src && p in run.jobs && !run.jobs[p].Keep?
    ensures LeavesAlone(run, suffix, u)
  {
    forall q
      ensures StaysAt(run, suffix, u, q)
    {
      assert StaysAt(run, suffix, t, q);
    }
  }

  /** Whatever happens at the name a link to be placed is made under. */
  lemma {:induction false} BorrowingLeavesAlone(run: Run, suffix: string, t: Tree, u: Tree, p: Path)
    requires LeavesAlone(run, suffix, t) && p in run.jobs && run.jobs[p].Point? && |p| > 0
    requires OnlyAt(t, u, TmpOf(p, suffix))
    ensures LeavesAlone(run, suffix, u)
  {
    forall q
      ensures StaysAt(run, suffix, u, q)
    {
      assert StaysAt(run, suffix, t, q);
      assert q == TmpOf(p, suffix) ==> Borrowed(run, suffix, q);
    }
  }

  /** A confirmed deletion, carried out or not. */
  lemma {:induction false} SweepingLeavesAlone(run: Run, suffix: string, t: Tree, u: Tree, p: Path)
    requires LeavesAlone(run, suffix, t) && p in run.sweep && Outside(t, u, p)
    ensures LeavesAlone(run, suffix, u)
  {
    forall q
      ensures StaysAt(run, suffix, u, q)
    {
      assert StaysAt(run, suffix, t, q);
      assert p <= q ==> Swept(run, q);
    }
  }

  /** A directory's time. */
  lemma {:induction false} TimingLeavesAlone(run: Run, suffix: string, t: Tree, u: Tree)
    requires LeavesAlone(run, suffix, t) && u.Keys == t.Keys && forall q :: q in u ==> Alike(u[q], t[q])
    ensures LeavesAlone(run, suffix, u)
  {
    forall q
      ensures StaysAt(run, suffix, u, q)
    {
      assert StaysAt(run, suffix, t, q);
      assert q in t ==> q in u.Keys;
    }
  }

  /**
   Where a run stands: unless something was reported, it is on track and went through no stray path;
   and unless some system call failed or a directory was in the way of a link's temporary, nothing was
   reported and nothing failed silently. Whatever fails, no call that stays on the planned paths splits an
   identity or touches a bystander, and none removes what is pinned.
   */
  ghost predicate OnCourse(run: Run, d: Destination)
    requires run.Fits()
    reads d
  {
    && Closed(d.tree)
    && (d.stats.errors == 0 ==> !d.escaped && OnTrack(run, d.tree, d.written, !d.silent, d.lost))
    && (!d.faulted ==> !d.silent && (Unblocked(run, d.suffix) ==> d.stats.errors == 0))
    && (d.faulted ==> d.CanFail()) && (d.cancelled ==> d.stoppable)
    && (!d.escaped ==> Undisturbed(d.pinned, run.dst, d.tree) && LeavesAlone(run, d.suffix, d.tree))
    && KeepsPinned(d.pinned, run.dst, d.tree)
  }

  ghost predicate NoLinksYet(run: Run, written: map<Path, Obj>)
    requires run.Fits()
  {
    forall q :: q in written ==> q in run.jobs && !run.jobs[q].Link?
  }

  /** A task stands for a source entry with the given job. */
  ghost predicate DirTask(run: Run, e: Entry)
    requires run.Fits()
  {
    e.rel in run.src && e == EntryOf(e.rel, run.src[e.rel]) && run.jobs[e.rel] == Make
  }

  ghost predicate FileTask(run: Run, t: Task)
    requires run.Fits()
  {
    t.entry.rel in run.src && t.action != Skip && t.entry == EntryOf(t.entry.rel, run.src[t.entry.rel]) &&
    run.jobs[t.entry.rel] == Write
  }

  ghost predicate LinkTask(run: Run, t: Task)
    requires run.Fits()
  {
    t.entry.rel in run.src && t.action != Skip && t.entry == EntryOf(t.entry.rel, run.src[t.entry.rel]) &&
    run.jobs[t.entry.rel] == Link(t.first)
  }

  ghost predicate PointTask(run: Run, t: Task)
    requires run.Fits()
  {
    t.entry.rel in run.src && t.action != Skip && t.entry == EntryOf(t.entry.rel, run.src[t.entry.rel]) &&
    run.jobs[t.entry.rel] == Point
  }

  /** Every source directory is settled: written, or kept and there. */
  ghost predicate DirsSettled(run: Run, written: map<Path, Obj>)
    requires run.Fits()
  {
    Makes(run.jobs) <= written.Keys
  }

  lemma {:induction false} SettledMeansDone(run: Run, written: map<Path, Obj>, p: Path)
    requires run.Fits()
    requires p in run.jobs && run.jobs[p].Make? ==> p in written
    ensures DirsDone(run.src, run.dst, written, p)
  {
    if p in run.src {
      assert JobFits(run.src, run.dst, run.jobs, p);
    }
  }

  /** With the directories settled, the parent of every source path is really there. */
  lemma {:induction false} TaskReady(run: Run, t: Tree, written: map<Path, Obj>, timed: bool, p: Path,
                                     lost: set<Path> := {})
    requires run.Fits() && OnTrack(run, t, written, timed, lost) && DirsSettled(run, written) && p in run.src
    ensures Ready(t, p)
  {
    if |p| > 1 {
      if Parent(p) in run.jobs && run.jobs[Parent(p)].Make? {
        assert Parent(p) in Makes(run.jobs);
      }
      SettledMeansDone(run, written, Parent(p));
    }
    ReadyInSource(true, run.src, run.dst, t, written, p, lost);
  }

  /** Putting what a file, link or symlink job asks for in place keeps the run on track. */
  lemma {:induction false} PlacedOnTrack(run: Run, t: Tree, u: Tree, written: map<Path, Obj>, timed: bool, still: bool,
                                         p: Path, o: Obj, lost: set<Path> := {})
    requires run.Fits() && OnTrack(run, t, written, timed, lost) && (still ==> timed)
    requires p in run.src && !run.src[p].node.Dir? && SameKind(o.node, run.src[p].node)
    requires Closed(u) && Placed(t, u, p, o)
    requires Delivered(run.src, run.dst, run.jobs, written[p := o], still, p)
    requires run.jobs[p].Write? ==> NoLinksYet(run, written)
    ensures OnTrack(run, u, written[p := o], still, lost - {p})
    ensures run.jobs[p].Write? ==> NoLinksYet(run, written[p := o])
  {
    PlaceProgress(true, run.src, run.dst, t, u, written, p, o, lost);
    Untimed(run, written, timed, still);
    DeliverOne(run.src, run.dst, run.jobs, written, still, p, o);
  }

  lemma {:induction false} Untimed(run: Run, written: map<Path, Obj>, timed: bool, still: bool)
    requires run.Fits() && AllDelivered(run.src, run.dst, run.jobs, written, timed) && (still ==> timed)
    ensures AllDelivered(run.src, run.dst, run.jobs, written, still)
  {
    forall p
      ensures Delivered(run.src, run.dst, run.jobs, written, still, p)
    {
      assert Delivered(run.src, run.dst, run.jobs, written, timed, p);
    }
  }

  /** Once all copies are done, the first member of a hard-link group is there and is final. */
  lemma {:induction false} FirstIsInPlace(run: Run, t: Tree, written: map<Path, Obj>, timed: bool, c: Path)
    requires run.Fits() && OnTrack(run, t, written, timed)
    requires c in run.src && run.src[c].node.File? && (run.jobs[c].Keep? || run.jobs[c].Write?)
    requires Writes(run.jobs) <= written.Keys
    ensures c in t && t[c].node.File? && InPlace(run.dst, written, c) == Some(t[c])
  {
    assert JobFits(run.src, run.dst, run.jobs, c);
    assert Accounted(true, run.src, run.dst, t, written, c);
    assert Delivered(run.src, run.dst, run.jobs, written, timed, c);
    assert run.jobs[c].Write? ==> c in Writes(run.jobs);
  }

  /** An identity no object of the tree has is none of those left alone. */
  lemma {:induction false} FreshIsUnshared(run: Run, t: Tree, written: map<Path, Obj>, timed: bool, o: Obj)
    requires run.Fits() && OnTrack(run, t, written, timed) && forall q :: q in t ==> t[q].ino != o.ino
    ensures Unshared(run.dst, run.jobs, o)
  {
    forall q | q in run.jobs && run.jobs[q].Keep? && q in run.dst
      ensures run.dst[q].ino != o.ino
    {
      assert JobFits(run.src, run.dst, run.jobs, q) && Delivered(run.src, run.dst, run.jobs, written, timed, q);
      assert Accounted(true, run.src, run.dst, t, written, q);
    }
  }

  // ---------- one entry of each kind ----------

  /** A path that is there and is no symlink. */
  predicate Solid(t: Tree, p: Path) {
    p in t && !t[p].node.Symlink?
  }

  /** A directory counts as copied or updated by what was there; in place of a symlink it may count as either. */
  predicate CountedAsFound(dst: Tree, p: Path, before: Stats, after: Stats) {
    && (after == before.Bump(Copy) || after == before.Bump(Update))
    && (p !in dst ==> after == before.Bump(Copy)) && (Solid(dst, p) ==> after == before.Bump(Update))
  }

  method DoDirectory(d: Destination, e: Entry, run: Run)
    requires run.Fits() && OnCourse(run, d) && DirTask(run, e)
    requires d.stats.errors == 0 && |e.rel| > 1 ==> DirsDone(run.src, run.dst, d.written, Parent(e.rel))
    requires d.stats.errors == 0 ==> NoLinksYet(run, d.written)
    modifies d
    ensures OnCourse(run, d) && d.cancelled == old(d.cancelled) && d.lost == old(d.lost)
    ensures CountedOnce(old(d.stats), d.stats, d.stats.errors == old(d.stats.errors))
    ensures d.stats.errors == 0 ==> NoLinksYet(run, d.written) && d.written.Keys == old(d.written).Keys + {e.rel}
    ensures d.stats.errors == 0 && old(d.lost) == {} && e.rel !in old(d.written) ==>
              CountedAsFound(run.dst, e.rel, old(d.stats), d.stats)
  {
    ghost var t, w := d.tree, d.written;
    assert JobFits(run.src, run.dst, run.jobs, e.rel);
    if d.stats.errors == 0 {
      ReadyInSource(true, run.src, run.dst, t, w, e.rel, d.lost);
      FoundAsBefore(run, t, w, !d.silent, e.rel, d.lost);
    }
    var done := d.CreateDirectory(e);
    if !d.escaped {
      MakingLeavesAlone(run, d.suffix, t, d.tree, e.rel);
    }
    if done && d.stats.errors == 0 {
      d.written := w[e.rel := d.tree[e.rel]];
      MadeOnTrack(run, t, d.tree, w, !d.silent, e.rel, Strip(e.mode), d.lost);
    }
  }

  /** Making what a directory job asks for keeps the run on track. */
  lemma {:induction false} MadeOnTrack(run: Run, t: Tree, u: Tree, written: map<Path, Obj>, timed: bool, p: Path,
                                       mode: Mode, lost: set<Path>)
    requires run.Fits() && OnTrack(run, t, written, timed, lost) && p in run.jobs && run.jobs[p].Make?
    requires p in run.src && run.src[p].node.Dir? && mode == Strip(run.src[p].node.mode)
    requires Closed(u) && Ready(t, p) && MadeDir(t, u, p, mode)
    ensures OnTrack(run, u, written[p := u[p]], timed, lost)
  {
    DirProgress(true, run.src, run.dst, t, u, written, p, mode, lost);
    DeliverOne(run.src, run.dst, run.jobs, written, timed, p, u[p]);
  }

  /** Before its turn a source path is what it was in the old destination. */
  lemma {:induction false} FoundAsBefore(run: Run, t: Tree, written: map<Path, Obj>, timed: bool, p: Path,
                                         lost: set<Path>)
    requires run.Fits() && OnTrack(run, t, written, timed, lost) && p in run.src
    ensures p !in written && lost == {} ==> (p in t <==> p in run.dst) && (Solid(t, p) <==> Solid(run.dst, p))
  {
    assert lost == {} ==> Accounted(true, run.src, run.dst, t, written, p);
  }

  lemma {:induction false} LosesNothing(lost: set<Path>, p: Path)
    requires lost == {}
    ensures lost - {p} == lost
  {
  }

  method DoFile(d: Destination, task: Task, run: Run)
    requires run.Fits() && OnCourse(run, d) && FileTask(run, task)
    requires d.stats.errors == 0 ==> DirsSettled(run, d.written) && NoLinksYet(run, d.written)
    requires d.lost == {}
    modifies d
    ensures OnCourse(run, d) && d.cancelled == old(d.cancelled) && d.lost == old(d.lost)
    ensures CountedOnce(old(d.stats), d.stats, d.stats.errors == old(d.stats.errors))
    ensures d.stats.errors == 0 ==>
              d.stats == old(d.stats).Bump(task.action).(bytes := old(d.stats.bytes) + task.entry.len)
    ensures d.stats.errors == 0 ==>
              NoLinksYet(run, d.written) && d.written.Keys == old(d.written).Keys + {task.entry.rel}
  {
    ghost var t, w := d.tree, d.written;
    var p := task.entry.rel;
    assert JobFits(run.src, run.dst, run.jobs, p);
    if d.stats.errors == 0 {
      TaskReady(run, t, w, !d.silent, p);
    }
    var done, o := d.CopyFileAtomic(task.entry, run.src[p].node, task.action);
    if !d.escaped {
      PlacingLeavesAlone(run, d.suffix, t, d.tree, p);
    }
    if done && d.stats.errors == 0 {
      FreshIsUnshared(run, t, w, !d.silent, o);
      d.written := w[p := o];
      PlacedOnTrack(run, t, d.tree, w, !d.silent, !d.silent, p, o);
      LosesNothing(d.lost, p);
    }
  }

  method DoLink(d: Destination, task: Task, run: Run)
    requires run.Fits() && OnCourse(run, d) && LinkTask(run, task)
    requires d.stats.errors == 0 ==> DirsSettled(run, d.written) && Writes(run.jobs) <= d.written.Keys
    requires d.lost == {}
    modifies d
    ensures OnCourse(run, d) && d.cancelled == old(d.cancelled) && d.lost == old(d.lost)
    ensures CountedOnce(old(d.stats), d.stats, d.stats.errors == old(d.stats.errors))
    ensures d.stats.errors == 0 ==> d.stats == old(d.stats).Bump(task.action)
    ensures d.stats.errors == 0 ==> d.written.Keys == old(d.written).Keys + {task.entry.rel}
  {
    ghost var t, w := d.tree, d.written;
    var p, c := task.entry.rel, task.first;
    assert JobFits(run.src, run.dst, run.jobs, p);
    if d.stats.errors == 0 {
      TaskReady(run, t, w, !d.silent, p);
      FirstIsInPlace(run, t, w, !d.silent, c);
    }
    var done, o := d.CreateHardlink(task.entry, c, task.action);
    if !d.escaped {
      PlacingLeavesAlone(run, d.suffix, t, d.tree, p);
    }
    if done && d.stats.errors == 0 {
      d.written := w[p := o];
      PlacedOnTrack(run, t, d.tree, w, !d.silent, !d.silent, p, o);
      LosesNothing(d.lost, p);
    }
  }

  method DoSymlink(d: Destination, task: Task, run: Run)
    requires run.Fits() && OnCourse(run, d) && PointTask(run, task)
    requires d.stats.errors == 0 ==> DirsSettled(run, d.written)
    modifies d
    ensures OnCourse(run, d) && d.cancelled == old(d.cancelled)
    ensures CountedOnce(old(d.stats), d.stats, d.stats.errors == old(d.stats.errors))
    ensures d.stats.errors == 0 ==> d.stats == old(d.stats).Bump(task.action)
    ensures d.stats.errors == 0 ==> d.lost == Taken(run.src, d.suffix, old(d.lost), task.entry.rel)
    ensures d.stats.errors == 0 ==> d.written.Keys == old(d.written).Keys + {task.entry.rel}
  {
    ghost var t, w, timed, lost := d.tree, d.written, !d.silent, d.lost;
    var p := task.entry.rel;
    assert JobFits(run.src, run.dst, run.jobs, p);
    if d.stats.errors == 0 {
      TaskReady(run, t, w, timed, p, lost);
      NoDirAtTmp(run, t, w, timed, d.suffix, p, lost);
    }
    var done, o, mid := d.CreateSymlink(task.entry, task.entry.kind.target, task.action);
    if !d.escaped {
      BorrowingLeavesAlone(run, d.suffix, t, mid, p);
      PlacingLeavesAlone(run, d.suffix, mid, d.tree, p);
    }
    if done && d.stats.errors == 0 {
      LinkOnTrack(run, t, mid, d.tree, w, timed, !d.silent, d.suffix, p, o, lost);
      d.written, d.lost := w[p := o], Taken(run.src, d.suffix, lost, p);
    }
  }

  /** Placing a link through its temporary's name. */
  lemma {:induction false} LinkOnTrack(run: Run, t: Tree, mid: Tree, u: Tree, written: map<Path, Obj>, timed: bool,
                                       still: bool, suffix: string, p: Path, o: Obj, lost: set<Path>)
    requires run.Fits() && OnTrack(run, t, written, timed, lost) && DirsSettled(run, written) && (still ==> timed)
    requires p in run.src && |p| > 0 && run.jobs[p].Point? && !DirAt(t, TmpOf(p, suffix))
    requires Closed(mid) && Removed(t, mid, TmpOf(p, suffix)) && Closed(u) && Placed(mid, u, p, o)
    requires o.node.Symlink? && run.src[p].node.Symlink? && o.node.target == run.src[p].node.target
    requires still ==> o.node.mtime == run.src[p].node.mtime
    ensures OnTrack(run, u, written[p := o], still, Taken(run.src, suffix, lost, p))
  {
    TmpIsTaken(run, t, mid, written, timed, suffix, p, lost);
    var q := TmpOf(p, suffix);
    PlacedOnTrack(run, mid, u, written, timed, still, p, o, if q in run.src then lost + {q} else lost);
  }

  /** With the directories settled, every source directory is there. */
  lemma {:induction false} SourceDirIsThere(run: Run, t: Tree, written: map<Path, Obj>, timed: bool, p: Path,
                                            lost: set<Path> := {})
    requires run.Fits() && OnTrack(run, t, written, timed, lost) && DirsSettled(run, written)
    requires p in run.src && run.src[p].node.Dir?
    ensures DirAt(t, p)
  {
    assert JobFits(run.src, run.dst, run.jobs, p);
    assert Accounted(true, run.src, run.dst, t, written, p);
    assert run.jobs[p].Make? ==> p in Makes(run.jobs);
  }

  /** Taking the name of a link's temporary costs the source path of that name, and nothing else. */
  lemma {:induction false} TmpIsTaken(run: Run, t: Tree, mid: Tree, written: map<Path, Obj>, timed: bool,
                                      suffix: string, p: Path, lost: set<Path>)
    requires run.Fits() && OnTrack(run, t, written, timed, lost) && DirsSettled(run, written)
    requires p in run.src && |p| > 0 && run.jobs[p].Point? && !DirAt(t, TmpOf(p, suffix))
    requires Closed(mid) && Removed(t, mid, TmpOf(p, suffix))
    ensures var q := TmpOf(p, suffix);
            OnTrack(run, mid, written, timed, if q in run.src then lost + {q} else lost)
  {
    var q := TmpOf(p, suffix);
    TmpIsBeside(p, suffix);
    if q in run.src {
      if run.src[q].node.Dir? {
        SourceDirIsThere(run, t, written, timed, q, lost);
      }
      TakeProgress(true, run.src, run.dst, t, mid, written, q, lost);
    } else {
      RemoveProgress(true, run.src, run.dst, t, mid, written, q, lost);
    }
  }

  /** A directory in the place of a link's temporary was there from the start. */
  lemma {:induction false} NoDirAtTmp(run: Run, t: Tree, written: map<Path, Obj>, timed: bool, suffix: string, p: Path,
                                      lost: set<Path>)
    requires run.Fits() && OnTrack(run, t, written, timed, lost)
    requires p in run.src && |p| > 0 && run.jobs[p].Point?
    ensures Unblocked(run, suffix) ==> !DirAt(t, TmpOf(p, suffix))
  {
    var q := TmpOf(p, suffix);
    if q !in lost {
      assert Accounted(true, run.src, run.dst, t, written, q);
    }
  }
}
