/**
 The call-level phases on the work of a real run: what the partition hands to the file phase and to the
 hard-link phase meets everything their theorems ask for, given temporary names nobody uses.
 */
module CallPlans {
  import opened Trees
  import opened Steps
  import opened Jobs
  import opened Apply
  import opened Partition
  import opened FilePhase
  import opened LinkPhase

  function Nodes(t: Tree): Files {
    map p | p in t :: t[p].node
  }

  /** The copies of a list of file tasks, each built under its own temporary name. */
  function CopiesOf(run: Run, tasks: seq<Task>, tmps: seq<Path>): seq<Copying>
    requires |tmps| == |tasks| && forall t :: t in tasks ==> t.entry.rel in run.src && run.src[t.entry.rel].node.File?
  {
    seq(|tasks|, i requires 0 <= i < |tasks| =>
      assert tasks[i] in tasks;
      var p := tasks[i].entry.rel;
      var n := run.src[p].node;
      Copying(p, tmps[i], n.content, n.mode, n.mtime))
  }

  function LinksOf(tasks: seq<Task>, tmps: seq<Path>): seq<Linking>
    requires |tmps| == |tasks|
  {
    seq(|tasks|, i requires 0 <= i < |tasks| => Linking(tasks[i].entry.rel, tmps[i], tasks[i].first))
  }

  /** Temporary names beside their targets that no path of the tree and no source path has. */
  ghost predicate FreshNames(run: Run, t: Tree, tasks: seq<Task>, tmps: seq<Path>) {
    && |tmps| == |tasks|
    && (forall i :: 0 <= i < |tasks| ==>
        tmps[i] !in t && tmps[i] !in run.src && SideBySide(tmps[i], tasks[i].entry.rel))
    && (forall i, j :: 0 <= i < j < |tasks| ==> tmps[i] != tmps[j])
  }

  ghost predicate SideBySide(p: Path, q: Path) {
    |p| > 0 && |q| > 0 && Parent(p) == Parent(q)
  }

  // ---------- work is handed out in walk order ----------

  /** No task names the path of an earlier one, or one above it. */
  ghost predicate InWalkOrder(tasks: seq<Task>) {
    forall i, j :: 0 <= i < j < |tasks| ==> !(tasks[j].entry.rel <= tasks[i].entry.rel)
  }

  lemma {:induction false} SnocInOrder(tasks: seq<Task>, task: Task)
    requires InWalkOrder(tasks) && forall t :: t in tasks ==> !(task.entry.rel <= t.entry.rel)
    ensures InWalkOrder(tasks + [task])
  {
  }

  lemma {:induction false} TasksComeFrom(run: Run, n: nat)
    requires n <= |run.es| == |run.actions|
    ensures forall t :: t in WorkOf(run, n).files || t in WorkOf(run, n).links ==>
              exists k :: 0 <= k < n && run.es[k] == t.entry
  {
    if n > 0 {
      TasksComeFrom(run, n - 1);
      assert TaskAt(run, n - 1).entry == run.es[n - 1];
    }
  }

  lemma {:induction false} TasksInOrder(run: Run, n: nat)
    requires n <= |run.es| == |run.actions| && ParentsFirst(run.es)
    ensures InWalkOrder(WorkOf(run, n).files) && InWalkOrder(WorkOf(run, n).links)
  {
    if n > 0 {
      TasksInOrder(run, n - 1);
      TasksComeFrom(run, n - 1);
      SnocInOrder(WorkOf(run, n - 1).files, TaskAt(run, n - 1));
      SnocInOrder(WorkOf(run, n - 1).links, TaskAt(run, n - 1));
    }
  }

  /** Paths of source files in walk order are all different, and none is above another. */
  lemma {:induction false} FilesApart(run: Run, tasks: seq<Task>, i: nat, j: nat)
    requires Closed(run.src) && InWalkOrder(tasks) && i < |tasks| && j < |tasks| && i != j
    requires forall t :: t in tasks ==> t.entry.rel in run.src && run.src[t.entry.rel].node.File?
    ensures !(tasks[i].entry.rel <= tasks[j].entry.rel)
  {
    var p, q := tasks[i].entry.rel, tasks[j].entry.rel;
    assert tasks[i] in tasks && tasks[j] in tasks;
    if p <= q {
      NothingBelow(run.src, p, q);
    }
  }

  // ---------- copies ----------

  lemma {:induction false} FileTasksAreFiles(run: Run)
    requires run.Valid()
    ensures forall task :: task in WorkOf(run, |run.es|).files ==>
              task.entry.rel in run.src && run.src[task.entry.rel].node.File?
  {
    WorkIsComplete(run);
    forall task | task in WorkOf(run, |run.es|).files
      ensures task.entry.rel in run.src && run.src[task.entry.rel].node.File?
    {
      assert FileTask(run, task);
      assert JobFits(run.src, run.dst, run.jobs, task.entry.rel);
    }
  }

  /** All copies of a run. */
  ghost function RunCopies(run: Run, tmps: seq<Path>): seq<Copying>
    requires run.Valid() && |tmps| == |WorkOf(run, |run.es|).files|
  {
    FileTasksAreFiles(run);
    CopiesOf(run, WorkOf(run, |run.es|).files, tmps)
  }

  /** The copies of a real run are as the file phase wants them, whatever tree the phase starts from. */
  lemma {:induction false} CopiesArePlanned(run: Run, t: Tree, tmps: seq<Path>)
    requires run.Valid() && FreshNames(run, t, WorkOf(run, |run.es|).files, tmps)
    ensures Planned(Nodes(t), RunCopies(run, tmps))
  {
    var tasks := WorkOf(run, |run.es|).files;
    FileTasksAreFiles(run);
    TasksInOrder(run, |run.es|);
    var copies := RunCopies(run, tmps);
    forall i, j | 0 <= i < |copies| && 0 <= j < |copies|
      ensures copies[i].tmp != copies[j].target
      ensures i != j ==> copies[i].tmp != copies[j].tmp && !(copies[i].target <= copies[j].target)
    {
      assert tasks[j] in tasks;
      if i != j {
        FilesApart(run, tasks, i, j);
      }
    }
    assert forall i :: 0 <= i < |copies| ==> SideBySide(tmps[i], tasks[i].entry.rel);
  }

  /**
   Old or new for every copy of every run: in any interleaving, at any moment, a target that was no
   directory when the phase began shows what it was or the source's file, mode stripped.
   */
  lemma {:induction false} CopyShowsOldOrNew(run: Run, t: Tree, tmps: seq<Path>, states: seq<State>, k: nat, i: nat)
    requires run.Valid() && FreshNames(run, t, WorkOf(run, |run.es|).files, tmps)
    requires IsRun(Nodes(t), RunCopies(run, tmps), states) && k < |states| && i < |tmps|
    requires !DirAt(t, RunCopies(run, tmps)[i].target)
    ensures var p, now := WorkOf(run, |run.es|).files[i].entry.rel, states[k].files;
            && p in run.src && run.src[p].node.File?
            && (|| (p in now && now[p] == Fresh(run.src[p].node))
                || (p in now && p in t && now[p] == t[p].node)
                || (p !in now && p !in t))
  {
    CopiesArePlanned(run, t, tmps);
    FileTasksAreFiles(run);
    assert WorkOf(run, |run.es|).files[i] in WorkOf(run, |run.es|).files;
    OldOrNew(Nodes(t), RunCopies(run, tmps), states, k, i);
  }

  // ---------- links ----------

  /** The links of a real run are as the link phase wants them once the copies are done. */
  lemma {:induction false} LinksArePlanned(run: Run, t: Tree, written: map<Path, Obj>, timed: bool, tmps: seq<Path>)
    requires run.Valid() && OnTrack(run, t, written, timed) && Writes(run.jobs) <= written.Keys
    requires FreshNames(run, t, WorkOf(run, |run.es|).links, tmps)
    ensures LinksPlanned(t, LinksOf(WorkOf(run, |run.es|).links, tmps))
  {
    var tasks := WorkOf(run, |run.es|).links;
    WorkIsComplete(run);
    TasksInOrder(run, |run.es|);
    forall task | task in tasks
      ensures LinkApart(run, t, task)
    {
      LinkIsApart(run, t, written, timed, task);
    }
    var links := LinksOf(tasks, tmps);
    forall i | 0 <= i < |links|
      ensures links[i].first in t && t[links[i].first].node.File?
    {
      assert LinkApart(run, t, tasks[i]);
    }
    forall i, j | 0 <= i < |links| && 0 <= j < |links|
      ensures links[i].tmp != links[j].target && !(links[i].target <= links[j].first)
      ensures i != j ==> links[i].tmp != links[j].tmp && !(links[i].target <= links[j].target)
    {
      assert LinkApart(run, t, tasks[i]) && LinkApart(run, t, tasks[j]);
      FirstsApart(run, tasks[i], tasks[j]);
      if i != j {
        FilesApart(run, tasks, i, j);
      }
    }
    assert forall i :: 0 <= i < |links| ==> SideBySide(tmps[i], tasks[i].entry.rel);
  }

  /** So a link of a real run always shows old or new exactly if nothing was at its path. */
  lemma {:induction false} RunLinkIsOldOrNew(run: Run, t: Tree, written: map<Path, Obj>, timed: bool, tmps: seq<Path>,
                                             i: nat)
    requires run.Valid() && OnTrack(run, t, written, timed) && Writes(run.jobs) <= written.Keys
    requires FreshNames(run, t, WorkOf(run, |run.es|).links, tmps) && i < |tmps|
    ensures var links := LinksOf(WorkOf(run, |run.es|).links, tmps);
            AlwaysOldOrNew(t, links, links[i]) <==> WorkOf(run, |run.es|).links[i].entry.rel !in t
  {
    LinksArePlanned(run, t, written, timed, tmps);
    LinkIsOldOrNew(t, LinksOf(WorkOf(run, |run.es|).links, tmps), i);
  }

  /** A link repeats a file that is in place and is no link itself. */
  ghost predicate LinkApart(run: Run, t: Tree, task: Task) {
    var p, c := task.entry.rel, task.first;
    && p in run.src && run.src[p].node.File? && p in run.jobs && run.jobs[p].Link?
    && c in run.src && run.src[c].node.File? && c in run.jobs && !run.jobs[c].Link?
    && c in t && t[c].node.File?
  }

  lemma {:induction false} LinkIsApart(run: Run, t: Tree, written: map<Path, Obj>, timed: bool, task: Task)
    requires run.Fits() && OnTrack(run, t, written, timed) && Writes(run.jobs) <= written.Keys && LinkTask(run, task)
    ensures LinkApart(run, t, task)
  {
    assert JobFits(run.src, run.dst, run.jobs, task.entry.rel);
    FirstIsInPlace(run, t, written, timed, task.first);
  }

  lemma {:induction false} FirstsApart(run: Run, a: Task, b: Task)
    requires Closed(run.src)
    requires a.entry.rel in run.src && run.src[a.entry.rel].node.File? && b.first in run.src
    requires a.entry.rel in run.jobs && run.jobs[a.entry.rel].Link? && b.first in run.jobs && !run.jobs[b.first].Link?
    ensures !(a.entry.rel <= b.first)
  {
    if a.entry.rel <= b.first {
      NothingBelow(run.src, a.entry.rel, b.first);
    }
  }
}
