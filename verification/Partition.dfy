/** The partition loop of the apply phase: one list per kind of work, hard-link duplicates set apart. */
module Partition {
  import opened Trees
  import opened Steps
  import opened Jobs
  import opened Plan
  import opened Destination
  import opened Apply

  /** The lists by definition: entry `i` goes where its job says, in plan order. */
  function WorkOf(run: Run, n: nat): Work
    requires n <= |run.es| == |run.actions|
  {
    if n == 0 then Work([], [], [], [], []) else Assign(run, WorkOf(run, n - 1), n - 1)
  }

  function Assign(run: Run, w: Work, i: nat): Work
    requires i < |run.es| == |run.actions|
  {
    var v := if run.es[i].kind == KindDir then w.(timed := w.timed + [run.es[i]]) else w;
    match JobAt(run.es, run.actions, run.hardLinks, i)
    case Keep => v
    case Make => v.(dirs := v.dirs + [run.es[i]])
    case Write => v.(files := v.files + [TaskAt(run, i)])
    case Link(_) => v.(links := v.links + [TaskAt(run, i)])
    case Point => v.(symlinks := v.symlinks + [TaskAt(run, i)])
  }

  function TaskAt(run: Run, i: nat): Task
    requires i < |run.es| == |run.actions|
  {
    var job := JobAt(run.es, run.actions, run.hardLinks, i);
    Task(run.es[i], run.actions[i].action, if job.Link? then job.first else [])
  }

  function Size(w: Work): nat {
    |w.dirs| + |w.files| + |w.links| + |w.symlinks|
  }

  /** The map of first members: which file inodes the first `n` entries name, and where first. */
  ghost predicate TracksFirst(es: seq<Entry>, first: map<nat, Path>, n: nat)
    requires n <= |es|
  {
    forall ino :: (ino in first <==> FirstNamed(es, ino, n) < n)
               && (ino in first ==> first[ino] == es[FirstNamed(es, ino, n)].rel)
  }

  /** The partition loop with its map of first hard-link members; what is up to date is counted here. */
  method Distribute(d: Destination, run: Run) returns (work: Work)
    requires |run.es| == |run.actions| && forall i :: 0 <= i < |run.es| ==> run.actions[i].entry == run.es[i]
    modifies d`stats
    ensures work == WorkOf(run, |run.es|)
    ensures d.stats == old(d.stats).(skipped := d.stats.skipped)
    ensures d.stats.skipped + Size(work) == old(d.stats.skipped) + |run.es|
  {
    work := Work([], [], [], [], []);
    var first: map<nat, Path> := map[];
    for i := 0 to |run.actions|
      invariant work == WorkOf(run, i)
      invariant d.stats == old(d.stats).(skipped := d.stats.skipped)
      invariant d.stats.skipped + Size(work) == old(d.stats.skipped) + i
      invariant run.hardLinks ==> TracksFirst(run.es, first, i)
    {
      var pa := run.actions[i];
      var e := pa.entry;
      if e.kind == KindDir {
        work := work.(timed := work.timed + [e]);
      }
      if run.hardLinks && IsFile(e) {
        if e.ino in first {
          if pa.action == Skip {
            d.stats := d.stats.(skipped := d.stats.skipped + 1);
          } else {
            work := work.(links := work.links + [Task(e, pa.action, first[e.ino])]);
          }
          continue;
        }
        first := first[e.ino := e.rel];
      }
      if pa.action == Skip {
        d.stats := d.stats.(skipped := d.stats.skipped + 1);
        continue;
      }
      match e.kind
      case KindDir => work := work.(dirs := work.dirs + [e]);
      case KindFile => work := work.(files := work.files + [Task(e, pa.action, [])]);
      case KindSymlink(_) => work := work.(symlinks := work.symlinks + [Task(e, pa.action, [])]);
    }
  }

  // ---------- what the lists hold ----------

  /** Every list holds tasks of its own kind only. */
  ghost predicate Sound(run: Run, w: Work)
    requires run.Fits()
  {
    && (forall e :: e in w.dirs ==> DirTask(run, e))
    && (forall t :: t in w.files ==> FileTask(run, t))
    && (forall t :: t in w.links ==> LinkTask(run, t))
    && (forall t :: t in w.symlinks ==> PointTask(run, t))
    && (forall e :: e in w.timed ==> TimedDir(run, e))
  }

  /** The list for `p`'s job names `p`, and a source directory is listed for its time. */
  ghost predicate Listed(run: Run, w: Work, p: Path)
    requires p in run.jobs && p in run.src
  {
    && (run.src[p].node.Dir? ==> p in EntryPaths(w.timed))
    && match run.jobs[p]
       case Keep => true
       case Make => p in EntryPaths(w.dirs)
       case Write => p in TaskPaths(w.files)
       case Link(_) => p in TaskPaths(w.links)
       case Point => p in TaskPaths(w.symlinks)
  }

  ghost predicate Complete(run: Run, w: Work)
    requires run.Fits()
  {
    Sound(run, w) && ParentsFirst(w.dirs) && forall p :: p in run.src ==> Listed(run, w, p)
  }

  ghost predicate TimedDir(run: Run, e: Entry) {
    e.rel in run.src && run.src[e.rel].node.Dir? && e == EntryOf(e.rel, run.src[e.rel])
  }

  /** What is made of entry `i` is of the kind its job asks for. */
  ghost predicate TaskFits(run: Run, i: nat)
    requires run.Fits() && i < |run.es| == |run.actions|
  {
    && (run.es[i].kind == KindDir ==> TimedDir(run, run.es[i]))
    && match JobAt(run.es, run.actions, run.hardLinks, i)
       case Keep => true
       case Make => DirTask(run, run.es[i])
       case Write => FileTask(run, TaskAt(run, i))
       case Link(_) => LinkTask(run, TaskAt(run, i))
       case Point => PointTask(run, TaskAt(run, i))
  }

  lemma {:induction false} EveryTaskFits(run: Run, i: nat)
    requires run.Valid() && i < |run.es|
    ensures TaskFits(run, i)
  {
    JobsOfEntry(run.es, run.actions, run.hardLinks, |run.es|, i);
    assert run.es[i] == EntryOf(run.es[i].rel, run.src[run.es[i].rel]);
    assert run.actions[i].entry == run.es[i];
  }

  lemma {:induction false} AssignIsSound(run: Run, w: Work, i: nat)
    requires run.Fits() && Sound(run, w) && i < |run.es| == |run.actions| && TaskFits(run, i)
    ensures Sound(run, Assign(run, w, i))
  {
  }

  lemma {:induction false} WorkIsSound(run: Run, n: nat)
    requires run.Fits() && n <= |run.es| == |run.actions|
    requires forall i :: 0 <= i < n ==> TaskFits(run, i)
    ensures Sound(run, WorkOf(run, n))
  {
    if n > 0 {
      WorkIsSound(run, n - 1);
      AssignIsSound(run, WorkOf(run, n - 1), n - 1);
    }
  }

  lemma {:induction false} WorkHolds(run: Run, n: nat, i: nat)
    requires i < n <= |run.es| == |run.actions|
    ensures var w := WorkOf(run, n);
            && (run.es[i].kind == KindDir ==> run.es[i] in w.timed)
            && match JobAt(run.es, run.actions, run.hardLinks, i)
               case Keep => true
               case Make => run.es[i] in w.dirs
               case Write => TaskAt(run, i) in w.files
               case Link(_) => TaskAt(run, i) in w.links
               case Point => TaskAt(run, i) in w.symlinks
  {
    if i < n - 1 {
      WorkHolds(run, n - 1, i);
    }
  }

  lemma {:induction false} DirsInOrder(run: Run, n: nat)
    requires n <= |run.es| == |run.actions| && ParentsFirst(run.es)
    ensures forall e :: e in WorkOf(run, n).dirs ==> e in run.es[..n]
    ensures ParentsFirst(WorkOf(run, n).dirs)
  {
    if n > 0 {
      DirsInOrder(run, n - 1);
      var before, e := WorkOf(run, n - 1).dirs, run.es[n - 1];
      assert run.es[..n] == run.es[..n - 1] + [e];
      forall j | 0 <= j < |before|
        ensures !(e.rel <= before[j].rel)
      {
        assert before[j] in run.es[..n - 1];
      }
    }
  }

  lemma {:induction false} JobListed(run: Run, p: Path)
    requires run.Valid() && p in run.src
    ensures Listed(run, WorkOf(run, |run.es|), p)
  {
    JobsOfDomain(run.es, run.actions, run.hardLinks, |run.es|, p);
    assert Lists(run.es, p);
    var i :| 0 <= i < |run.es| && run.es[i].rel == p;
    JobsOfEntry(run.es, run.actions, run.hardLinks, |run.es|, i);
    WorkHolds(run, |run.es|, i);
    assert run.es[i] == EntryOf(p, run.src[p]);
    assert TaskAt(run, i).entry.rel == p;
  }

  lemma {:induction false} WorkIsComplete(run: Run)
    requires run.Valid()
    ensures Complete(run, WorkOf(run, |run.es|))
  {
    forall i | 0 <= i < |run.es| {
      EveryTaskFits(run, i);
    }
    WorkIsSound(run, |run.es|);
    DirsInOrder(run, |run.es|);
    forall p | p in run.src {
      JobListed(run, p);
    }
  }

  // ---------- what the names of link temporaries cost ----------

  /** What is lost by placing these links one after another. */
  function LostBy(src: Tree, symlinks: seq<Task>, suffix: string): set<Path> {
    if symlinks == [] then {}
    else Taken(src, suffix, LostBy(src, symlinks[..|symlinks| - 1], suffix), symlinks[|symlinks| - 1].entry.rel)
  }

  /** What a run of this plan loses. */
  function Lost(run: Run, suffix: string): set<Path>
    requires |run.es| == |run.actions|
  {
    LostBy(run.src, WorkOf(run, |run.es|).symlinks, suffix)
  }

  predicate PlacesLink(run: Run, i: nat)
    requires i < |run.es| == |run.actions|
  {
    JobAt(run.es, run.actions, run.hardLinks, i).Point?
  }

  /** Entry `i` among the first `n` is a link made under the name `q`, and `q` itself is not placed after it. */
  ghost predicate Takes(run: Run, suffix: string, n: nat, i: nat, q: Path)
    requires i < n <= |run.es| == |run.actions|
  {
    && PlacesLink(run, i) && |run.es[i].rel| > 0 && TmpOf(run.es[i].rel, suffix) == q
    && forall j :: i < j < n && PlacesLink(run, j) ==> run.es[j].rel != q
  }

  lemma {:induction false} SymlinksOfMore(run: Run, n: nat)
    requires 0 < n <= |run.es| == |run.actions|
    ensures WorkOf(run, n).symlinks ==
            WorkOf(run, n - 1).symlinks + if PlacesLink(run, n - 1) then [TaskAt(run, n - 1)] else []
  {
  }

  lemma {:induction false} LostBySnoc(src: Tree, symlinks: seq<Task>, task: Task, suffix: string)
    ensures LostBy(src, symlinks + [task], suffix) == Taken(src, suffix, LostBy(src, symlinks, suffix), task.entry.rel)
  {
    assert (symlinks + [task])[..|symlinks|] == symlinks;
  }

  lemma {:induction false} TakesOfMore(run: Run, suffix: string, n: nat, i: nat, q: Path)
    requires i < n - 1 && n <= |run.es| == |run.actions|
    ensures Takes(run, suffix, n, i, q) <==>
            Takes(run, suffix, n - 1, i, q) && (PlacesLink(run, n - 1) ==> run.es[n - 1].rel != q)
  {
  }

  /** Some entry among the first `n` takes the name. */
  ghost predicate SomeTakes(run: Run, suffix: string, n: nat, q: Path)
    requires n <= |run.es| == |run.actions|
  {
    exists i :: 0 <= i < n && Takes(run, suffix, n, i, q)
  }

  lemma {:induction false} SomeTakesOfMore(run: Run, suffix: string, n: nat, q: Path)
    requires 0 < n <= |run.es| == |run.actions|
    ensures SomeTakes(run, suffix, n, q) <==>
            if PlacesLink(run, n - 1) then
              var p := run.es[n - 1].rel;
              p != q && ((|p| > 0 && TmpOf(p, suffix) == q) || SomeTakes(run, suffix, n - 1, q))
            else SomeTakes(run, suffix, n - 1, q)
  {
    var p := run.es[n - 1].rel;
    if |p| > 0 {
      TmpIsBeside(p, suffix);
    }
    forall i | 0 <= i < n - 1 {
      TakesOfMore(run, suffix, n, i, q);
    }
    if SomeTakes(run, suffix, n - 1, q) {
      var i :| 0 <= i < n - 1 && Takes(run, suffix, n - 1, i, q);
      assert Takes(run, suffix, n, i, q) <==> (PlacesLink(run, n - 1) ==> p != q);
    }
    if PlacesLink(run, n - 1) && |p| > 0 && TmpOf(p, suffix) == q {
      assert Takes(run, suffix, n, n - 1, q);
    }
  }

  lemma {:induction false} InTaken(src: Tree, suffix: string, lost: set<Path>, p: Path, q: Path)
    ensures q in Taken(src, suffix, lost, p) <==>
            q != p && ((|p| > 0 && TmpOf(p, suffix) == q && q in src) || q in lost)
  {
  }

  lemma {:induction false} LostExactlyTo(run: Run, suffix: string, n: nat, q: Path)
    requires n <= |run.es| == |run.actions|
    ensures q in LostBy(run.src, WorkOf(run, n).symlinks, suffix) <==> q in run.src && SomeTakes(run, suffix, n, q)
  {
    if n > 0 {
      LostExactlyTo(run, suffix, n - 1, q);
      SomeTakesOfMore(run, suffix, n, q);
      SymlinksOfMore(run, n);
      if PlacesLink(run, n - 1) {
        var before := WorkOf(run, n - 1).symlinks;
        LostBySnoc(run.src, before, TaskAt(run, n - 1), suffix);
        InTaken(run.src, suffix, LostBy(run.src, before, suffix), run.es[n - 1].rel, q);
      }
    } else {
      assert WorkOf(run, 0).symlinks == [] && !SomeTakes(run, suffix, 0, q);
    }
  }

  /**
   A source path is lost exactly if a link that is placed is made under its name, and it is not itself
   a link placed after that one.
   */
  lemma {:induction false} LostExactly(run: Run, suffix: string, q: Path)
    requires |run.es| == |run.actions|
    ensures q in Lost(run, suffix)
       <==> q in run.src && SomeTakes(run, suffix, |run.es|, q)
  {
    LostExactlyTo(run, suffix, |run.es|, q);
  }
}
