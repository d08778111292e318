/** What a run's work adds to its counts: entry by entry, in any order within a batch, and over the plan. */
module Tally {
  import opened Trees
  import opened Jobs
  import opened Plan
  import opened Report
  import opened Apply
  import opened Partition

  /** What some work adds to the counts. */
  datatype Sums = Sums(copied: nat, updated: nat, bytes: nat)

  function Add(a: Sums, b: Sums): Sums {
    Sums(a.copied + b.copied, a.updated + b.updated, a.bytes + b.bytes)
  }

  /** A task counts as what was planned for it; only a copy moves bytes. */
  function Worth(t: Task, copies: bool): Sums {
    Sums(if t.action == Copy then 1 else 0, if t.action == Update then 1 else 0, if copies then t.entry.len else 0)
  }

  /** A directory counts by what was there; behind a symlink it may count as either. */
  function DirWorth(dst: Tree, e: Entry): Sums {
    Sums(if e.rel in dst then 0 else 1, if Solid(dst, e.rel) then 1 else 0, 0)
  }

  function Worths(ts: seq<Task>, copies: bool): (r: seq<Sums>)
    ensures |r| == |ts| && forall k :: 0 <= k < |ts| ==> r[k] == Worth(ts[k], copies)
  {
    seq(|ts|, k requires 0 <= k < |ts| => Worth(ts[k], copies))
  }

  function DirWorths(dst: Tree, es: seq<Entry>): (r: seq<Sums>)
    ensures |r| == |es| && forall k :: 0 <= k < |es| ==> r[k] == DirWorth(dst, es[k])
  {
    seq(|es|, k requires 0 <= k < |es| => DirWorth(dst, es[k]))
  }

  /** The sum of the first `n`. */
  function Sum(ws: seq<Sums>, n: nat): Sums
    requires n <= |ws|
  {
    if n == 0 then Sums(0, 0, 0) else Add(Sum(ws, n - 1), ws[n - 1])
  }

  lemma {:induction false} SumOfSame(ws: seq<Sums>, vs: seq<Sums>, n: nat)
    requires n <= |ws| && n <= |vs| && forall k :: 0 <= k < n ==> ws[k] == vs[k]
    ensures Sum(ws, n) == Sum(vs, n)
  {
    if n > 0 {
      SumOfSame(ws, vs, n - 1);
    }
  }

  // ---------- any order ----------

  /** The indices from `start` up to but not including `end`. */
  function Indices(start: nat, end: nat): (s: set<nat>)
    requires start <= end
    ensures |s| == end - start
    ensures forall k :: k in s <==> start <= k < end
  {
    if start == end then {} else Indices(start, end - 1) + {end - 1}
  }

  /** The same sum over a set of positions. */
  ghost function Total(ws: seq<Sums>, some: set<nat>): Sums
    requires forall k :: k in some ==> k < |ws|
    decreases |some|
  {
    if some == {} then Sums(0, 0, 0)
    else
      var k :| k in some;
      Add(ws[k], Total(ws, some - {k}))
  }

  /** Whichever position is taken first. */
  lemma {:induction false} TakeOne(ws: seq<Sums>, some: set<nat>, k: nat)
    requires (forall j :: j in some ==> j < |ws|) && k in some
    ensures Total(ws, some) == Add(ws[k], Total(ws, some - {k}))
    decreases |some|
  {
    var j :| j in some && Total(ws, some) == Add(ws[j], Total(ws, some - {j}));
    if j != k {
      var rest := some - {j} - {k};
      assert rest == some - {k} - {j};
      TakeOne(ws, some - {j}, k);
      TakeOne(ws, some - {k}, j);
      assert Total(ws, some) == Add(ws[j], Add(ws[k], Total(ws, rest)));
    }
  }

  /** A batch done in any order adds what it would in order. */
  lemma {:induction false} BatchTotal(ws: seq<Sums>, start: nat, end: nat)
    requires start <= end <= |ws|
    ensures Add(Sum(ws, start), Total(ws, Indices(start, end))) == Sum(ws, end)
    decreases end - start
  {
    if start < end {
      var all := Indices(start, end);
      TakeOne(ws, all, end - 1);
      assert all - {end - 1} == Indices(start, end - 1);
      BatchTotal(ws, start, end - 1);
    }
  }

  /** From `a` to `b` the counts grew by `w`, what is `left` set apart; directories may add to either count. */
  predicate Grown(a: Stats, b: Stats, w: Sums, left: Sums) {
    && b.copied + left.copied >= a.copied + w.copied
    && b.updated + left.updated >= a.updated + w.updated
    && b.bytes + left.bytes == a.bytes + w.bytes
    && b.skipped == a.skipped
  }

  /** The counts grew by `w`. */
  predicate GrownBy(a: Stats, b: Stats, w: Sums) {
    && b.copied >= a.copied + w.copied && b.updated >= a.updated + w.updated
    && b.bytes == a.bytes + w.bytes && b.skipped == a.skipped
  }

  lemma {:induction false} GrownOne(a: Stats, b: Stats, c: Stats, ws: seq<Sums>, all: set<nat>, left: set<nat>, k: nat)
    requires (forall j :: j in all || j in left ==> j < |ws|) && k in left
    requires Grown(a, b, Total(ws, all), Total(ws, left)) && GrownBy(b, c, ws[k])
    ensures Grown(a, c, Total(ws, all), Total(ws, left - {k}))
  {
    TakeOne(ws, left, k);
  }

  /** A batch of positions done, on top of all before it. */
  lemma {:induction false} GrownBatch(a: Stats, b: Stats, c: Stats, ws: seq<Sums>, start: nat, end: nat)
    requires start <= end <= |ws| && GrownBy(a, b, Sum(ws, start))
    requires GrownBy(b, c, Total(ws, Indices(start, end)))
    ensures GrownBy(a, c, Sum(ws, end))
  {
    BatchTotal(ws, start, end);
  }

  lemma {:induction false} GrownNext(a: Stats, b: Stats, c: Stats, ws: seq<Sums>, i: nat)
    requires i < |ws| && GrownBy(a, b, Sum(ws, i)) && GrownBy(b, c, ws[i])
    ensures GrownBy(a, c, Sum(ws, i + 1))
  {
  }

  // ---------- over the plan ----------

  /** How many of the first `n` entries are files or links with this action. */
  function Others(run: Run, action: Action, n: nat): nat
    requires n <= |run.es| == |run.actions|
  {
    if n == 0 then 0
    else
      var counts := run.es[n - 1].kind != KindDir && run.actions[n - 1].action == action;
      Others(run, action, n - 1) + if counts then 1 else 0
  }

  function Skipped(run: Run, n: nat): nat
    requires n <= |run.es| == |run.actions|
  {
    if n == 0 then 0 else Skipped(run, n - 1) + if run.actions[n - 1].action == Skip then 1 else 0
  }

  predicate MakesDir(run: Run, i: nat)
    requires i < |run.es| == |run.actions|
  {
    run.es[i].kind == KindDir && run.actions[i].action != Skip
  }

  /** Directories to be made where there was nothing. */
  function NewDirs(run: Run, n: nat): nat
    requires n <= |run.es| == |run.actions|
  {
    if n == 0 then 0
    else NewDirs(run, n - 1) + if MakesDir(run, n - 1) && run.es[n - 1].rel !in run.dst then 1 else 0
  }

  /** Directories to be made where there was something other than a symlink. */
  function OldDirs(run: Run, n: nat): nat
    requires n <= |run.es| == |run.actions|
  {
    if n == 0 then 0
    else OldDirs(run, n - 1) + if MakesDir(run, n - 1) && Solid(run.dst, run.es[n - 1].rel) then 1 else 0
  }

  /** A file that is not skipped and not linked to an earlier name. */
  predicate IsCopied(run: Run, i: nat)
    requires i < |run.es| == |run.actions|
  {
    IsFile(run.es[i]) && run.actions[i].action != Skip && !(run.hardLinks && IsDuplicate(run.es, i))
  }

  /** The lengths of the files to be copied. */
  function Volume(run: Run, n: nat): nat
    requires n <= |run.es| == |run.actions|
  {
    if n == 0 then 0 else Volume(run, n - 1) + if IsCopied(run, n - 1) then run.es[n - 1].len else 0
  }

  /** What a list of tasks is worth. */
  function ListSum(ts: seq<Task>, copies: bool): Sums {
    Sum(Worths(ts, copies), |ts|)
  }

  function DirSum(dst: Tree, es: seq<Entry>): Sums {
    Sum(DirWorths(dst, es), |es|)
  }

  lemma {:induction false} ListSumSnoc(ts: seq<Task>, t: Task, copies: bool)
    ensures ListSum(ts + [t], copies) == Add(ListSum(ts, copies), Worth(t, copies))
  {
    SumOfSame(Worths(ts + [t], copies), Worths(ts, copies), |ts|);
  }

  lemma {:induction false} DirSumSnoc(dst: Tree, es: seq<Entry>, e: Entry)
    ensures DirSum(dst, es + [e]) == Add(DirSum(dst, es), DirWorth(dst, e))
  {
    SumOfSame(DirWorths(dst, es + [e]), DirWorths(dst, es), |es|);
  }

  // ---------- list by list ----------

  datatype Phase = InFiles | InLinks | InSymlinks

  function ListOf(w: Work, phase: Phase): seq<Task> {
    match phase
    case InFiles => w.files
    case InLinks => w.links
    case InSymlinks => w.symlinks
  }

  /** Entry `i` is placed in this phase. */
  predicate PlacedIn(run: Run, phase: Phase, i: nat)
    requires i < |run.es| == |run.actions|
  {
    var job := JobAt(run.es, run.actions, run.hardLinks, i);
    match phase
    case InFiles => job.Write?
    case InLinks => job.Link?
    case InSymlinks => job.Point?
  }

  /** What the entries placed in a phase are worth. */
  function PhaseSum(run: Run, phase: Phase, n: nat): Sums
    requires n <= |run.es| == |run.actions|
  {
    if n == 0 then Sums(0, 0, 0)
    else if PlacedIn(run, phase, n - 1) then Add(PhaseSum(run, phase, n - 1), Worth(TaskAt(run, n - 1), phase.InFiles?))
    else PhaseSum(run, phase, n - 1)
  }

  lemma {:induction false} ListOfMore(run: Run, phase: Phase, n: nat)
    requires 0 < n <= |run.es| == |run.actions|
    ensures ListOf(WorkOf(run, n), phase) ==
            ListOf(WorkOf(run, n - 1), phase) + if PlacedIn(run, phase, n - 1) then [TaskAt(run, n - 1)] else []
  {
  }

  lemma {:induction false} ListAddsUp(run: Run, phase: Phase, n: nat)
    requires n <= |run.es| == |run.actions|
    ensures ListSum(ListOf(WorkOf(run, n), phase), phase.InFiles?) == PhaseSum(run, phase, n)
  {
    if n > 0 {
      var before := ListOf(WorkOf(run, n - 1), phase);
      ListAddsUp(run, phase, n - 1);
      ListOfMore(run, phase, n);
      if PlacedIn(run, phase, n - 1) {
        ListSumSnoc(before, TaskAt(run, n - 1), phase.InFiles?);
      } else {
        assert before + [] == before;
      }
    }
  }

  /** The three phases together are worth what the plan says. */
  lemma {:induction false} PhasesAddUp(run: Run, n: nat)
    requires n <= |run.es| == |run.actions|
    ensures var a, b, c := PhaseSum(run, InFiles, n), PhaseSum(run, InLinks, n), PhaseSum(run, InSymlinks, n);
            && a.copied + b.copied + c.copied == Others(run, Copy, n)
            && a.updated + b.updated + c.updated == Others(run, Update, n)
            && a.bytes == Volume(run, n) && b.bytes == 0 && c.bytes == 0
  {
    if n > 0 {
      PhasesAddUp(run, n - 1);
    }
  }

  lemma {:induction false} DirsOfMore(run: Run, n: nat)
    requires 0 < n <= |run.es| == |run.actions|
    ensures var v, w := WorkOf(run, n), WorkOf(run, n - 1);
            && v.dirs == w.dirs + (if MakesDir(run, n - 1) then [run.es[n - 1]] else [])
            && Size(v) == Size(w) + if run.actions[n - 1].action == Skip then 0 else 1
  {
  }

  lemma {:induction false} DirsAddUp(run: Run, n: nat)
    requires n <= |run.es| == |run.actions|
    ensures DirSum(run.dst, WorkOf(run, n).dirs) == Sums(NewDirs(run, n), OldDirs(run, n), 0)
  {
    if n > 0 {
      var before := WorkOf(run, n - 1).dirs;
      DirsAddUp(run, n - 1);
      DirsOfMore(run, n);
      if MakesDir(run, n - 1) {
        DirSumSnoc(run.dst, before, run.es[n - 1]);
      } else {
        assert before + [] == before;
      }
    }
  }

  lemma {:induction false} SizesAddUp(run: Run, n: nat)
    requires n <= |run.es| == |run.actions|
    ensures Size(WorkOf(run, n)) + Skipped(run, n) == n
  {
    if n > 0 {
      SizesAddUp(run, n - 1);
      DirsOfMore(run, n);
    }
  }

  /**
   What a run without errors has counted: what was skipped; in all every entry once; at least the files
   and links planned as copies, or as updates, with the directories that were new, or there before; and
   the bytes of the files it copied. A directory whose place a symlink had may count as either.
   */
  ghost predicate Counted(run: Run, s: Stats)
    requires |run.es| == |run.actions|
  {
    var n := |run.es|;
    && s.skipped == Skipped(run, n) && s.copied + s.updated + s.skipped == n
    && s.copied >= Others(run, Copy, n) + NewDirs(run, n)
    && s.updated >= Others(run, Update, n) + OldDirs(run, n)
    && s.bytes == Volume(run, n)
  }

  /** What the lists of files, links and symlinks are worth together. */
  function ListsSum(w: Work): Sums {
    Add(ListSum(w.files, true), Add(ListSum(w.links, false), ListSum(w.symlinks, false)))
  }

  /** What all four lists are worth. */
  function WorkSum(dst: Tree, w: Work): Sums {
    Add(DirSum(dst, w.dirs), ListsSum(w))
  }

  lemma {:induction false} GrownTwice(a: Stats, b: Stats, c: Stats, v: Sums, w: Sums)
    requires GrownBy(a, b, v) && GrownBy(b, c, w)
    ensures GrownBy(a, c, Add(v, w))
  {
  }

  lemma {:induction false} RunIsCounted(run: Run, w: Work, a: Stats, s: Stats)
    requires |run.es| == |run.actions| && w == WorkOf(run, |run.es|) && GrownBy(a, s, WorkSum(run.dst, w))
    requires a.copied == a.updated == a.bytes == 0 && a.skipped + Size(w) == |run.es|
    requires s.copied + s.updated + s.skipped == |run.es|
    ensures Counted(run, s)
  {
    var n := |run.es|;
    DirsAddUp(run, n);
    SizesAddUp(run, n);
    ListAddsUp(run, InFiles, n);
    ListAddsUp(run, InLinks, n);
    ListAddsUp(run, InSymlinks, n);
    PhasesAddUp(run, n);
  }

  /** Where no directory is made in place of a symlink the two counts are exact. */
  lemma {:induction false} CountsAreExact(run: Run, s: Stats)
    requires |run.es| == |run.actions| && Counted(run, s)
    requires forall i :: 0 <= i < |run.es| && run.es[i].kind == KindDir && run.es[i].rel in run.dst ==>
               !run.dst[run.es[i].rel].node.Symlink?
    ensures s.copied == Others(run, Copy, |run.es|) + NewDirs(run, |run.es|)
    ensures s.updated == Others(run, Update, |run.es|) + OldDirs(run, |run.es|)
  {
    EveryEntryIsOne(run, |run.es|);
  }

  lemma {:induction false} EveryEntryIsOne(run: Run, n: nat)
    requires n <= |run.es| == |run.actions|
    requires forall i :: 0 <= i < n && run.es[i].kind == KindDir && run.es[i].rel in run.dst ==>
               !run.dst[run.es[i].rel].node.Symlink?
    ensures Others(run, Copy, n) + Others(run, Update, n) + NewDirs(run, n) + OldDirs(run, n) +
            Skipped(run, n) == n
  {
    if n > 0 {
      EveryEntryIsOne(run, n - 1);
    }
  }
}
