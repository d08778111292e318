/** The apply phases over the partitioned work, and `apply_real`, which runs them in order. */
module Phases {
  import opened Trees
  import opened Steps
  import opened Jobs
  import opened Plan
  import opened Destination
  import opened Apply
  import opened Partition
  import opened Report
  import opened Tally

  // ---------- 1. directories ----------

  /** Where the run of equal depth that starts at `start` ends. */
  method BatchEnd(dirs: seq<Entry>, start: nat) returns (end: nat)
    requires start < |dirs|
    ensures start < end <= |dirs|
    ensures forall k :: start <= k < end ==> |dirs[k].rel| == |dirs[start].rel|
    ensures end < |dirs| ==> |dirs[end].rel| != |dirs[start].rel|
  {
    end := start + 1;
    while end < |dirs| && |dirs[end].rel| == |dirs[start].rel|
      invariant start < end <= |dirs|
      invariant forall k :: start <= k < end ==> |dirs[k].rel| == |dirs[start].rel|
    {
      end := end + 1;
    }
  }

  /** Everything listed before `start` is written, so the parents of the batch at `start` are settled. */
  lemma {:induction false} BatchParentsSettled(run: Run, written: map<Path, Obj>, dirs: seq<Entry>, start: nat,
                                               end: nat, k: nat)
    requires run.Fits() && ParentsFirst(dirs) && start <= k < end <= |dirs|
    requires forall e :: e in dirs ==> DirTask(run, e)
    requires forall p :: p in Makes(run.jobs) ==> p in EntryPaths(dirs)
    requires forall j :: start <= j < end ==> |dirs[j].rel| == |dirs[start].rel|
    requires forall j :: 0 <= j < start ==> dirs[j].rel in written
    requires |dirs[k].rel| > 1
    ensures DirsDone(run.src, run.dst, written, Parent(dirs[k].rel))
  {
    var q := Parent(dirs[k].rel);
    if q in run.jobs && run.jobs[q].Make? {
      assert q in Makes(run.jobs);
      var e :| e in dirs && e.rel == q;
      var j :| 0 <= j < |dirs| && dirs[j] == e;
      assert j < start;
    }
    SettledMeansDone(run, written, q);
  }

  /** One depth batch, in any order; a worker that sees the run cancelled does nothing. */
  method CreateBatch(d: Destination, dirs: seq<Entry>, start: nat, end: nat, run: Run)
    requires run.Fits() && OnCourse(run, d) && start <= end <= |dirs|
    requires forall e :: e in dirs ==> DirTask(run, e)
    requires d.stats.errors == 0 ==> NoLinksYet(run, d.written)
    requires d.stats.errors == 0 ==> forall k :: start <= k < end && |dirs[k].rel| > 1 ==>
               DirsDone(run.src, run.dst, d.written, Parent(dirs[k].rel))
    requires ParentsFirst(dirs) && d.lost == {} && (d.stats.errors == 0 ==> Pending(dirs, d.written, start))
    modifies d
    ensures d.lost == old(d.lost)
    ensures OnCourse(run, d) && d.stats.deleted == old(d.stats.deleted) && (old(d.cancelled) ==> d.cancelled)
    ensures old(d.stats.errors) <= d.stats.errors
    ensures !d.cancelled ==> d.stats.Handled() == old(d.stats.Handled()) + (end - start)
    ensures d.stats.errors == 0 ==> NoLinksYet(run, d.written) && old(d.written).Keys <= d.written.Keys
    ensures !d.cancelled && d.stats.errors == 0 ==> forall k :: start <= k < end ==> dirs[k].rel in d.written
    ensures d.stats.errors == 0 ==> Pending(dirs, d.written, end)
    ensures !d.cancelled && d.stats.errors == 0 ==>
              GrownBy(old(d.stats), d.stats, Total(DirWorths(run.dst, dirs), Indices(start, end)))
  {
    var remaining := Indices(start, end);
    ghost var all := remaining;
    while remaining != {}
      invariant remaining <= all && d.lost == old(d.lost) && (old(d.cancelled) ==> d.cancelled)
      invariant Making(run, d, dirs, end, all, remaining, old(d.stats), old(d.written))
      decreases remaining
    {
      remaining := MakeNext(d, dirs, end, remaining, run, all, old(d.stats), old(d.written));
    }
  }

  /** A batch under way: `all` of it began with the counts `a` and `w` written, and `left` is still to do. */
  ghost predicate Making(run: Run, d: Destination, dirs: seq<Entry>, end: nat, all: set<nat>, left: set<nat>, a: Stats,
                         w: map<Path, Obj>)
    requires run.Fits() && forall k :: k in all || k in left ==> k < end <= |dirs|
    reads d
  {
    && OnCourse(run, d) && d.stats.deleted == a.deleted && a.errors <= d.stats.errors
    && (!d.cancelled ==> d.stats.Handled() + |left| == a.Handled() + |all|)
    && (d.stats.errors == 0 ==>
          && NoLinksYet(run, d.written) && w.Keys <= d.written.Keys
          && Pending(dirs, d.written, end) && NoneMade(dirs, d.written, left))
    && (!d.cancelled && d.stats.errors == 0 ==>
          && (forall k :: k in all && k !in left ==> dirs[k].rel in d.written)
          && var ws := DirWorths(run.dst, dirs); Grown(a, d.stats, Total(ws, all), Total(ws, left)))
  }

  /** Any one of what is left, unless the run is seen to be cancelled. */
  method MakeNext(d: Destination, dirs: seq<Entry>, end: nat, remaining: set<nat>, run: Run, ghost all: set<nat>,
                  ghost a: Stats, ghost w: map<Path, Obj>)
    returns (rest: set<nat>)
    requires run.Fits() && ParentsFirst(dirs) && d.lost == {} && remaining != {} && remaining <= all
    requires forall k :: k in all ==> k < end <= |dirs| && DirTask(run, dirs[k])
    requires Making(run, d, dirs, end, all, remaining, a, w)
    requires d.stats.errors == 0 ==> forall k :: k in all && |dirs[k].rel| > 1 ==>
               DirsDone(run.src, run.dst, w, Parent(dirs[k].rel))
    modifies d
    ensures rest < remaining && d.lost == old(d.lost) && (old(d.cancelled) ==> d.cancelled)
    ensures Making(run, d, dirs, end, all, rest, a, w)
  {
    var k :| k in remaining;
    rest := remaining - {k};
    var go := d.Checkpoint();
    if go {
      assert d.stats.errors == 0 ==> w.Keys <= d.written.Keys;
      MakeOne(d, dirs, k, end, run, a, all, remaining);
    }
  }

  /** One directory of a batch and its count. */
  method MakeOne(d: Destination, dirs: seq<Entry>, k: nat, end: nat, run: Run, ghost a: Stats, ghost all: set<nat>,
                 ghost left: set<nat>)
    requires run.Fits() && OnCourse(run, d) && k < |dirs| && DirTask(run, dirs[k]) && d.lost == {}
    requires ParentsFirst(dirs) && k < end
    requires d.stats.errors == 0 ==> Pending(dirs, d.written, end) && NoneMade(dirs, d.written, left)
    requires (forall j :: j in all || j in left ==> j < |dirs|) && k in left
    requires d.stats.errors == 0 ==>
               && NoLinksYet(run, d.written)
               && (|dirs[k].rel| > 1 ==> DirsDone(run.src, run.dst, d.written, Parent(dirs[k].rel)))
               && var ws := DirWorths(run.dst, dirs); Grown(a, d.stats, Total(ws, all), Total(ws, left))
    modifies d
    ensures OnCourse(run, d) && d.cancelled == old(d.cancelled) && d.lost == old(d.lost)
    ensures CountedOnce(old(d.stats), d.stats, d.stats.errors == old(d.stats.errors))
    ensures d.stats.errors == 0 ==>
              && NoLinksYet(run, d.written) && d.written.Keys == old(d.written).Keys + {dirs[k].rel}
              && Pending(dirs, d.written, end) && NoneMade(dirs, d.written, left - {k})
              && var ws := DirWorths(run.dst, dirs); Grown(a, d.stats, Total(ws, all), Total(ws, left - {k}))
  {
    ghost var before, w := d.stats, d.written;
    DoDirectory(d, dirs[k], run);
    if d.stats.errors == 0 {
      OneMade(dirs, w, d.written, end, left, k);
      GrownOne(a, before, d.stats, DirWorths(run.dst, dirs), all, left, k);
    }
  }

  /** None of the directories listed from `start` on has been made. */
  ghost predicate Pending(dirs: seq<Entry>, written: map<Path, Obj>, start: nat) {
    forall k :: start <= k < |dirs| ==> dirs[k].rel !in written
  }

  ghost predicate NoneMade(dirs: seq<Entry>, written: map<Path, Obj>, some: set<nat>) {
    forall k :: k in some && k < |dirs| ==> dirs[k].rel !in written
  }

  lemma {:induction false} OneMade(dirs: seq<Entry>, before: map<Path, Obj>, now: map<Path, Obj>, end: nat,
                                   left: set<nat>, k: nat)
    requires ParentsFirst(dirs) && k < |dirs| && k < end && now.Keys == before.Keys + {dirs[k].rel}
    requires Pending(dirs, before, end) && NoneMade(dirs, before, left)
    ensures Pending(dirs, now, end) && NoneMade(dirs, now, left - {k})
  {
    forall j | 0 <= j < |dirs| && j != k && dirs[j].rel !in before
      ensures dirs[j].rel !in now
    {
      assert dirs[j].rel in now.Keys <==> dirs[j].rel == dirs[k].rel;
    }
  }

  method CreateDirectories(d: Destination, dirs: seq<Entry>, run: Run) returns (ok: bool)
    requires run.Fits() && OnCourse(run, d) && ParentsFirst(dirs)
    requires forall e :: e in dirs ==> DirTask(run, e)
    requires forall p :: p in Makes(run.jobs) ==> p in EntryPaths(dirs)
    requires d.stats.errors == 0 ==> NoLinksYet(run, d.written)
    requires d.lost == {} && d.written == map[]
    modifies d
    ensures d.lost == old(d.lost)
    ensures !ok ==> d.cancelled
    ensures OnCourse(run, d) && d.stats.deleted == old(d.stats.deleted)
    ensures ok ==> d.stats.Handled() == old(d.stats.Handled()) + |dirs|
    ensures ok && d.stats.errors == 0 ==> NoLinksYet(run, d.written) && DirsSettled(run, d.written)
    ensures ok && d.stats.errors == 0 ==> GrownBy(old(d.stats), d.stats, DirSum(run.dst, dirs))
  {
    var start := 0;
    ghost var ws := DirWorths(run.dst, dirs);
    while start < |dirs|
      invariant d.lost == old(d.lost)
      invariant start <= |dirs| && OnCourse(run, d) && d.stats.deleted == old(d.stats.deleted)
      invariant d.stats.Handled() == old(d.stats.Handled()) + start
      invariant d.stats.errors == 0 ==>
                  NoLinksYet(run, d.written) && forall k :: 0 <= k < start ==> dirs[k].rel in d.written
      invariant d.stats.errors == 0 ==>
                  Pending(dirs, d.written, start) && GrownBy(old(d.stats), d.stats, Sum(ws, start))
    {
      ok := d.Checkpoint();
      if !ok {
        return;
      }
      var end := BatchEnd(dirs, start);
      if d.stats.errors == 0 {
        forall k | start <= k < end && |dirs[k].rel| > 1
          ensures DirsDone(run.src, run.dst, d.written, Parent(dirs[k].rel))
        {
          BatchParentsSettled(run, d.written, dirs, start, end, k);
        }
      }
      ghost var before := d.stats;
      CreateBatch(d, dirs, start, end, run);
      ok := d.Checkpoint();
      if !ok {
        return;
      }
      if d.stats.errors == 0 {
        GrownBatch(old(d.stats), before, d.stats, ws, start, end);
      }
      start := end;
    }
    ok := true;
  }

  // ---------- 2. files ----------

  /** One chunk of copies, in any order. */
  method CopyChunk(d: Destination, files: seq<Task>, start: nat, end: nat, run: Run)
    requires run.Fits() && OnCourse(run, d) && start <= end <= |files|
    requires forall t :: t in files ==> FileTask(run, t)
    requires d.stats.errors == 0 ==> NoLinksYet(run, d.written) && DirsSettled(run, d.written)
    requires d.lost == {}
    modifies d
    ensures d.lost == old(d.lost) && (old(d.cancelled) ==> d.cancelled)
    ensures Copying(run, d, files, Indices(start, end), {}, old(d.stats), old(d.written))
  {
    var remaining := Indices(start, end);
    ghost var all := remaining;
    while remaining != {}
      invariant remaining <= all && d.lost == old(d.lost) && (old(d.cancelled) ==> d.cancelled)
      invariant Copying(run, d, files, all, remaining, old(d.stats), old(d.written))
      decreases remaining
    {
      remaining := CopyNext(d, files, remaining, run, all, old(d.stats), old(d.written));
    }
  }

  /** A chunk under way: `all` of it began with the counts `a` and `w` written, and `left` is still to do. */
  ghost predicate Copying(run: Run, d: Destination, files: seq<Task>, all: set<nat>, left: set<nat>, a: Stats,
                          w: map<Path, Obj>)
    requires run.Fits() && forall k :: k in all || k in left ==> k < |files|
    reads d
  {
    && OnCourse(run, d) && d.stats.deleted == a.deleted && a.errors <= d.stats.errors
    && (!d.cancelled ==> d.stats.Handled() + |left| == a.Handled() + |all|)
    && (d.stats.errors == 0 ==> NoLinksYet(run, d.written) && w.Keys <= d.written.Keys)
    && (!d.cancelled && d.stats.errors == 0 ==>
          && (forall k :: k in all && k !in left ==> files[k].entry.rel in d.written)
          && var ws := Worths(files, true); Grown(a, d.stats, Total(ws, all), Total(ws, left)))
  }

  /** The first `n` tasks are done. */
  ghost predicate AllPlaced(ts: seq<Task>, written: map<Path, Obj>, n: nat)
    requires n <= |ts|
  {
    forall k :: 0 <= k < n ==> ts[k].entry.rel in written
  }

  /** A chunk done, on top of all before it. */
  lemma {:induction false} ChunkDone(run: Run, d: Destination, files: seq<Task>, start: nat, end: nat, first: Stats,
                                     a: Stats, w: map<Path, Obj>)
    requires run.Fits() && start <= end <= |files| && Copying(run, d, files, Indices(start, end), {}, a, w)
    requires a.errors == 0 ==> AllPlaced(files, w, start) && GrownBy(first, a, Sum(Worths(files, true), start))
    ensures !d.cancelled ==> d.stats.Handled() == a.Handled() + (end - start)
    ensures !d.cancelled && d.stats.errors == 0 ==>
              AllPlaced(files, d.written, end) && GrownBy(first, d.stats, Sum(Worths(files, true), end))
  {
    if !d.cancelled && d.stats.errors == 0 {
      GrownBatch(first, a, d.stats, Worths(files, true), start, end);
    }
  }

  /** Any one of what is left, unless the run is seen to be cancelled. */
  method CopyNext(d: Destination, files: seq<Task>, remaining: set<nat>, run: Run, ghost all: set<nat>, ghost a: Stats,
                  ghost w: map<Path, Obj>)
    returns (rest: set<nat>)
    requires run.Fits() && d.lost == {} && remaining != {} && remaining <= all
    requires forall k :: k in all ==> k < |files| && FileTask(run, files[k])
    requires Copying(run, d, files, all, remaining, a, w) && (d.stats.errors == 0 ==> DirsSettled(run, w))
    modifies d
    ensures rest < remaining && d.lost == old(d.lost) && (old(d.cancelled) ==> d.cancelled)
    ensures Copying(run, d, files, all, rest, a, w)
  {
    var k :| k in remaining;
    rest := remaining - {k};
    var go := d.Checkpoint();
    if go {
      CopyOne(d, files, k, run, a, all, remaining);
    }
  }

  /** One copy of a chunk and its count. */
  method CopyOne(d: Destination, files: seq<Task>, k: nat, run: Run, ghost a: Stats, ghost all: set<nat>,
                 ghost left: set<nat>)
    requires run.Fits() && OnCourse(run, d) && k < |files| && FileTask(run, files[k]) && d.lost == {}
    requires (forall j :: j in all || j in left ==> j < |files|) && k in left
    requires d.stats.errors == 0 ==>
               && NoLinksYet(run, d.written) && DirsSettled(run, d.written)
               && var ws := Worths(files, true); Grown(a, d.stats, Total(ws, all), Total(ws, left))
    modifies d
    ensures OnCourse(run, d) && d.cancelled == old(d.cancelled) && d.lost == old(d.lost)
    ensures CountedOnce(old(d.stats), d.stats, d.stats.errors == old(d.stats.errors))
    ensures d.stats.errors == 0 ==>
              && NoLinksYet(run, d.written) && d.written.Keys == old(d.written).Keys + {files[k].entry.rel}
              && var ws := Worths(files, true); Grown(a, d.stats, Total(ws, all), Total(ws, left - {k}))
  {
    ghost var before := d.stats;
    DoFile(d, files[k], run);
    if d.stats.errors == 0 {
      GrownOne(a, before, d.stats, Worths(files, true), all, left, k);
    }
  }

  /** `copy_files_portable`: chunks of twice the thread count, each finished before the next starts. */
  method CopyFiles(d: Destination, files: seq<Task>, threads: nat, run: Run) returns (ok: bool)
    requires run.Fits() && OnCourse(run, d)
    requires forall t :: t in files ==> FileTask(run, t)
    requires d.stats.errors == 0 ==> NoLinksYet(run, d.written) && DirsSettled(run, d.written)
    requires d.lost == {}
    modifies d
    ensures d.lost == old(d.lost)
    ensures !ok ==> d.cancelled
    ensures OnCourse(run, d) && d.stats.deleted == old(d.stats.deleted) && old(d.stats.errors) <= d.stats.errors
    ensures ok ==> d.stats.Handled() == old(d.stats.Handled()) + |files|
    ensures ok && d.stats.errors == 0 ==>
              DirsSettled(run, d.written) && forall k :: 0 <= k < |files| ==> files[k].entry.rel in d.written
    ensures ok && d.stats.errors == 0 ==> GrownBy(old(d.stats), d.stats, ListSum(files, true))
  {
    var chunk := (if threads < 1 then 1 else threads) * 2;
    var start := 0;
    ghost var ws := Worths(files, true);
    while start < |files|
      invariant d.lost == {} && old(d.stats.errors) <= d.stats.errors
      invariant start <= |files| && OnCourse(run, d) && d.stats.deleted == old(d.stats.deleted)
      invariant d.stats.Handled() == old(d.stats.Handled()) + start
      invariant d.stats.errors == 0 ==> NoLinksYet(run, d.written) && DirsSettled(run, d.written)
      invariant d.stats.errors == 0 ==> AllPlaced(files, d.written, start)
      invariant d.stats.errors == 0 ==> GrownBy(old(d.stats), d.stats, Sum(ws, start))
    {
      ok := d.Checkpoint();
      if !ok {
        return;
      }
      var end := if start + chunk < |files| then start + chunk else |files|;
      ghost var before, w := d.stats, d.written;
      CopyChunk(d, files, start, end, run);
      ChunkDone(run, d, files, start, end, old(d.stats), before, w);
      ok := d.Checkpoint();
      if !ok {
        return;
      }
      start := end;
    }
    ok := true;
  }

  // ---------- 3. hard links, 4. symlinks ----------

  method CopyHardlinks(d: Destination, links: seq<Task>, run: Run) returns (ok: bool)
    requires run.Fits() && OnCourse(run, d)
    requires forall t :: t in links ==> LinkTask(run, t)
    requires d.stats.errors == 0 ==> DirsSettled(run, d.written) && Writes(run.jobs) <= d.written.Keys
    requires d.lost == {}
    modifies d
    ensures d.lost == old(d.lost)
    ensures !ok ==> d.cancelled
    ensures OnCourse(run, d) && d.stats.deleted == old(d.stats.deleted) && old(d.stats.errors) <= d.stats.errors
    ensures ok ==> d.stats.Handled() == old(d.stats.Handled()) + |links|
    ensures d.stats.errors == 0 ==> old(d.written).Keys <= d.written.Keys
    ensures ok && d.stats.errors == 0 ==> forall k :: 0 <= k < |links| ==> links[k].entry.rel in d.written
    ensures ok && d.stats.errors == 0 ==> GrownBy(old(d.stats), d.stats, ListSum(links, false))
  {
    ghost var ws := Worths(links, false);
    for i := 0 to |links|
      invariant d.lost == {}
      invariant OnCourse(run, d) && d.stats.deleted == old(d.stats.deleted) && old(d.stats.errors) <= d.stats.errors
      invariant d.stats.Handled() == old(d.stats.Handled()) + i
      invariant d.stats.errors == 0 ==> old(d.written).Keys <= d.written.Keys
      invariant d.stats.errors == 0 ==> AllPlaced(links, d.written, i)
      invariant d.stats.errors == 0 ==> GrownBy(old(d.stats), d.stats, Sum(ws, i))
    {
      ok := d.Checkpoint();
      if !ok {
        return;
      }
      LinkOne(d, links, i, run, old(d.stats));
    }
    ok := true;
  }

  /** One hard link and its count. */
  method LinkOne(d: Destination, links: seq<Task>, i: nat, run: Run, ghost a: Stats)
    requires run.Fits() && OnCourse(run, d) && i < |links| && LinkTask(run, links[i]) && d.lost == {}
    requires d.stats.errors == 0 ==>
               DirsSettled(run, d.written) && Writes(run.jobs) <= d.written.Keys &&
               GrownBy(a, d.stats, Sum(Worths(links, false), i)) && AllPlaced(links, d.written, i)
    modifies d
    ensures OnCourse(run, d) && d.cancelled == old(d.cancelled) && d.lost == old(d.lost)
    ensures CountedOnce(old(d.stats), d.stats, d.stats.errors == old(d.stats.errors))
    ensures d.stats.errors == 0 ==>
              d.written.Keys == old(d.written).Keys + {links[i].entry.rel} &&
              GrownBy(a, d.stats, Sum(Worths(links, false), i + 1)) && AllPlaced(links, d.written, i + 1)
  {
    ghost var before := d.stats;
    DoLink(d, links[i], run);
    if d.stats.errors == 0 {
      GrownNext(a, before, d.stats, Worths(links, false), i);
    }
  }

  method PlaceSymlinks(d: Destination, symlinks: seq<Task>, run: Run) returns (ok: bool)
    requires run.Fits() && OnCourse(run, d)
    requires forall t :: t in symlinks ==> PointTask(run, t)
    requires d.stats.errors == 0 ==> DirsSettled(run, d.written) && d.lost == {}
    modifies d
    ensures !ok ==> d.cancelled
    ensures OnCourse(run, d) && d.stats.deleted == old(d.stats.deleted) && old(d.stats.errors) <= d.stats.errors
    ensures ok ==> d.stats.Handled() == old(d.stats.Handled()) + |symlinks|
    ensures d.stats.errors == 0 ==> old(d.written).Keys <= d.written.Keys
    ensures ok && d.stats.errors == 0 ==> forall k :: 0 <= k < |symlinks| ==> symlinks[k].entry.rel in d.written
    ensures ok && d.stats.errors == 0 ==> GrownBy(old(d.stats), d.stats, ListSum(symlinks, false))
    ensures ok && d.stats.errors == 0 ==> d.lost == LostBy(run.src, symlinks, d.suffix)
  {
    ghost var ws := Worths(symlinks, false);
    for i := 0 to |symlinks|
      invariant OnCourse(run, d) && d.stats.deleted == old(d.stats.deleted) && old(d.stats.errors) <= d.stats.errors
      invariant d.stats.Handled() == old(d.stats.Handled()) + i
      invariant d.stats.errors == 0 ==> old(d.written).Keys <= d.written.Keys
      invariant d.stats.errors == 0 ==> AllPlaced(symlinks, d.written, i)
      invariant d.stats.errors == 0 ==> GrownBy(old(d.stats), d.stats, Sum(ws, i))
      invariant d.stats.errors == 0 ==> d.lost == LostBy(run.src, symlinks[..i], d.suffix)
    {
      ok := d.Checkpoint();
      if !ok {
        return;
      }
      PlaceOne(d, symlinks, i, run, old(d.stats));
    }
    assert symlinks[..|symlinks|] == symlinks;
    ok := true;
  }

  /** One symlink and its count. */
  method PlaceOne(d: Destination, symlinks: seq<Task>, i: nat, run: Run, ghost a: Stats)
    requires run.Fits() && OnCourse(run, d) && i < |symlinks| && PointTask(run, symlinks[i])
    requires d.stats.errors == 0 ==>
               DirsSettled(run, d.written) && d.lost == LostBy(run.src, symlinks[..i], d.suffix) &&
               GrownBy(a, d.stats, Sum(Worths(symlinks, false), i)) && AllPlaced(symlinks, d.written, i)
    modifies d
    ensures OnCourse(run, d) && d.cancelled == old(d.cancelled)
    ensures CountedOnce(old(d.stats), d.stats, d.stats.errors == old(d.stats.errors))
    ensures d.stats.errors == 0 ==>
              d.written.Keys == old(d.written).Keys + {symlinks[i].entry.rel} &&
              d.lost == LostBy(run.src, symlinks[..i + 1], d.suffix) &&
              GrownBy(a, d.stats, Sum(Worths(symlinks, false), i + 1)) && AllPlaced(symlinks, d.written, i + 1)
  {
    ghost var before := d.stats;
    assert JobFits(run.src, run.dst, run.jobs, symlinks[i].entry.rel);
    assert symlinks[..i + 1][..i] == symlinks[..i];
    DoSymlink(d, symlinks[i], run);
    if d.stats.errors == 0 {
      GrownNext(a, before, d.stats, Worths(symlinks, false), i);
    }
  }

  // ---------- 5. directory times ----------

  ghost predicate TimeSet(t: Tree, e: Entry) {
    DirAt(t, e.rel) && t[e.rel].node.mtime == e.mtime
  }

  method RestoreTime(d: Destination, e: Entry, run: Run)
    requires run.Fits() && OnCourse(run, d) && TimedDir(run, e)
    requires d.stats.errors == 0 ==> DirsSettled(run, d.written)
    modifies d
    ensures d.lost == old(d.lost)
    ensures OnCourse(run, d) && d.stats == old(d.stats) && d.written == old(d.written)
    ensures d.cancelled == old(d.cancelled)
    ensures old(d.silent) ==> d.silent
    ensures d.stats.errors == 0 ==> DirAt(old(d.tree), e.rel)
    ensures d.stats.errors == 0 && !d.silent ==> d.tree == old(d.tree)[e.rel := Stamped(old(d.tree)[e.rel], e.mtime)]
  {
    ghost var t, before := d.tree, d.silent;
    if d.stats.errors == 0 {
      SourceDirIsThere(run, t, d.written, !d.silent, e.rel, d.lost);
      MtimeProgress(true, run.src, run.dst, t, d.written, e.rel, e.mtime, d.lost);
    }
    d.SetMtime(e.rel, e.mtime);
    if !d.escaped {
      TimingLeavesAlone(run, d.suffix, t, d.tree);
    }
    if d.stats.errors == 0 {
      Untimed(run, d.written, !before, !d.silent);
    }
  }

  /** `set_mtime` on every source directory, last listed first; its failures are ignored. */
  method RestoreTimes(d: Destination, timed: seq<Entry>, run: Run) returns (ok: bool)
    requires run.Fits() && OnCourse(run, d)
    requires forall k :: 0 <= k < |timed| ==> TimedDir(run, timed[k])
    requires d.stats.errors == 0 ==> DirsSettled(run, d.written)
    modifies d
    ensures d.lost == old(d.lost)
    ensures !ok ==> d.cancelled
    ensures OnCourse(run, d) && d.stats == old(d.stats) && d.written == old(d.written)
    ensures ok && d.stats.errors == 0 && !d.silent ==> forall k :: 0 <= k < |timed| ==> TimeSet(d.tree, timed[k])
  {
    var k := |timed|;
    while k > 0
      invariant d.lost == old(d.lost)
      invariant 0 <= k <= |timed| && OnCourse(run, d) && d.stats == old(d.stats) && d.written == old(d.written)
      invariant d.stats.errors == 0 && !d.silent ==> forall j :: k <= j < |timed| ==> TimeSet(d.tree, timed[j])
    {
      ok := d.Checkpoint();
      if !ok {
        return;
      }
      k := k - 1;
      RestoreTime(d, timed[k], run);
    }
    ok := true;
  }

  // ---------- 6. deletions ----------

  /** Confirmed deletions that touch neither a source path nor the metadata directory and know their kind. */
  ghost predicate Deletable(run: Run, del: Deletion) {
    && |del.rel| > 0 && del.rel !in run.src && !Hidden(del.rel) && del.rel in run.sweep
    && (del.isDir <==> DirAt(run.dst, del.rel))
  }

  /** Some deletion takes an entry out of the directory `p`. */
  ghost predicate LosesEntry(dels: seq<Deletion>, p: Path) {
    exists k :: 0 <= k < |dels| && |dels[k].rel| > 0 && Parent(dels[k].rel) == p
  }

  /** What is left is as it was, directories that lost an entry set apart. */
  ghost predicate OnlyLosers(t: Tree, u: Tree, dels: seq<Deletion>) {
    forall q :: q in u ==> q in t && (u[q] == t[q] || LosesEntry(dels, q))
  }

  lemma {:induction false} OneMoreLoser(t0: Tree, t: Tree, u: Tree, dels: seq<Deletion>, i: nat)
    requires i < |dels| && |dels[i].rel| > 0
    requires OnlyLosers(t0, t, dels) && Removed(t, u, dels[i].rel) && Spares(t, u, dels[i].rel)
    ensures OnlyLosers(t0, u, dels)
  {
    forall q | q in u
      ensures q in t0 && (u[q] == t0[q] || LosesEntry(dels, q))
    {
      assert q in t && (t[q] == t0[q] || LosesEntry(dels, q));
      assert Parent(dels[i].rel) == q ==> LosesEntry(dels, q);
    }
  }

  /** Some deletion names a path that the system will not unlink. */
  ghost predicate NamesPinned(pinned: set<Path>, t: Tree, dels: seq<Deletion>) {
    exists k :: 0 <= k < |dels| && dels[k].rel in pinned && dels[k].rel in t
  }

  /**
   `run_deletions`: each entry removed, or counted as an error and in `missed`; what is gone stays
   gone, what is pinned is missed, and whatever fails no source path is touched.
   */
  method RunDeletions(d: Destination, dels: seq<Deletion>, run: Run) returns (ok: bool, ghost missed: nat)
    requires run.Fits() && OnCourse(run, d)
    requires forall del :: del in dels ==> Deletable(run, del)
    modifies d
    ensures d.lost == old(d.lost)
    ensures !ok ==> d.cancelled
    ensures OnCourse(run, d) && d.written == old(d.written) && d.silent == old(d.silent) && d.escaped == old(d.escaped)
    ensures d.stats == old(d.stats).(errors := d.stats.errors, deleted := d.stats.deleted)
    ensures d.stats.errors == old(d.stats.errors) + missed
    ensures ok ==> d.stats.deleted + missed == old(d.stats.deleted) + |dels|
    ensures ok && NamesPinned(d.pinned, old(d.tree), dels) ==> missed > 0
    ensures Spared(run.src, old(d.tree), d.tree) && d.tree.Keys <= old(d.tree).Keys
    ensures d.stats.errors == 0 ==> OnlyLosers(old(d.tree), d.tree, dels)
    ensures ok && missed == 0 ==> forall k :: 0 <= k < |dels| ==> dels[k].rel !in d.tree
  {
    missed := 0;
    ghost var before := d.tree;
    for i := 0 to |dels|
      invariant OnCourse(run, d) && d.written == old(d.written) && d.silent == old(d.silent)
      invariant d.escaped == old(d.escaped) && d.lost == old(d.lost)
      invariant d.stats == old(d.stats).(errors := d.stats.errors, deleted := d.stats.deleted)
      invariant d.stats.errors == old(d.stats.errors) + missed
      invariant d.stats.deleted + missed == old(d.stats.deleted) + i
      invariant KeepsPinned(d.pinned, before, d.tree) && Spared(run.src, before, d.tree)
      invariant d.tree.Keys <= before.Keys
      invariant missed == 0 ==> forall k :: 0 <= k < i ==> dels[k].rel !in d.tree
      invariant d.stats.errors == 0 ==> OnlyLosers(before, d.tree, dels)
    {
      ok := d.Checkpoint();
      if !ok {
        return;
      }
      var done;
      done := DeleteOne(d, dels, i, run, before);
      missed := if done then missed else missed + 1;
    }
    ok := true;
  }

  /** One deletion and its count. */
  method DeleteOne(d: Destination, dels: seq<Deletion>, i: nat, run: Run, ghost before: Tree) returns (done: bool)
    requires run.Fits() && OnCourse(run, d) && i < |dels| && Deletable(run, dels[i])
    requires d.stats.errors == 0 ==> OnlyLosers(before, d.tree, dels)
    modifies d`tree, d`stats, d`faulted
    ensures OnCourse(run, d)
    ensures d.stats == if done then old(d.stats).(deleted := old(d.stats.deleted) + 1) else old(d.stats).Fail()
    ensures KeepsPinned(d.pinned, old(d.tree), d.tree) && Spared(run.src, old(d.tree), d.tree)
    ensures d.tree.Keys <= old(d.tree).Keys && (done ==> dels[i].rel !in d.tree)
    ensures d.stats.errors == 0 ==> OnlyLosers(before, d.tree, dels)
  {
    ghost var t := d.tree;
    if d.stats.errors == 0 {
      StrayKeepsKind(run, t, d.written, !d.silent, dels[i].rel, d.lost);
    }
    done := d.DeleteEntry(dels[i]);
    OutsideSpares(run.src, t, d.tree, dels[i].rel);
    if !d.escaped {
      SweepingLeavesAlone(run, d.suffix, t, d.tree, dels[i].rel);
    }
    NothingNew(t, d.tree, dels[i].rel);
    if done {
      RemovedShrinks(t, d.tree, dels[i].rel);
      d.stats := d.stats.(deleted := d.stats.deleted + 1);
      if d.stats.errors == 0 {
        RemoveProgress(true, run.src, run.dst, t, d.tree, d.written, dels[i].rel, d.lost);
        OneMoreLoser(before, t, d.tree, dels, i);
      }
    } else {
      d.stats := d.stats.Fail();
    }
  }

  /** No source path has gone, or changed but for a directory's time. */
  ghost predicate Spared(src: Tree, t: Tree, u: Tree) {
    forall p :: p in src && p in t ==> p in u && Alike(u[p], t[p])
  }

  lemma {:induction false} NothingNew(t: Tree, u: Tree, p: Path)
    requires Shrunk(t, u, p)
    ensures u.Keys <= t.Keys
  {
    assert forall q :: q in u ==> (!(p <= q) ==> q in t);
  }

  /** No source path is at or below a path the source lacks. */
  lemma {:induction false} OutsideSpares(src: Tree, t: Tree, u: Tree, p: Path)
    requires Closed(src) && |p| > 0 && p !in src && Outside(t, u, p)
    ensures Spared(src, t, u)
  {
    forall q | q in src && q in t
      ensures q in u && Alike(u[q], t[q])
    {
      if p <= q {
        assert |p| == |q| ==> p == q;
        AncestorIsDir(src, p, q);
      }
    }
  }

  /** A path the run has no business with is still of the kind it was. */
  lemma {:induction false} StrayKeepsKind(run: Run, t: Tree, written: map<Path, Obj>, timed: bool, p: Path,
                                          lost: set<Path>)
    requires run.Fits() && OnTrack(run, t, written, timed, lost) && p !in run.src
    ensures p in t ==> p in run.dst && (DirAt(t, p) <==> DirAt(run.dst, p))
  {
    assert Accounted(true, run.src, run.dst, t, written, p);
  }

  lemma {:induction false} RemovedShrinks(t: Tree, u: Tree, p: Path)
    requires Removed(t, u, p)
    ensures u.Keys <= t.Keys && p !in u
  {
    assert forall q :: q in u ==> !(p <= q);
  }

  // ---------- the whole run ----------

  /** What a run that reported no failure leaves behind. */
  ghost predicate Finished(run: Run, d: Destination, dels: seq<Deletion>, deleting: bool)
    requires run.Fits() && |run.es| == |run.actions|
    reads d
  {
    && !d.escaped
    && OnTrack(run, d.tree, d.written, !d.silent, d.lost) && d.lost == Lost(run, d.suffix)
    && AllWritten(run, d.written)
    && (deleting ==> forall k :: 0 <= k < |dels| ==> dels[k].rel !in d.tree)
    && (!d.silent ==> TimesRestored(run, d.tree, if deleting then dels else []))
  }

  /** Phases 1 to 4: whatever the plan asks to be put in place. */
  method PlaceEverything(d: Destination, work: Work, run: Run, threads: nat) returns (ok: bool)
    requires run.Fits() && Complete(run, work) && OnCourse(run, d) && d.written == map[] && d.lost == {}
    modifies d
    ensures !ok ==> d.cancelled
    ensures OnCourse(run, d) && d.stats.deleted == old(d.stats.deleted)
    ensures ok ==> d.stats.Handled() == old(d.stats.Handled()) + Size(work)
    ensures ok && d.stats.errors == 0 ==> DirsSettled(run, d.written) && AllWritten(run, d.written)
    ensures ok && d.stats.errors == 0 ==> d.lost == LostBy(run.src, work.symlinks, d.suffix)
    ensures ok && d.stats.errors == 0 ==> GrownBy(old(d.stats), d.stats, WorkSum(run.dst, work))
  {
    CompleteLists(run, work);
    ok := CreateDirectories(d, work.dirs, run);
    if ok {
      ok := d.Checkpoint();
    }
    if !ok {
      return;
    }
    ghost var made := d.stats;
    ok := PlaceObjects(d, work, run, threads);
    if ok && d.stats.errors == 0 {
      GrownTwice(old(d.stats), made, d.stats, DirSum(run.dst, work.dirs), ListsSum(work));
    }
  }

  /** Phases 2 to 4, once the directories are there. */
  method PlaceObjects(d: Destination, work: Work, run: Run, threads: nat) returns (ok: bool)
    requires run.Fits() && Complete(run, work) && OnCourse(run, d) && d.lost == {}
    requires d.stats.errors == 0 ==> NoLinksYet(run, d.written) && DirsSettled(run, d.written)
    modifies d
    ensures !ok ==> d.cancelled
    ensures OnCourse(run, d) && d.stats.deleted == old(d.stats.deleted) && old(d.stats.errors) <= d.stats.errors
    ensures ok ==> d.stats.Handled() == old(d.stats.Handled()) + |work.files| + |work.links| + |work.symlinks|
    ensures ok && d.stats.errors == 0 ==> DirsSettled(run, d.written) && AllWritten(run, d.written)
    ensures ok && d.stats.errors == 0 ==> d.lost == LostBy(run.src, work.symlinks, d.suffix)
    ensures ok && d.stats.errors == 0 ==> GrownBy(old(d.stats), d.stats, ListsSum(work))
  {
    CompleteLists(run, work);
    ok := CopyFiles(d, work.files, threads, run);
    if !ok {
      return;
    }
    ghost var copied := d.stats;
    ok := CopyHardlinks(d, work.links, run);
    if !ok {
      return;
    }
    ghost var linked := d.stats;
    ok := PlaceSymlinks(d, work.symlinks, run);
    if ok && d.stats.errors == 0 {
      GrownTwice(copied, linked, d.stats, ListSum(work.links, false), ListSum(work.symlinks, false));
      GrownTwice(old(d.stats), copied, d.stats, ListSum(work.files, true),
                 Add(ListSum(work.links, false), ListSum(work.symlinks, false)));
    }
  }

  ghost predicate AllWritten(run: Run, written: map<Path, Obj>)
    requires run.Fits()
  {
    forall p :: p in run.src && !run.jobs[p].Keep? ==> p in written
  }

  lemma {:induction false} CompleteLists(run: Run, work: Work)
    requires run.Fits() && Complete(run, work)
    ensures Makes(run.jobs) <= EntryPaths(work.dirs) && Writes(run.jobs) <= TaskPaths(work.files)
    ensures Links(run.jobs) <= TaskPaths(work.links) && Points(run.jobs) <= TaskPaths(work.symlinks)
  {
    assert forall p :: p in run.jobs ==> Listed(run, work, p);
  }

  /**
   `apply_real`: false when the run was cancelled. Every entry and every confirmed deletion is counted
   exactly once, under any failures; `missed` is how many of the errors are failed deletions.
   */
  method ApplyReal(d: Destination, plan: SyncPlan, run: Run, opts: ApplyOptions) returns (ok: bool, ghost missed: nat)
    requires run.Valid() && run.actions == plan.actions && run.hardLinks == opts.hardLinks
    requires OnCourse(run, d) && d.written == map[] && d.lost == {} && d.stats.Handled() == 0
    requires d.stats.deleted == 0 && d.stats.bytes == 0
    requires opts.delete && opts.yes ==> forall del :: del in plan.deletions ==> Deletable(run, del)
    modifies d
    ensures !ok ==> d.cancelled
    ensures missed <= d.stats.errors
    ensures ok && d.stats.errors == missed ==> !d.escaped
    ensures ok ==>
              d.stats.Handled() == |plan.actions| + missed && d.stats.deleted + missed == PlannedDeletions(plan, opts)
    ensures ok && opts.delete && opts.yes && NamesPinned(d.pinned, run.dst, plan.deletions) ==> missed > 0
    ensures ok && d.stats.errors == 0 ==> Finished(run, d, plan.deletions, opts.delete && opts.yes)
    ensures ok && d.stats.errors == 0 ==> Counted(run, d.stats)
    ensures !d.faulted ==> !d.silent && (Unblocked(run, d.suffix) ==> d.stats.errors == 0)
    ensures OnCourse(run, d)
  {
    missed := 0;
    ok := PartitionAndPlace(d, run, opts.threads);
    if ok && opts.delete && opts.yes {
      ghost var t, w := d.tree, d.written;
      ok, missed := RunDeletions(d, plan.deletions, run);
      if ok && d.stats.errors == 0 && !d.silent {
        SourceStays(run, t, d.tree, w, true, true, d.lost);
        TimesStay(run, t, d.tree, plan.deletions);
      }
    }
    if ok {
      ok := d.Checkpoint();
    }
  }

  /** What has been written or kept of the source does not go away again. */
  lemma {:induction false} SourceStays(run: Run, t: Tree, u: Tree, written: map<Path, Obj>, timed: bool, still: bool,
                                       lost: set<Path>)
    requires run.Fits() && OnTrack(run, t, written, timed, lost) && OnTrack(run, u, written, still, lost)
    ensures forall p :: p in run.src && p in t ==> p in u
  {
    forall p | p in run.src && p in t
      ensures p in u
    {
      assert Accounted(true, run.src, run.dst, t, written, p) && Accounted(true, run.src, run.dst, u, written, p);
    }
  }

  /** Deletions move the times of the directories they take something from, and no others. */
  lemma {:induction false} TimesStay(run: Run, t: Tree, u: Tree, dels: seq<Deletion>)
    requires TimesRestored(run, t, []) && OnlyLosers(t, u, dels)
    requires forall p :: p in run.src && p in t ==> p in u
    ensures TimesRestored(run, u, dels)
  {
    forall p
      ensures LosesEntry(dels, p) || TimeRestored(run, u, p)
    {
      assert LosesEntry([], p) || TimeRestored(run, t, p);
    }
  }

  /** Phases 1 to 5, from the partition on. */
  method PartitionAndPlace(d: Destination, run: Run, threads: nat) returns (ok: bool)
    requires run.Valid() && OnCourse(run, d) && d.written == map[] && d.lost == {}
    requires d.stats.Handled() == 0 && d.stats.bytes == 0
    modifies d
    ensures !ok ==> d.cancelled
    ensures OnCourse(run, d) && d.stats.deleted == old(d.stats.deleted)
    ensures ok ==> d.stats.Handled() == |run.es|
    ensures ok && d.stats.errors == 0 ==> AllWritten(run, d.written) && Counted(run, d.stats)
    ensures ok && d.stats.errors == 0 && !d.silent ==> TimesRestored(run, d.tree, [])
    ensures ok && d.stats.errors == 0 ==> d.lost == Lost(run, d.suffix)
  {
    var work;
    ok, work := DealAndPlace(d, run, threads);
    if ok {
      ok := RestoreAllTimes(d, work, run);
    }
  }

  method DealAndPlace(d: Destination, run: Run, threads: nat) returns (ok: bool, work: Work)
    requires run.Valid() && OnCourse(run, d) && d.written == map[] && d.lost == {}
    requires d.stats.Handled() == 0 && d.stats.bytes == 0
    modifies d
    ensures !ok ==> d.cancelled
    ensures OnCourse(run, d) && d.stats.deleted == old(d.stats.deleted) && (ok ==> Complete(run, work))
    ensures ok ==> d.stats.Handled() == |run.es|
    ensures ok && d.stats.errors == 0 ==>
              && DirsSettled(run, d.written) && AllWritten(run, d.written)
              && d.lost == Lost(run, d.suffix) && Counted(run, d.stats)
  {
    work := Work([], [], [], [], []);
    ok := d.Checkpoint();
    if !ok {
      return;
    }
    work := DistributeAll(d, run);
    ok := d.Checkpoint();
    if ok {
      ok := PlaceAndCount(d, work, run, threads);
    }
  }

  /** Phases 1 to 4 for all that was dealt out. */
  method PlaceAndCount(d: Destination, work: Work, run: Run, threads: nat) returns (ok: bool)
    requires run.Fits() && |run.es| == |run.actions| && work == WorkOf(run, |run.es|)
    requires Complete(run, work) && OnCourse(run, d) && d.written == map[] && d.lost == {}
    requires d.stats.copied == d.stats.updated == d.stats.errors == d.stats.bytes == 0
    requires d.stats.skipped + Size(work) == |run.es|
    modifies d
    ensures !ok ==> d.cancelled
    ensures OnCourse(run, d) && d.stats.deleted == old(d.stats.deleted)
    ensures ok ==> d.stats.Handled() == |run.es|
    ensures ok && d.stats.errors == 0 ==>
              && DirsSettled(run, d.written) && AllWritten(run, d.written)
              && d.lost == LostBy(run.src, work.symlinks, d.suffix) && Counted(run, d.stats)
  {
    ok := PlaceEverything(d, work, run, threads);
    if ok && d.stats.errors == 0 {
      RunIsCounted(run, work, old(d.stats), d.stats);
    }
  }

  method RestoreAllTimes(d: Destination, work: Work, run: Run) returns (ok: bool)
    requires run.Fits() && OnCourse(run, d) && Complete(run, work)
    requires d.stats.errors == 0 ==> DirsSettled(run, d.written)
    modifies d
    ensures d.lost == old(d.lost)
    ensures !ok ==> d.cancelled
    ensures OnCourse(run, d) && d.stats == old(d.stats) && d.written == old(d.written)
    ensures ok && d.stats.errors == 0 && !d.silent ==> TimesRestored(run, d.tree, [])
  {
    assert forall k :: 0 <= k < |work.timed| ==> work.timed[k] in work.timed;
    ok := RestoreTimes(d, work.timed, run);
    if ok && d.stats.errors == 0 {
      if !d.silent {
        ListedTimesAreAll(run, work, d.tree);
      }
    }
  }

  method DistributeAll(d: Destination, run: Run) returns (work: Work)
    requires run.Valid() && OnCourse(run, d)
    modifies d`stats
    ensures OnCourse(run, d) && Complete(run, work) && work == WorkOf(run, |run.es|)
    ensures d.stats == old(d.stats).(skipped := d.stats.skipped)
    ensures d.stats.Handled() + Size(work) == old(d.stats.Handled()) + |run.es|
  {
    work := Distribute(d, run);
    WorkIsComplete(run);
  }

  ghost predicate TimeRestored(run: Run, t: Tree, p: Path) {
    p in run.src && run.src[p].node.Dir? ==> DirAt(t, p) && t[p].node.mtime == run.src[p].node.mtime
  }

  /** Every source directory has its source time, those that lost an entry afterwards set apart. */
  ghost predicate TimesRestored(run: Run, t: Tree, dels: seq<Deletion>) {
    forall p :: LosesEntry(dels, p) || TimeRestored(run, t, p)
  }

  lemma {:induction false} ListedTimesAreAll(run: Run, work: Work, t: Tree)
    requires run.Fits() && Complete(run, work)
    requires forall k :: 0 <= k < |work.timed| ==> TimeSet(t, work.timed[k])
    ensures TimesRestored(run, t, [])
  {
    forall p | p in run.src && run.src[p].node.Dir?
      ensures TimeRestored(run, t, p)
    {
      assert Listed(run, work, p);
      var e :| e in work.timed && e.rel == p;
      var k :| 0 <= k < |work.timed| && work.timed[k] == e;
      assert TimeSet(t, work.timed[k]) && TimedDir(run, e);
    }
  }

  function PlannedDeletions(plan: SyncPlan, opts: ApplyOptions): nat {
    if opts.delete && opts.yes then |plan.deletions| else 0
  }

  lemma {:induction false} StartsOnTrack(run: Run, timed: bool)
    requires run.Valid()
    ensures OnTrack(run, run.dst, map[], timed)
  {
    var none: map<Path, Obj> := map[];
    assert forall p :: Accounted(true, run.src, run.dst, run.dst, none, p);
    assert forall p :: Delivered(run.src, run.dst, run.jobs, none, timed, p);
  }
}
