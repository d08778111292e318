/**
 `persist_after_plan`: what a finished run records of the destination, and what a crash at any byte
 or call of the recording leaves behind for the next run to load.
 */
module Persist {
  import opened Bytes
  import opened Trees
  import opened Plan
  import opened Journal
  import opened Index
  import opened Store

  /** Everything a recording reads: the plan that was applied and the destination it left. */
  datatype Applied = Applied(h: Hasher, seen: Sight, dirLen: nat, through: Reader, plan: SyncPlan, withHash: bool) {
    function RecordAt(i: nat): Option<ManifestEntry>
      requires i < |plan.actions|
    {
      RecordFor(h, seen, dirLen, through, plan.actions[i].entry, withHash)
    }

    /** Entry `i` is recorded: every one the first time, afterwards those that were not skipped. */
    predicate Recorded(all: bool, i: nat)
      requires i < |plan.actions|
    {
      all || plan.actions[i].action != Skip
    }
  }

  /** The upserts of the first `n` entries; none at all if one of them cannot be read back. */
  function Upserts(a: Applied, all: bool, n: nat): Option<seq<Delta>>
    requires n <= |a.plan.actions|
  {
    if n == 0 then Some([])
    else match Upserts(a, all, n - 1)
      case None => None
      case Some(ds) =>
        if !a.Recorded(all, n - 1) then Some(ds)
        else match a.RecordAt(n - 1)
          case None => None
          case Some(r) => Some(ds + [Upsert(a.plan.actions[n - 1].entry.rel, r)])
  }

  /** The deltas so far and, for each of the first `n` deletions the manifest still lists, its removal. */
  function Removals(m: Entries, ds: seq<Delta>, dels: seq<Deletion>, n: nat): seq<Delta>
    requires n <= |dels|
  {
    if n == 0 then ds
    else
      var before := Removals(m, ds, dels, n - 1);
      if dels[n - 1].rel in Fold(m, before) then before + [Delete(dels[n - 1].rel)] else before
  }

  /** All a run adds to the manifest `m`. */
  function DeltasOf(m: Entries, a: Applied): Option<seq<Delta>> {
    match Upserts(a, false, |a.plan.actions|)
    case None => None
    case Some(ds) => Some(Removals(m, ds, a.plan.deletions, |a.plan.deletions|))
  }

  /** `from_destination`. */
  method FromDestination(a: Applied) returns (r: Option<Entries>)
    ensures var all := Upserts(a, true, |a.plan.actions|);
            r == if all.Some? then Some(Fold(map[], all.value)) else None
  {
    var entries: Entries := map[];
    for i := 0 to |a.plan.actions|
      invariant Upserts(a, true, i).Some? && entries == Fold(map[], Upserts(a, true, i).value)
    {
      var record := a.RecordAt(i);
      if record.None? {
        UpsertsStop(a, true, i + 1);
        return None;
      }
      FoldAppend(map[], Upserts(a, true, i).value, [Upsert(a.plan.actions[i].entry.rel, record.value)]);
      entries := entries[a.plan.actions[i].entry.rel := record.value];
    }
    r := Some(entries);
  }

  lemma {:induction false} UpsertsStop(a: Applied, all: bool, n: nat)
    requires n <= |a.plan.actions| && Upserts(a, all, n).None?
    ensures Upserts(a, all, |a.plan.actions|).None?
    decreases |a.plan.actions| - n
  {
    if n < |a.plan.actions| {
      UpsertsStop(a, all, n + 1);
    }
  }

  /** The two loops of `persist_after_plan` over the loaded manifest. */
  method RecordChanges(loaded: Entries, a: Applied) returns (r: Option<seq<Delta>>, manifest: Entries)
    ensures r == DeltasOf(loaded, a)
    ensures r.Some? ==> manifest == Fold(loaded, r.value)
  {
    manifest := loaded;
    var deltas: seq<Delta> := [];
    for i := 0 to |a.plan.actions|
      invariant Upserts(a, false, i) == Some(deltas) && manifest == Fold(loaded, deltas)
    {
      if a.plan.actions[i].action == Skip {
        continue;
      }
      var record := a.RecordAt(i);
      if record.None? {
        UpsertsStop(a, false, i + 1);
        return None, manifest;
      }
      var d := Upsert(a.plan.actions[i].entry.rel, record.value);
      FoldAppend(loaded, deltas, [d]);
      manifest, deltas := ApplyDelta(manifest, d), deltas + [d];
    }
    ghost var upserts := deltas;
    for i := 0 to |a.plan.deletions|
      invariant deltas == Removals(loaded, upserts, a.plan.deletions, i) && manifest == Fold(loaded, deltas)
    {
      var d := Delete(a.plan.deletions[i].rel);
      if d.path in manifest {
        FoldAppend(loaded, deltas, [d]);
        manifest, deltas := ApplyDelta(manifest, d), deltas + [d];
      }
    }
    r := Some(deltas);
  }

  // ---------- what the new manifest says ----------

  lemma {:induction false} UpsertsRecord(a: Applied, all: bool, n: nat, i: nat, unless: Option<ManifestEntry>)
    requires i < n <= |a.plan.actions| && Upserts(a, all, n).Some? && a.Recorded(all, i) && NamesOnce(a)
    ensures LastWord(Upserts(a, all, n).value, a.plan.actions[i].entry.rel, unless) == a.RecordAt(i)
  {
    if i < n - 1 {
      UpsertsRecord(a, all, n - 1, i, unless);
    }
    LastOfMore(a, all, n, a.plan.actions[i].entry.rel, unless);
  }

  lemma {:induction false} UpsertsSpare(a: Applied, all: bool, n: nat, p: Path, unless: Option<ManifestEntry>)
    requires n <= |a.plan.actions| && Upserts(a, all, n).Some?
    requires forall j :: 0 <= j < n && a.Recorded(all, j) ==> a.plan.actions[j].entry.rel != p
    ensures LastWord(Upserts(a, all, n).value, p, unless) == unless
  {
    if n > 0 {
      UpsertsSpare(a, all, n - 1, p, unless);
      LastOfMore(a, all, n, p, unless);
    }
  }

  lemma {:induction false} LastOfMore(a: Applied, all: bool, n: nat, p: Path, unless: Option<ManifestEntry>)
    requires 0 < n <= |a.plan.actions| && Upserts(a, all, n).Some?
    ensures LastWord(Upserts(a, all, n).value, p, unless) ==
            if a.Recorded(all, n - 1) && a.plan.actions[n - 1].entry.rel == p then a.RecordAt(n - 1)
            else LastWord(Upserts(a, all, n - 1).value, p, unless)
  {
    if a.Recorded(all, n - 1) {
      LastOfSnoc(Upserts(a, all, n - 1).value, Upsert(a.plan.actions[n - 1].entry.rel, a.RecordAt(n - 1).value), p,
                 unless);
    }
  }

  lemma {:induction false} LastOfSnoc(ds: seq<Delta>, d: Delta, p: Path, unless: Option<ManifestEntry>)
    ensures LastWord(ds + [d], p, unless) ==
            if d.path == p then (if d.Upsert? then Some(d.entry) else None) else LastWord(ds, p, unless)
  {
    assert (ds + [d])[..|ds|] == ds;
  }

  /** After the removals no deleted path is listed, and every other path is as before them. */
  lemma {:induction false} RemovalsRemove(m: Entries, ds: seq<Delta>, dels: seq<Deletion>, n: nat, p: Path)
    requires n <= |dels|
    ensures Lookup(Fold(m, Removals(m, ds, dels, n)), p) ==
            if exists k :: 0 <= k < n && dels[k].rel == p then None else Lookup(Fold(m, ds), p)
  {
    if n > 0 {
      RemovalsRemove(m, ds, dels, n - 1, p);
      FoldAppend(m, Removals(m, ds, dels, n - 1), [Delete(dels[n - 1].rel)]);
    }
  }

  predicate Changed(a: Applied, i: int, p: Path) {
    0 <= i < |a.plan.actions| && a.plan.actions[i].action != Skip && a.plan.actions[i].entry.rel == p
  }

  predicate Planned(a: Applied, i: int, p: Path) {
    0 <= i < |a.plan.actions| && a.plan.actions[i].entry.rel == p
  }

  ghost predicate NamesOnce(a: Applied) {
    forall j, k :: 0 <= j < k < |a.plan.actions| ==> a.plan.actions[j].entry.rel != a.plan.actions[k].entry.rel
  }

  /** `now` is what the manifest says of `p` after a run over the manifest `m`. */
  ghost predicate RecordedAt(m: Entries, a: Applied, p: Path, now: Option<ManifestEntry>) {
    if exists k :: 0 <= k < |a.plan.deletions| && a.plan.deletions[k].rel == p then now == None
    else if exists i :: Changed(a, i, p) then exists i :: Changed(a, i, p) && now == a.RecordAt(i)
    else now == Lookup(m, p)
  }

  /** The manifest after a run: what it changed as it is now, what it deleted gone, the rest kept. */
  lemma {:induction false} RecordedManifest(m: Entries, a: Applied, p: Path)
    requires DeltasOf(m, a).Some? && NamesOnce(a)
    ensures RecordedAt(m, a, p, Lookup(Fold(m, DeltasOf(m, a).value), p))
  {
    var n, ds := |a.plan.actions|, Upserts(a, false, |a.plan.actions|).value;
    RemovalsRemove(m, ds, a.plan.deletions, |a.plan.deletions|, p);
    FoldIsLastWord(m, ds, p);
    if i :| Changed(a, i, p) {
      UpsertsRecord(a, false, n, i, Lookup(m, p));
    } else {
      assert forall j :: 0 <= j < n && a.Recorded(false, j) ==> Changed(a, j, a.plan.actions[j].entry.rel);
      UpsertsSpare(a, false, n, p, Lookup(m, p));
    }
  }

  /** Every planned path, skipped or not, as it was read back, and no other path. */
  ghost predicate RecordsAll(a: Applied, m: Entries) {
    && (forall i :: 0 <= i < |a.plan.actions| ==>
          a.RecordAt(i).Some? && Lookup(m, a.plan.actions[i].entry.rel) == a.RecordAt(i))
    && (forall p :: p in m ==> exists i :: Planned(a, i, p))
  }

  /** The first manifest records the whole plan. */
  lemma {:induction false} FirstManifest(a: Applied)
    requires Upserts(a, true, |a.plan.actions|).Some? && NamesOnce(a)
    ensures RecordsAll(a, Fold(map[], Upserts(a, true, |a.plan.actions|).value))
  {
    var n, ds := |a.plan.actions|, Upserts(a, true, |a.plan.actions|).value;
    forall i | 0 <= i < n
      ensures a.RecordAt(i).Some? && Lookup(Fold(map[], ds), a.plan.actions[i].entry.rel) == a.RecordAt(i)
    {
      UpsertsFail(a, true, n);
      FoldIsLastWord(map[], ds, a.plan.actions[i].entry.rel);
      UpsertsRecord(a, true, n, i, None);
    }
    forall p | p in Fold(map[], ds)
      ensures exists i :: Planned(a, i, p)
    {
      FoldIsLastWord(map[], ds, p);
      if !exists i :: Planned(a, i, p) {
        assert forall j :: 0 <= j < n ==> (a.plan.actions[j].entry.rel == p ==> Planned(a, j, p));
        UpsertsSpare(a, true, n, p, None);
        assert false;
      }
    }
  }

  /** The recording is refused if and only if an entry to record cannot be read back. */
  lemma {:induction false} UpsertsFail(a: Applied, all: bool, n: nat)
    requires n <= |a.plan.actions|
    ensures Upserts(a, all, n).None? <==>
            exists i :: 0 <= i < n && (all || a.plan.actions[i].action != Skip) && a.RecordAt(i).None?
  {
    if n > 0 {
      UpsertsFail(a, all, n - 1);
    }
  }

  // ---------- where the records come from ----------

  lemma {:induction false} UpsertsAreFromRun(a: Applied, all: bool, n: nat)
    requires n <= |a.plan.actions| && Upserts(a, all, n).Some?
    ensures FromRun(a.h, a.seen, Upserts(a, all, n).value)
  {
    if n > 0 {
      UpsertsAreFromRun(a, all, n - 1);
      if a.Recorded(all, n - 1) {
        RecordIsMadeFrom(a.h, a.seen, a.dirLen, a.through, a.plan.actions[n - 1].entry, a.withHash);
      }
    }
  }

  lemma {:induction false} RemovalsAreFromRun(m: Entries, ds: seq<Delta>, dels: seq<Deletion>, n: nat, h: Hasher,
                                              seen: Sight)
    requires n <= |dels| && FromRun(h, seen, ds)
    ensures FromRun(h, seen, Removals(m, ds, dels, n))
  {
    if n > 0 {
      RemovalsAreFromRun(m, ds, dels, n - 1, h, seen);
    }
  }

  /** Whatever part of a run's records is loaded later, every record was made of a past destination. */
  lemma {:induction false} RunKeepsSourced(history: seq<Sight>, m: Entries, a: Applied, n: nat)
    requires DeltasOf(m, a).Some? && n <= |DeltasOf(m, a).value|
    requires Sourced(a.h, history, m)
    ensures Sourced(a.h, history + [a.seen], Fold(m, DeltasOf(m, a).value[..n]))
  {
    UpsertsAreFromRun(a, false, |a.plan.actions|);
    RemovalsAreFromRun(m, Upserts(a, false, |a.plan.actions|).value, a.plan.deletions, |a.plan.deletions|, a.h, a.seen);
    PersistKeepsSourced(a.h, history, m, a.seen, DeltasOf(m, a).value[..n]);
  }

  // ---------- persisting ----------

  /** However far an append came, loading gives the old manifest and the records that are whole. */
  lemma {:induction false} AppendedLoads(f: Format, snapshot: Option<Buffer>, journal: Option<Buffer>, base: Entries,
                                         js: seq<Delta>, ds: seq<Delta>, n: nat, k: nat)
    requires Sane(f) && AllFit(f.records, js) && Torn(f.records, ds, n, k)
    requires snapshot.Some? && f.decodeAll(snapshot.value) == Some(Snapshot(FORMAT_VERSION, base))
    requires JournalBytes(journal) == Serialize(f.records, js) + Partial(f.records, ds, n, k)
    ensures LoadFrom(f, snapshot, journal) == Some(Fold(Fold(base, js), ds[..n]))
  {
    ReplayPartial(f.records, base, js, ds, n, k);
  }

  lemma {:induction false} Extended(c: Codec, js: seq<Delta>, ds: seq<Delta>, n: nat)
    requires AllFit(c, js) && Torn(c, ds, n, 0)
    ensures AllFit(c, js + ds[..n]) && Serialize(c, js + ds[..n]) == Serialize(c, js) + Partial(c, ds, n, 0)
  {
    SerializeAppend(c, js, ds[..n]);
    assert Serialize(c, ds[..n]) + [] == Serialize(c, ds[..n]);
  }

  /** `save_snapshot` of the manifest the store already holds: at every step it holds the same one. */
  method Compact(s: Store, manifest: Entries, ghost base: Entries, ghost js: seq<Delta>)
    returns (r: Ended, ghost base': Entries, ghost js': seq<Delta>)
    requires s.Holds(base, js) && manifest == Fold(base, js)
    modifies s
    ensures s.Holds(base', js') && Fold(base', js') == manifest && !r.Rejected? && (r.Crashed? ==> s.fuel == 0)
    ensures r.Finished? ==> js' == [] && s.journal == None
    ensures r.Crashed? ==> old(s.fuel) < |s.format.encodeAll(Snapshot(FORMAT_VERSION, manifest))| + 2
  {
    ghost var journal, c := s.journal, s.format.records;
    r := s.SaveSnapshot(manifest);
    FoldTwice(base, js);
    assert s.format.decodeAll(s.format.encodeAll(Snapshot(FORMAT_VERSION, manifest))) ==
      Some(Snapshot(FORMAT_VERSION, manifest));
    if s.journal == None {
      base', js' := manifest, [];
    } else if s.snapshot == Some(s.format.encodeAll(Snapshot(FORMAT_VERSION, manifest))) {
      base', js' := manifest, js;
    } else {
      base', js' := base, js;
    }
  }

  /** The first run: a complete snapshot or, after a crash, still nothing to load. */
  method PersistFirst(s: Store, a: Applied) returns (r: Ended)
    requires Sane(s.format) && s.Load() == None && s.journal == None
    modifies s
    ensures var all := Upserts(a, true, |a.plan.actions|);
            && (r.Rejected? <==> all == None) &&
               (r.Rejected? ==> s.snapshot == old(s.snapshot) && s.journal == old(s.journal))
            && (s.Load() == None || (all.Some? && s.Load() == Some(Fold(map[], all.value))))
            && (r.Finished? ==> all.Some? && s.Holds(Fold(map[], all.value), [])) && (r.Crashed? ==> s.fuel == 0)
    ensures r.Rejected? <==> exists i :: 0 <= i < |a.plan.actions| && a.RecordAt(i).None?
    ensures r.Finished? ==> s.Load().Some?
    ensures r.Crashed? ==>
              var all := Upserts(a, true, |a.plan.actions|);
              all.Some? && old(s.fuel) < |s.format.encodeAll(Snapshot(FORMAT_VERSION, Fold(map[], all.value)))| + 2
    ensures s.Load().Some? && NamesOnce(a) ==> RecordsAll(a, s.Load().value)
  {
    UpsertsFail(a, true, |a.plan.actions|);
    var built := FromDestination(a);
    if built.None? {
      return Rejected;
    }
    r := s.SaveSnapshot(built.value);
    assert s.format.decodeAll(s.format.encodeAll(Snapshot(FORMAT_VERSION, built.value))) ==
      Some(Snapshot(FORMAT_VERSION, built.value));
    assert s.snapshot == Some(s.format.encodeAll(Snapshot(FORMAT_VERSION, built.value))) ==> s.Holds(built.value, []);
    if s.Holds(built.value, []) {
      s.HoldsLoads(built.value, []);
    }
    if NamesOnce(a) {
      FirstManifest(a);
    }
  }

  /** The journal after an append is over 64 MiB, or over a tenth of the snapshot it stands beside. */
  predicate Overgrown(snapshot: Option<Buffer>, journal: Buffer) {
    |journal| > 67108864 || (snapshot.Some? && |snapshot.value| >= 1 && |journal| > |snapshot.value| / 10)
  }

  /** More bytes and calls than a recording takes: records, open and sync, and a snapshot should one be due. */
  function Cost(f: Format, m: Entries, a: Applied): nat
    requires DeltasOf(m, a).Some?
  {
    var ds := DeltasOf(m, a).value;
    |Serialize(f.records, ds)| + 2 + |f.encodeAll(Snapshot(FORMAT_VERSION, Fold(m, ds)))| + 2
  }

  /**
   A later run. Wherever it stops, loading gives the old manifest with some prefix of this run's
   deltas applied; at the end it gives all of them, and unless the run crashed the store is ready for
   the next one.
   */
  method PersistChanges(s: Store, a: Applied, ghost base: Entries, ghost js: seq<Delta>)
    returns (r: Ended, ghost n: nat, ghost base': Entries, ghost js': seq<Delta>)
    requires s.Holds(base, js)
    modifies s
    ensures var m := Fold(base, js);
            match DeltasOf(m, a)
            case None => r == Rejected && n == 0 && s.Load() == Some(m)
            case Some(ds) => n <= |ds| && s.Load() == Some(Fold(m, ds[..n])) && (r.Finished? ==> n == |ds|)
    ensures if r.Crashed? then s.fuel == 0 else s.Holds(base', js')
    ensures r.Finished? && NamesOnce(a) ==>
              s.Load().Some? && forall p :: RecordedAt(Fold(base, js), a, p, Lookup(s.Load().value, p))
    ensures r.Finished? ==>
              var added := DeltasOf(Fold(base, js), a).value;
              var journal := JournalBytes(old(s.journal)) + Serialize(s.format.records, added);
              if Overgrown(old(s.snapshot), journal) then s.journal == None
              else JournalBytes(s.journal) == journal && s.snapshot == old(s.snapshot)
    ensures r.Rejected? ==>
              DeltasOf(Fold(base, js), a) == None || !AllFit(s.format.records, DeltasOf(Fold(base, js), a).value)
    ensures r.Crashed? ==> DeltasOf(Fold(base, js), a).Some? && old(s.fuel) < Cost(s.format, Fold(base, js), a)
  {
    n, base', js' := 0, base, js;
    s.HoldsLoads(base, js);
    var loaded := s.Load();
    var recorded, manifest := RecordChanges(loaded.value, a);
    if recorded.None? {
      return Rejected, 0, base, js;
    }
    ghost var ds, k := recorded.value, 0;
    r, n, k := s.Append(recorded.value);
    AppendedLoads(s.format, s.snapshot, s.journal, base, js, ds, n, k);
    if !r.Crashed? {
      Extended(s.format.records, js, ds, n);
      js' := js + ds[..n];
    }
    assert r.Finished? ==> ds[..n] == ds && Partial(s.format.records, ds, n, k) == Serialize(s.format.records, ds);
    if r.Finished? && s.NeedsCompaction() {
      assert ds[..n] == ds;
      FoldAppend(base, js, ds);
      r, base', js' := Compact(s, manifest, base, js + ds);
      s.HoldsLoads(base', js');
    }
    if r.Finished? && NamesOnce(a) {
      assert ds[..n] == ds;
      forall p {
        RecordedManifest(Fold(base, js), a, p);
      }
    }
  }

  // ---------- any history ----------

  function Left(runs: seq<Applied>, n: nat): seq<Sight>
    requires n <= |runs|
  {
    if n == 0 then [] else Left(runs, n - 1) + [runs[n - 1].seen]
  }

  lemma {:induction false} SourcedLater(h: Hasher, history: seq<Sight>, m: Entries, seen: Sight)
    requires Sourced(h, history, m)
    ensures Sourced(h, history + [seen], m)
  {
    PersistKeepsSourced(h, history, m, seen, []);
  }

  /**
   Runs persisted one after another from an empty store, until one of them crashes: whatever the next
   load finds, every record in it was made of a destination some run left.
   */
  method PersistHistory(s: Store, h: Hasher, runs: seq<Applied>) returns (crashed: bool)
    requires Sane(s.format) && s.Load() == None && s.journal == None
    requires forall i :: 0 <= i < |runs| ==> runs[i].h == h
    modifies s
    ensures s.Load().Some? ==> Sourced(h, Left(runs, |runs|), s.Load().value)
    ensures crashed ==> s.fuel == 0
  {
    var i, first := 0, true;
    ghost var base: Entries, js: seq<Delta> := map[], [];
    while i < |runs|
      invariant i <= |runs|
      invariant first ==> Sane(s.format) && s.Load() == None && s.journal == None
      invariant !first ==> s.Holds(base, js) && Sourced(h, Left(runs, i), Fold(base, js))
    {
      var r;
      if first {
        r := PersistFirst(s, runs[i]);
        if s.Load().Some? {
          SourcedFirst(h, runs, i);
        }
        if r.Finished? {
          first, base, js := false, Fold(map[], Upserts(runs[i], true, |runs[i].plan.actions|).value), [];
        }
      } else {
        r, base, js := PersistNext(s, h, runs, i, base, js);
      }
      i := i + 1;
      if r.Crashed? {
        if s.Load().Some? {
          SourcedByAll(h, runs, i, s.Load().value);
        }
        return true;
      }
    }
    if !first {
      s.HoldsLoads(base, js);
    }
    return false;
  }

  /** A run of the history that finds a manifest. */
  method PersistNext(s: Store, h: Hasher, runs: seq<Applied>, i: nat, ghost base: Entries, ghost js: seq<Delta>)
    returns (r: Ended, ghost base': Entries, ghost js': seq<Delta>)
    requires i < |runs| && runs[i].h == h && s.Holds(base, js) && Sourced(h, Left(runs, i), Fold(base, js))
    modifies s
    ensures if r.Crashed? then s.fuel == 0 else s.Holds(base', js') && s.Load() == Some(Fold(base', js'))
    ensures s.Load().Some? && Sourced(h, Left(runs, i + 1), s.Load().value)
  {
    ghost var n, m := 0, Fold(base, js);
    r, n, base', js' := PersistChanges(s, runs[i], base, js);
    SourcedLater(h, Left(runs, i), m, runs[i].seen);
    if DeltasOf(m, runs[i]).Some? {
      RunKeepsSourced(Left(runs, i), m, runs[i], n);
    }
    if !r.Crashed? {
      s.HoldsLoads(base', js');
    }
  }

  lemma {:induction false} SourcedFirst(h: Hasher, runs: seq<Applied>, i: nat)
    requires i < |runs| && runs[i].h == h && Upserts(runs[i], true, |runs[i].plan.actions|).Some?
    ensures Sourced(h, Left(runs, i + 1), Fold(map[], Upserts(runs[i], true, |runs[i].plan.actions|).value))
  {
    UpsertsAreFromRun(runs[i], true, |runs[i].plan.actions|);
    PersistKeepsSourced(h, Left(runs, i), map[], runs[i].seen, Upserts(runs[i], true, |runs[i].plan.actions|).value);
  }

  lemma {:induction false} SourcedByAll(h: Hasher, runs: seq<Applied>, i: nat, m: Entries)
    requires i <= |runs| && Sourced(h, Left(runs, i), m)
    ensures Sourced(h, Left(runs, |runs|), m)
    decreases |runs| - i
  {
    if i < |runs| {
      SourcedLater(h, Left(runs, i), m, runs[i].seen);
      SourcedByAll(h, runs, i + 1, m);
    }
  }
}
