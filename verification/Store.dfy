/**
 The persistent manifest as a store that may lose power at any byte and between any two calls: an
 atomic snapshot, an append-only journal, and compaction. `fuel` counts the bytes and calls left
 before the crash; every property is proved for every value of it.
 */
module Store {
  import opened Bytes
  import opened Journal

  const FORMAT_VERSION := 3
  const COMPACT_BYTES := 67108864

  datatype Snapshot = Snapshot(version: nat, entries: Entries)

  /** The whole-manifest serializer beside the record codec. */
  datatype Format = Format(records: Codec, encodeAll: Snapshot -> Buffer, decodeAll: Buffer -> Option<Snapshot>)

  ghost predicate Sane(f: Format) {
    Faithful(f.records) && forall s :: f.decodeAll(f.encodeAll(s)) == Some(s)
  }

  function JournalBytes(journal: Option<Buffer>): Buffer {
    if journal.None? then [] else journal.value
  }

  /** `load`: a compatible snapshot with the journal replayed over it. */
  function LoadFrom(f: Format, snapshot: Option<Buffer>, journal: Option<Buffer>): Option<Entries> {
    match snapshot
    case None => None
    case Some(bytes) =>
      match f.decodeAll(bytes)
      case None => None
      case Some(s) =>
        if s.version != FORMAT_VERSION then None else Some(Replay(f.records, s.entries, JournalBytes(journal)))
  }

  /** A snapshot loads if and only if it is one of version 3. */
  lemma {:induction false} OtherVersions(f: Format, version: nat, m: Entries, journal: Option<Buffer>)
    requires Sane(f)
    ensures LoadFrom(f, Some(f.encodeAll(Snapshot(version, m))), journal).Some? <==> version == 3
  {
    assert f.decodeAll(f.encodeAll(Snapshot(version, m))) == Some(Snapshot(version, m));
  }

  /** How a call sequence ended: to the end, at a crash, or refused with an error. */
  datatype Ended = Finished | Crashed | Rejected

  /** The first `n` records in full, and `k` bytes of the one after them. */
  function Partial(c: Codec, ds: seq<Delta>, n: nat, k: nat): Buffer
    requires n <= |ds| && (n < |ds| ==> k <= |RecordOf(c, ds[n])|)
  {
    Serialize(c, ds[..n]) + if n < |ds| then RecordOf(c, ds[n])[..k] else []
  }

  lemma {:induction false} PartialIsPart(c: Codec, ds: seq<Delta>, n: nat, k: nat)
    requires n <= |ds| && (n < |ds| ==> k <= |RecordOf(c, ds[n])|)
    ensures |Partial(c, ds, n, k)| <= |Serialize(c, ds)|
    ensures n == |ds| ==> Partial(c, ds, n, k) == Serialize(c, ds)
  {
    SerializeAppend(c, ds[..n], ds[n..]);
    assert ds[..n] + ds[n..] == ds;
    if n == |ds| {
      assert ds[..n] == ds;
    }
  }

  /** Fewer bytes than a record of `ds[n]` has, and none of it if it does not fit. */
  ghost predicate Torn(c: Codec, ds: seq<Delta>, n: nat, k: nat) {
    && n <= |ds| && AllFit(c, ds[..n])
    && (n < |ds| ==> k < |RecordOf(c, ds[n])| && (FitsRecord(c, ds[n]) || k == 0))
  }

  /** Whatever part of an append reached the disk, replay sees exactly the records that are whole. */
  lemma {:induction false} ReplayPartial(c: Codec, e: Entries, js: seq<Delta>, ds: seq<Delta>, n: nat, k: nat)
    requires Faithful(c) && AllFit(c, js) && Torn(c, ds, n, k)
    ensures Replay(c, e, Serialize(c, js) + Partial(c, ds, n, k)) == Fold(Fold(e, js), ds[..n])
  {
    var tail := if n < |ds| then RecordOf(c, ds[n])[..k] else [];
    ReplaySerialized(c, e, js, Partial(c, ds, n, k));
    ReplaySerialized(c, Fold(e, js), ds[..n], tail);
    if n < |ds| {
      if k == 0 {
        assert tail == [];
      } else {
        ParseTorn(c, ds[n], k);
      }
    }
  }

  /** A snapshot that absorbed a journal still standing beside it loads as itself. */
  lemma {:induction false} AbsorbedTwice(f: Format, base: Entries, js: seq<Delta>)
    requires Sane(f) && AllFit(f.records, js)
    ensures LoadFrom(f, Some(f.encodeAll(Snapshot(FORMAT_VERSION, Fold(base, js)))), Some(Serialize(f.records, js))) ==
              Some(Fold(base, js))
  {
    var c, m := f.records, Fold(base, js);
    assert Serialize(c, js) + [] == Serialize(c, js);
    ReplaySerialized(c, m, js, []);
    FoldTwice(base, js);
    assert f.decodeAll(f.encodeAll(Snapshot(FORMAT_VERSION, m))) == Some(Snapshot(FORMAT_VERSION, m));
  }

  class Store {
    const format: Format
    var snapshot: Option<Buffer>
    var journal: Option<Buffer>
    var fuel: nat

    constructor (format: Format, snapshot: Option<Buffer>, journal: Option<Buffer>, fuel: nat)
      ensures this.format == format && this.snapshot == snapshot && this.journal == journal && this.fuel == fuel
    {
      this.format, this.snapshot, this.journal, this.fuel := format, snapshot, journal, fuel;
    }

    function Load(): Option<Entries>
      reads this
    {
      LoadFrom(format, snapshot, journal)
    }

    /** A snapshot of this format, and a journal that is `js` printed in full. */
    ghost predicate Holds(base: Entries, js: seq<Delta>)
      reads this
    {
      && Sane(format) && AllFit(format.records, js)
      && snapshot.Some? && format.decodeAll(snapshot.value) == Some(Snapshot(FORMAT_VERSION, base))
      && JournalBytes(journal) == Serialize(format.records, js)
    }

    lemma {:induction false} HoldsLoads(base: Entries, js: seq<Delta>)
      requires Holds(base, js)
      ensures Load() == Some(Fold(base, js))
    {
      assert Serialize(format.records, js) + [] == Serialize(format.records, js);
      ReplaySerialized(format.records, base, js, []);
    }

    /** One byte or one call that either happens or is never reached. */
    method Spend() returns (alive: bool)
      modifies this`fuel
      ensures alive <==> old(fuel) > 0
      ensures fuel == if alive then old(fuel) - 1 else 0
    {
      alive := fuel > 0;
      if alive {
        fuel := fuel - 1;
      }
    }

    /** `write_all` on the journal, which a crash may stop after any byte. */
    method WriteAll(bytes: Buffer) returns (alive: bool, ghost n: nat)
      requires journal.Some?
      modifies this`journal, this`fuel
      ensures n <= |bytes| && journal == Some(old(journal).value + bytes[..n])
      ensures (alive <==> n == |bytes|) && (!alive ==> fuel == 0) && old(fuel) == fuel + n
    {
      ghost var before := journal.value;
      var i := 0;
      assert before + bytes[..0] == before;
      while i < |bytes|
        invariant i <= |bytes| && journal.Some? && journal.value == before + bytes[..i] && old(fuel) == fuel + i
      {
        alive := Spend();
        if !alive {
          return false, i;
        }
        assert before + bytes[..i] + [bytes[i]] == before + bytes[..i + 1];
        journal := Some(journal.value + [bytes[i]]);
        i := i + 1;
      }
      return true, i;
    }

    /** One record: its length, its checksum and its payload, written in turn. */
    method WriteRecord(d: Delta) returns (alive: bool, ghost n: nat)
      requires journal.Some? && Faithful(format.records)
      modifies this`journal, this`fuel
      ensures n <= |RecordOf(format.records, d)|
      ensures journal == Some(old(journal).value + RecordOf(format.records, d)[..n])
      ensures (alive <==> n == |RecordOf(format.records, d)|) && (!alive ==> fuel == 0) && old(fuel) == fuel + n
    {
      var payload := format.records.encode(d);
      var head, sum := ToLe(|payload|, 4), format.records.hash(payload);
      ghost var r, before := RecordOf(format.records, d), journal.value;
      alive, n := WriteAll(head);
      assert head[..n] == r[..n];
      if alive {
        ghost var k;
        alive, k := WriteAll(sum);
        n := 4 + k;
        assert before + head[..4] + sum[..k] == before + r[..n];
        if alive {
          alive, k := WriteAll(payload);
          n := 36 + k;
          assert before + r[..36] + payload[..k] == before + r[..n];
        }
      }
    }

    /** The record loop of `append`; a payload too long for its length prefix ends it. */
    method AppendRecords(deltas: seq<Delta>) returns (r: Ended, ghost n: nat, ghost k: nat)
      requires Faithful(format.records) && journal.Some?
      modifies this`journal, this`fuel
      ensures Torn(format.records, deltas, n, k)
      ensures journal == Some(old(journal).value + Partial(format.records, deltas, n, k))
      ensures (r.Finished? ==> n == |deltas|) && (!r.Crashed? ==> k == 0)
      ensures (r.Rejected? ==> !AllFit(format.records, deltas)) && (r.Crashed? ==> fuel == 0)
      ensures (r.Crashed? ==> n < |deltas|) && old(fuel) == fuel + |Partial(format.records, deltas, n, k)|
    {
      ghost var c, before := format.records, journal.value;
      var i := 0;
      PartialAt(c, before, deltas, 0, 0);
      while i < |deltas|
        invariant i <= |deltas| && journal.Some? && Torn(c, deltas, i, 0)
        invariant journal.value == before + Partial(c, deltas, i, 0)
        invariant old(fuel) == fuel + |Partial(c, deltas, i, 0)|
      {
        if |format.records.encode(deltas[i])| > U32_MAX {
          assert !FitsRecord(c, deltas[i]);
          return Rejected, i, 0;
        }
        var alive;
        alive, k := WriteRecord(deltas[i]);
        PartialAt(c, before, deltas, i, k);
        if !alive {
          return Crashed, i, k;
        }
        OneMoreRecord(c, deltas, i);
        i := i + 1;
      }
      return Finished, i, 0;
    }

    /** `append`: nothing to do without deltas; otherwise record after record, then a sync. */
    method Append(deltas: seq<Delta>) returns (r: Ended, ghost n: nat, ghost k: nat)
      requires Faithful(format.records)
      modifies this`journal, this`fuel
      ensures Torn(format.records, deltas, n, k)
      ensures JournalBytes(journal) == JournalBytes(old(journal)) + Partial(format.records, deltas, n, k)
      ensures (r.Finished? ==> n == |deltas|) && (!r.Crashed? ==> k == 0)
      ensures (r.Rejected? ==> !AllFit(format.records, deltas)) && (r.Crashed? ==> fuel == 0)
      ensures r.Crashed? ==> deltas != [] && old(fuel) < 2 + |Serialize(format.records, deltas)|
      ensures r.Finished? ==> old(fuel) == fuel + if deltas == [] then 0 else 2 + |Serialize(format.records, deltas)|
    {
      PartialAt(format.records, JournalBytes(journal), deltas, 0, 0);
      if deltas == [] {
        return Finished, 0, 0;
      }
      var alive := Spend();
      if !alive {
        return Crashed, 0, 0;
      }
      journal := Some(JournalBytes(journal));  // opened with create
      r, n, k := AppendRecords(deltas);
      PartialIsPart(format.records, deltas, n, k);
      if r.Finished? {
        alive := Spend();  // sync_data
        r := if alive then Finished else Crashed;
      }
    }

    /** `needs_compaction`. */
    function NeedsCompaction(): bool
      reads this
    {
      var j, s := |JournalBytes(journal)|, if snapshot.Some? then |snapshot.value| else 0;
      j > COMPACT_BYTES || (s > 0 && j > s / 10)
    }

    /** `save_snapshot`: write aside, rename over, then drop the journal. */
    method SaveSnapshot(m: Entries) returns (r: Ended)
      modifies this
      ensures !r.Rejected? && (r.Crashed? ==> fuel == 0)
      ensures snapshot == old(snapshot) || snapshot == Some(format.encodeAll(Snapshot(FORMAT_VERSION, m)))
      ensures journal == old(journal) ||
              (journal == None && snapshot == Some(format.encodeAll(Snapshot(FORMAT_VERSION, m))))
      ensures r.Finished? ==> journal == None && snapshot == Some(format.encodeAll(Snapshot(FORMAT_VERSION, m)))
      ensures var cost := |format.encodeAll(Snapshot(FORMAT_VERSION, m))| + 2;
              if r.Crashed? then old(fuel) < cost else old(fuel) == fuel + cost
    {
      var bytes := format.encodeAll(Snapshot(FORMAT_VERSION, m));
      var i := 0;
      while i < |bytes|  // the temporary is no part of what load reads
        invariant i <= |bytes| && snapshot == old(snapshot) && journal == old(journal) && old(fuel) == fuel + i
      {
        var alive := Spend();
        if !alive {
          return Crashed;
        }
        i := i + 1;
      }
      var alive := Spend();
      if !alive {
        return Crashed;
      }
      snapshot := Some(bytes);
      alive := Spend();
      if !alive {
        return Crashed;
      }
      journal := None;
      return Finished;
    }
  }

  /** `k` more bytes of the record after the first `i`. */
  lemma {:induction false} PartialAt(c: Codec, before: Buffer, ds: seq<Delta>, i: nat, k: nat)
    requires i <= |ds| && (if i < |ds| then k <= |RecordOf(c, ds[i])| else k == 0)
    ensures before + Partial(c, ds, i, 0) + (if i < |ds| then RecordOf(c, ds[i])[..k] else []) ==
              before + Partial(c, ds, i, k)
    ensures i == 0 && k == 0 ==> before + Partial(c, ds, i, k) == before
  {
  }

  lemma {:induction false} OneMoreRecord(c: Codec, ds: seq<Delta>, i: nat)
    requires i < |ds| && Torn(c, ds, i, 0) && FitsRecord(c, ds[i])
    ensures Partial(c, ds, i, |RecordOf(c, ds[i])|) == Partial(c, ds, i + 1, 0)
    ensures Torn(c, ds, i + 1, 0)
  {
    assert ds[..i + 1] == ds[..i] + [ds[i]];
    SerializeAppend(c, ds[..i], [ds[i]]);
    assert Serialize(c, [ds[i]]) == RecordOf(c, ds[i]) + [];
  }
}
