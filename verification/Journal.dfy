/**
 The manifest's journal format: length, checksum, payload, one record after another. Replay stops at
 the first record that is incomplete, corrupt or undecodable and keeps everything before it.
 */
module Journal {
  import opened Bytes
  import opened Trees

  datatype EntryKind = KFile | KDir | KSymlink

  /** One recorded destination entry. */
  datatype ManifestEntry = ManifestEntry(kind: EntryKind, size: nat, mtime: Time, ino: nat, mode: Mode,
                                         hash: Option<Buffer>, target: Option<string>)

  type Entries = map<Path, ManifestEntry>

  datatype Delta = Upsert(path: Path, entry: ManifestEntry) | Delete(path: Path)

  /** The serializer and the hash, known only by what is assumed of them. */
  datatype Codec = Codec(encode: Delta -> Buffer, decode: Buffer -> Option<Delta>, hash: Buffer -> Buffer)

  ghost predicate Faithful(c: Codec) {
    && (forall d :: c.decode(c.encode(d)) == Some(d))
    && (forall b :: |c.hash(b)| == 32)
  }

  const HASH_LEN := 32

  // ---------- writing ----------

  /** Payloads whose length the four-byte prefix can carry. */
  predicate FitsRecord(c: Codec, d: Delta) {
    |c.encode(d)| <= U32_MAX
  }

  function RecordOf(c: Codec, d: Delta): Buffer {
    var payload := c.encode(d);
    ToLe(|payload|, 4) + c.hash(payload) + payload
  }

  function Serialize(c: Codec, ds: seq<Delta>): Buffer {
    if ds == [] then [] else RecordOf(c, ds[0]) + Serialize(c, ds[1..])
  }

  ghost predicate AllFit(c: Codec, ds: seq<Delta>) {
    forall i :: 0 <= i < |ds| ==> FitsRecord(c, ds[i])
  }

  // ---------- reading ----------

  datatype Parsed = Stop | Next(delta: Delta, size: nat)

  /** The record at the head of `b`, if there is a complete, intact and decodable one. */
  function ParseOne(c: Codec, b: Buffer): (r: Parsed)
    ensures r.Next? ==> 0 < r.size <= |b|
  {
    if |b| < 36 then Stop
    else
      var length := FromLe(b[..4]);
      if |b| < 36 + length then Stop
      else
        var payload := b[36..36 + length];
        if c.hash(payload) != b[4..36] then Stop
        else match c.decode(payload)
          case None => Stop
          case Some(d) => Next(d, 36 + length)
  }

  function ApplyDelta(e: Entries, d: Delta): Entries {
    match d
    case Upsert(p, v) => e[p := v]
    case Delete(p) => e - {p}
  }

  function Replay(c: Codec, e: Entries, b: Buffer): Entries
    decreases |b|
  {
    match ParseOne(c, b)
    case Stop => e
    case Next(d, size) => Replay(c, ApplyDelta(e, d), b[size..])
  }

  /** `replay_journal`: read exactly four bytes, then 32, then the announced length, or stop. */
  method ReplayJournal(c: Codec, entries: Entries, file: Buffer) returns (e: Entries)
    ensures e == Replay(c, entries, file)
  {
    e := entries;
    var pos := 0;
    assert file[0..] == file;
    while true
      invariant pos <= |file|
      invariant Replay(c, e, file[pos..]) == Replay(c, entries, file)
      decreases |file| - pos
    {
      ghost var rest := file[pos..];
      if |file| - pos < 4 {
        return;
      }
      var length := FromLe(file[pos..pos + 4]);
      assert rest[..4] == file[pos..pos + 4];
      if |file| - pos < 4 + HASH_LEN {
        return;
      }
      var expected := file[pos + 4..pos + 36];
      assert rest[4..36] == expected;
      if |file| - pos < 36 + length {
        return;
      }
      var payload := file[pos + 36..pos + 36 + length];
      assert rest[36..36 + length] == payload;
      if c.hash(payload) != expected {
        return;
      }
      var decoded := c.decode(payload);
      if decoded.None? {
        return;
      }
      assert rest[36 + length..] == file[pos + 36 + length..];
      e := ApplyDelta(e, decoded.value);
      pos := pos + 36 + length;
    }
  }

  // ---------- which records count ----------

  /** From `from` to `to`: the payload's length, a sum it hashes to, and a payload that decodes to `d`. */
  ghost predicate RecordIn(c: Codec, b: Buffer, from: nat, to: nat, d: Delta) {
    && from + 36 <= to <= |b|
    && FromLe(b[from..from + 4]) == to - from - 36
    && c.hash(b[from + 36..to]) == b[from + 4..from + 36]
    && c.decode(b[from + 36..to]) == Some(d)
  }

  /** The records of `b` one after another, and none after the last. */
  ghost predicate Records(c: Codec, b: Buffer, cuts: seq<nat>, ds: seq<Delta>) {
    && |cuts| == |ds| + 1
    && (forall k :: 0 <= k < |ds| ==> RecordIn(c, b, cuts[k], cuts[k + 1], ds[k]))
    && forall to, d :: !RecordIn(c, b, cuts[|ds|], to, d)
  }

  lemma {:induction false} ParsedIsRecord(c: Codec, b: Buffer, from: nat)
    requires from <= |b|
    ensures match ParseOne(c, b[from..])
            case Next(d, size) => RecordIn(c, b, from, from + size, d)
            case Stop => forall to, d :: !RecordIn(c, b, from, to, d)
  {
    var rest := b[from..];
    if |rest| >= 36 {
      assert rest[..4] == b[from..from + 4];
      assert rest[4..36] == b[from + 4..from + 36];
      var length := FromLe(rest[..4]);
      if |rest| >= 36 + length {
        assert rest[36..36 + length] == b[from + 36..from + 36 + length];
      }
    }
  }

  /** Replay of any bytes at all: the leading records whose payloads hash to their sums, and no others. */
  lemma {:induction false} ReplayReads(c: Codec, e: Entries, b: Buffer, from: nat)
    returns (cuts: seq<nat>, ds: seq<Delta>)
    requires from <= |b|
    ensures Records(c, b, cuts, ds) && cuts[0] == from
    ensures Replay(c, e, b[from..]) == Fold(e, ds)
    decreases |b| - from
  {
    ParsedIsRecord(c, b, from);
    match ParseOne(c, b[from..])
    case Stop => cuts, ds := [from], [];
    case Next(d, size) =>
      assert b[from..][size..] == b[from + size..];
      cuts, ds := ReplayReads(c, ApplyDelta(e, d), b, from + size);
      RecordsBefore(c, b, from, cuts, d, ds);
      assert ([d] + ds)[1..] == ds;
      cuts, ds := [from] + cuts, [d] + ds;
  }

  lemma {:induction false} RecordsBefore(c: Codec, b: Buffer, from: nat, cuts: seq<nat>, d: Delta, ds: seq<Delta>)
    requires Records(c, b, cuts, ds) && RecordIn(c, b, from, cuts[0], d)
    ensures Records(c, b, [from] + cuts, [d] + ds)
  {
    var more, all := [from] + cuts, [d] + ds;
    forall k | 0 <= k < |all|
      ensures RecordIn(c, b, more[k], more[k + 1], all[k])
    {
      assert k > 0 ==> all[k] == ds[k - 1] && more[k] == cuts[k - 1] && more[k + 1] == cuts[k];
    }
  }

  /** A record whose payload does not hash to its sum ends the replay; all before it stand. */
  lemma {:induction false} CorruptStops(c: Codec, e: Entries, ds: seq<Delta>, tail: Buffer, length: nat)
    requires Faithful(c) && AllFit(c, ds)
    requires |tail| >= 36 + length && FromLe(tail[..4]) == length
    requires c.hash(tail[36..36 + length]) != tail[4..36]
    ensures Replay(c, e, Serialize(c, ds) + tail) == Fold(e, ds)
  {
    ReplaySerialized(c, e, ds, tail);
  }

  // ---------- parsing what was printed ----------

  lemma {:induction false} ParseRecord(c: Codec, d: Delta, tail: Buffer)
    requires Faithful(c) && FitsRecord(c, d)
    ensures ParseOne(c, RecordOf(c, d) + tail) == Next(d, |RecordOf(c, d)|)
    ensures (RecordOf(c, d) + tail)[|RecordOf(c, d)|..] == tail
  {
    var payload := c.encode(d);
    var b := RecordOf(c, d) + tail;
    assert Pow256(4) == U32_MAX + 1;
    LeRoundTrip(|payload|, 4);
    assert b[..4] == ToLe(|payload|, 4);
    assert b[4..36] == c.hash(payload);
    assert b[36..36 + |payload|] == payload;
  }

  /** A record cut short anywhere is no record. */
  lemma {:induction false} ParseTorn(c: Codec, d: Delta, k: nat)
    requires Faithful(c) && FitsRecord(c, d) && k < |RecordOf(c, d)|
    ensures ParseOne(c, RecordOf(c, d)[..k]) == Stop
  {
    var payload := c.encode(d);
    if k >= 36 {
      assert Pow256(4) == U32_MAX + 1;
      LeRoundTrip(|payload|, 4);
      assert RecordOf(c, d)[..k][..4] == ToLe(|payload|, 4);
    }
  }

  /** Folding the deltas in order. */
  function Fold(e: Entries, ds: seq<Delta>): Entries
    decreases |ds|
  {
    if ds == [] then e else Fold(ApplyDelta(e, ds[0]), ds[1..])
  }

  lemma {:induction false} FoldAppend(e: Entries, a: seq<Delta>, b: seq<Delta>)
    ensures Fold(e, a + b) == Fold(Fold(e, a), b)
    decreases |a|
  {
    if a == [] {
      assert a + b == b;
    } else {
      assert (a + b)[1..] == a[1..] + b;
      FoldAppend(ApplyDelta(e, a[0]), a[1..], b);
    }
  }

  /** Replaying printed records folds them, and then goes on with whatever follows. */
  lemma {:induction false} ReplaySerialized(c: Codec, e: Entries, ds: seq<Delta>, tail: Buffer)
    requires Faithful(c) && AllFit(c, ds)
    ensures Replay(c, e, Serialize(c, ds) + tail) == Replay(c, Fold(e, ds), tail)
    decreases |ds|
  {
    if ds == [] {
      assert Serialize(c, ds) + tail == tail;
    } else {
      var rest := Serialize(c, ds[1..]) + tail;
      assert Serialize(c, ds) + tail == RecordOf(c, ds[0]) + rest;
      ParseRecord(c, ds[0], rest);
      ReplaySerialized(c, ApplyDelta(e, ds[0]), ds[1..], tail);
    }
  }

  /** How many records lie wholly inside the first `k` bytes. */
  function Whole(c: Codec, ds: seq<Delta>, k: nat): (n: nat)
    ensures n <= |ds|
  {
    if ds == [] || k < |RecordOf(c, ds[0])| then 0 else 1 + Whole(c, ds[1..], k - |RecordOf(c, ds[0])|)
  }

  /** A journal cut at any byte replays exactly the records wholly inside what is kept. */
  lemma {:induction false} ReplayTruncated(c: Codec, e: Entries, ds: seq<Delta>, k: nat)
    requires Faithful(c) && AllFit(c, ds) && k <= |Serialize(c, ds)|
    ensures Replay(c, e, Serialize(c, ds)[..k]) == Fold(e, ds[..Whole(c, ds, k)])
    decreases |ds|
  {
    if ds != [] {
      var r := RecordOf(c, ds[0]);
      var s := Serialize(c, ds);
      if k < |r| {
        assert s[..k] == r[..k];
        ParseTorn(c, ds[0], k);
      } else {
        var rest := Serialize(c, ds[1..])[..k - |r|];
        assert s[..k] == r + rest;
        ParseRecord(c, ds[0], rest);
        ReplayTruncated(c, ApplyDelta(e, ds[0]), ds[1..], k - |r|);
        var n := Whole(c, ds[1..], k - |r|);
        assert ds[..n + 1][1..] == ds[1..][..n];
      }
    }
  }

  lemma {:induction false} WholeOfAll(c: Codec, ds: seq<Delta>)
    ensures Whole(c, ds, |Serialize(c, ds)|) == |ds|
  {
    if ds != [] {
      WholeOfAll(c, ds[1..]);
    }
  }

  lemma {:induction false} SerializeAppend(c: Codec, a: seq<Delta>, b: seq<Delta>)
    ensures Serialize(c, a + b) == Serialize(c, a) + Serialize(c, b)
  {
    if a == [] {
      assert a + b == b;
    } else {
      assert (a + b)[1..] == a[1..] + b;
      SerializeAppend(c, a[1..], b);
    }
  }

  // ---------- last writer wins ----------

  function Lookup(e: Entries, p: Path): Option<ManifestEntry> {
    if p in e then Some(e[p]) else None
  }

  /** The value the last delta that names `p` gives it, or `unless` if none does. */
  function LastWord(ds: seq<Delta>, p: Path, unless: Option<ManifestEntry>): Option<ManifestEntry> {
    if ds == [] then unless
    else
      var d := ds[|ds| - 1];
      if d.path == p then (if d.Upsert? then Some(d.entry) else None) else LastWord(ds[..|ds| - 1], p, unless)
  }

  lemma {:induction false} FoldIsLastWord(e: Entries, ds: seq<Delta>, p: Path)
    ensures Lookup(Fold(e, ds), p) == LastWord(ds, p, Lookup(e, p))
    decreases |ds|
  {
    if ds != [] {
      var front, d := ds[..|ds| - 1], ds[|ds| - 1];
      assert ds == front + [d];
      FoldAppend(e, front, [d]);
      FoldIsLastWord(e, front, p);
      assert Fold(Fold(e, front), [d]) == ApplyDelta(Fold(e, front), d);
    }
  }

  lemma {:induction false} LastWordTwice(ds: seq<Delta>, p: Path, unless: Option<ManifestEntry>)
    ensures LastWord(ds, p, LastWord(ds, p, unless)) == LastWord(ds, p, unless)
    decreases |ds|
  {
    if ds != [] && ds[|ds| - 1].path != p {
      LastWordSettles(ds[..|ds| - 1], p, LastWord(ds, p, unless), unless);
      LastWordTwice(ds[..|ds| - 1], p, unless);
    }
  }

  /** Either some delta names `p`, and the default is irrelevant, or none does, and it is the answer. */
  lemma {:induction false} LastWordSettles(ds: seq<Delta>, p: Path, x: Option<ManifestEntry>, y: Option<ManifestEntry>)
    ensures LastWord(ds, p, x) == LastWord(ds, p, y) || (LastWord(ds, p, x) == x && LastWord(ds, p, y) == y)
    decreases |ds|
  {
    if ds != [] && ds[|ds| - 1].path != p {
      LastWordSettles(ds[..|ds| - 1], p, x, y);
    }
  }

  /** Replaying a journal over a manifest that already absorbed it changes nothing. */
  lemma {:induction false} FoldTwice(e: Entries, ds: seq<Delta>)
    ensures Fold(Fold(e, ds), ds) == Fold(e, ds)
  {
    forall p
      ensures Lookup(Fold(Fold(e, ds), ds), p) == Lookup(Fold(e, ds), p)
    {
      FoldIsLastWord(Fold(e, ds), ds, p);
      FoldIsLastWord(e, ds, p);
      LastWordTwice(ds, p, Lookup(e, p));
    }
    SameLookups(Fold(Fold(e, ds), ds), Fold(e, ds));
  }

  lemma {:induction false} SameLookups(a: Entries, b: Entries)
    requires forall p :: Lookup(a, p) == Lookup(b, p)
    ensures a == b
  {
    forall p
      ensures p in a <==> p in b
      ensures p in a && p in b ==> a[p] == b[p]
    {
      assert Lookup(a, p) == Lookup(b, p);
    }
  }
}
