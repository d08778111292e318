/**
 The manifest as a cache in front of the live walk: what is recorded of a destination entry, how an
 entry is classified against the record, and why a cached Skip is never one the walk would refuse.
 */
module Index {
  import opened Bytes
  import opened Trees
  import opened Plan
  import opened Journal

  // ---------- recording ----------

  /** The length `stat` reports: of a link it is its target's, of a directory whatever the system says. */
  function RawLen(n: Node, dirLen: nat): nat {
    match n
    case File(content, _, _) => |content|
    case Dir(_, _) => dirLen
    case Symlink(target, _) => |target|
  }

  /** What reading a path yields, links followed; none where that fails. */
  type Reader = Path -> Option<Buffer>

  function ReadThrough(seen: Sight, through: Reader, p: Path): Option<Buffer>
    requires p in seen
  {
    match seen[p].node
    case File(content, _, _) => Some(content)
    case Symlink(_, _) => through(p)
    case Dir(_, _) => None
  }

  /** `entry_from_destination`: fails when the path is gone, is not a link where it must be, or cannot be hashed. */
  function RecordFor(h: Hasher, seen: Sight, dirLen: nat, through: Reader, e: Entry,
                     withHash: bool): Option<ManifestEntry>
  {
    if e.rel !in seen then None
    else
      var o := seen[e.rel];
      var size, mtime, mode := RawLen(o.node, dirLen), o.node.mtime, ModeOf(o.node);
      match e.kind
      case KindDir => Some(ManifestEntry(KDir, size, mtime, o.ino, mode, None, None))
      case KindSymlink(_) =>
        if o.node.Symlink? then Some(ManifestEntry(KSymlink, size, mtime, o.ino, mode, None, Some(o.node.target)))
        else None
      case KindFile =>
        if !withHash then Some(ManifestEntry(KFile, size, mtime, o.ino, mode, None, None))
        else match ReadThrough(seen, through, e.rel)
          case Some(content) => Some(ManifestEntry(KFile, size, mtime, o.ino, mode, Some(h(content)), None))
          case None => None
  }

  // ---------- classifying ----------

  /** `metadata_matches`: the source entry against the record. */
  predicate MetadataMatches(e: Entry, r: ManifestEntry) {
    e.len == r.size && e.mtime == r.mtime && e.mode == r.mode
  }

  predicate KindMatches(r: EntryKind, n: Node) {
    (r.KFile? && n.File?) || (r.KDir? && n.Dir?) || (r.KSymlink? && n.Symlink?)
  }

  /** `destination_matches`: the record against the live destination, identity included. */
  predicate DestinationMatches(r: ManifestEntry, seen: Sight, p: Path, target: Option<string>) {
    && p in seen
    && var o := seen[p];
       && KindMatches(r.kind, o.node) && o.ino == r.ino
       && (r.kind.KFile? ==> RawLen(o.node, 0) == r.size)
       && o.node.mtime == r.mtime && ModeOf(o.node) == r.mode
       && (target.Some? ==> o.node.Symlink? && o.node.target == target.value)
  }

  function FromMatch(matches: bool): Action {
    if matches then Skip else Update
  }

  /** `Manifest::classify`. */
  function IndexClassify(h: Hasher, m: Entries, src: Tree, seen: Sight, e: Entry, checksum: bool): Action {
    if e.rel !in m then Copy
    else
      var r := m[e.rel];
      match e.kind
      case KindDir =>
        if r.kind.KDir? then FromMatch(MetadataMatches(e, r) && DestinationMatches(r, seen, e.rel, None)) else Update
      case KindSymlink(target) =>
        if r.kind.KSymlink?
        then FromMatch(r.target == Some(target) && MetadataMatches(e, r) &&
                       DestinationMatches(r, seen, e.rel, Some(target)))
        else Update
      case KindFile =>
        if !r.kind.KFile? || !MetadataMatches(e, r) || !DestinationMatches(r, seen, e.rel, None) then Update
        else if !checksum then Skip
        else FromMatch(r.hash.Some? && e.rel in src && src[e.rel].node.File? &&
                       r.hash.value == h(src[e.rel].node.content))
  }

  /**
   What is copied is what is not recorded. Nothing is skipped unless the record, the source entry and what
   is seen have one kind, mode and exact time, and what is seen has the recorded identity.
   */
  lemma {:induction false} SkipNeedsBoth(h: Hasher, m: Entries, src: Tree, seen: Sight, p: Path, checksum: bool)
    requires p in src
    ensures var action := IndexClassify(h, m, src, seen, EntryOf(p, src[p]), checksum);
            && (action == Copy <==> p !in m)
            && (action == Skip ==>
                  && p in m && p in seen && KindMatches(m[p].kind, src[p].node) && KindMatches(m[p].kind, seen[p].node)
                  && m[p].mtime == src[p].node.mtime == seen[p].node.mtime
                  && m[p].mode == ModeOf(src[p].node) == ModeOf(seen[p].node) && m[p].ino == seen[p].ino
                  && (src[p].node.File? ==> m[p].size == |src[p].node.content|)
                  && (src[p].node.File? && seen[p].node.File? ==> |seen[p].node.content| == |src[p].node.content|)
                  && (src[p].node.File? && checksum ==> m[p].hash == Some(h(src[p].node.content))))
  {
  }

  // ---------- the cache is never bolder than the walk ----------

  /** A recorded hash is that of the live content whenever the rest of the record still matches. */
  ghost predicate Justified(h: Hasher, m: Entries, seen: Sight) {
    forall p :: p in m && p in seen && m[p].kind.KFile? && m[p].hash.Some? && seen[p].node.File? ==>
                DestinationMatches(m[p], seen, p, None) ==> m[p].hash.value == h(seen[p].node.content)
  }

  /** Whatever the index leaves alone, the classification of what is seen leaves alone too. */
  lemma {:induction false} IndexSkipIsSeenSkip(h: Hasher, m: Entries, src: Tree, seen: Sight, p: Path, checksum: bool)
    requires p in src && (checksum ==> Justified(h, m, seen))
    requires IndexClassify(h, m, src, seen, EntryOf(p, src[p]), checksum) == Skip
    ensures p in seen && Classify(h, src, seen, p, checksum) == Skip
  {
  }

  /** A cached Skip is one the live walk would also give, exactly if no link is on the way to the path. */
  lemma {:induction false} IndexSkipIsWalkSkip(h: Hasher, m: Entries, src: Tree, dst: Tree, seen: Sight, p: Path,
                                               checksum: bool)
    requires p in src && Closed(dst) && Sees(dst, seen) && (checksum ==> Justified(h, m, seen))
    requires IndexClassify(h, m, src, seen, EntryOf(p, src[p]), checksum) == Skip
    ensures Classify(h, src, dst, p, checksum) == Skip <==> !BehindLink(dst, p)
    ensures BehindLink(dst, p) ==> Classify(h, src, dst, p, checksum) == Copy
  {
    IndexSkipIsSeenSkip(h, m, src, seen, p, checksum);
    if BehindLink(dst, p) {
      BehindLinkIsAbsent(dst, p);
    }
  }

  /** `plan_from_manifest`: the cached classification, then the same hard-link rule. */
  function IndexAction(h: Hasher, m: Entries, src: Tree, seen: Sight, es: seq<Entry>, opts: PlanOptions, i: nat): Action
    requires i < |es|
  {
    var raw := IndexClassify(h, m, src, seen, es[i], opts.checksum);
    if opts.hardLinks then Enforced(es, seen, i, raw) else raw
  }

  /** No link is on the way to entry `i` or, where hard links matter, to its group's first member. */
  ghost predicate Direct(dst: Tree, es: seq<Entry>, opts: PlanOptions, i: nat)
    requires i < |es|
  {
    && !BehindLink(dst, es[i].rel)
    && (opts.hardLinks && IsDuplicate(es, i) ==> !BehindLink(dst, es[FirstNamed(es, es[i].ino, i)].rel))
  }

  /** What an index plan leaves alone a walk plan leaves alone too, exactly if no link is on the way. */
  lemma {:induction false} IndexPlanSkipsLess(h: Hasher, m: Entries, src: Tree, dst: Tree, seen: Sight, es: seq<Entry>,
                                              opts: PlanOptions, i: nat)
    requires IsWalk(src, es) && i < |es| && (opts.checksum ==> Justified(h, m, seen))
    requires Closed(dst) && Sees(dst, seen)
    requires IndexAction(h, m, src, seen, es, opts, i) == Skip
    ensures ActionFor(h, src, dst, opts, es, i) == Skip <==> Direct(dst, es, opts, i)
  {
    var p := es[i].rel;
    assert es[i] == EntryOf(p, src[p]);
    IndexSkipIsWalkSkip(h, m, src, dst, seen, p, opts.checksum);
    IndexSkipIsSeenSkip(h, m, src, seen, p, opts.checksum);
    if opts.hardLinks && IsDuplicate(es, i) {
      var q := es[FirstNamed(es, es[i].ino, i)].rel;
      assert Identity(seen, p) == Identity(seen, q);
      if BehindLink(dst, q) {
        BehindLinkIsAbsent(dst, q);
      }
    }
  }

  /**
   Where a link is on the way: a directory recorded with a file in it, then moved away and linked back.
   The index finds the file through the link and leaves it alone, the walk does not see it.
   */
  lemma {:induction false} LinkedBackIsSkipped(h: Hasher, m: Entries, dirLen: nat, through: Reader, src: Tree,
                                               dst: Tree, seen: Sight, d: Path, x: Path, e: Path, dir: Obj, file: Obj,
                                               link: Obj)
    requires d == ["d"] && x == ["d", "x"] && e == ["e"]
    requires dir.node.Dir? && file.node.File? && link.node.Symlink?
    requires src == map[d := dir, x := file]
    requires dst == map[e := dir, e + ["x"] := file, d := link] && seen == dst[x := file]
    requires x in m && RecordFor(h, src, dirLen, through, EntryOf(x, file), false) == Some(m[x])
    ensures Closed(src) && Closed(dst) && Sees(dst, seen) && BehindLink(dst, x)
    ensures IndexClassify(h, m, src, seen, EntryOf(x, file), false) == Skip && Classify(h, src, dst, x, false) == Copy
    ensures IndexClassify(h, m, src, seen, EntryOf(d, dir), false) != Skip
  {
    assert "d"[0] != "e"[0];
    assert x[..1] == d && d[0] == "d" && e[0] == "e" && (e + ["x"])[0] == "e";
    assert Parent(x) == d && Parent(e + ["x"]) == e;
  }

  /** `plan_from_manifest`, which is never asked for deletions. */
  method PlanFromManifest(h: Hasher, m: Entries, src: Tree, seen: Sight, es: seq<Entry>, opts: PlanOptions)
    returns (planned: seq<PlannedAction>)
    ensures |planned| == |es|
    ensures forall i :: 0 <= i < |es| ==> planned[i] == PlannedAction(es[i], IndexAction(h, m, src, seen, es, opts, i))
  {
    var actions := new Action[|es|](i requires 0 <= i < |es| => IndexClassify(h, m, src, seen, es[i], opts.checksum));
    if opts.hardLinks {
      EnforceHardlinkActions(es, seen, actions);
    }
    planned := seq(|es|, i requires 0 <= i < |es| reads actions => PlannedAction(es[i], actions[i]));
  }

  // ---------- hard links through the cache ----------

  /** Two records no classification can tell apart. */
  predicate SameRecord(a: ManifestEntry, b: ManifestEntry, checksum: bool) {
    && a.kind == b.kind && a.size == b.size && a.mtime == b.mtime && a.ino == b.ino && a.mode == b.mode
    && (checksum ==> a.hash == b.hash)
  }

  /**
   A live-walk plan never leaves a duplicate alone without its group's first member. An index plan does
   exactly when the manifest's records of the two differ, or the first member has none: the first
   member is then copied afresh, and the duplicate stays behind on the old inode.
   */
  lemma {:induction false} IndexDuplicateFollowsFirst(h: Hasher, m: Entries, src: Tree, seen: Sight, es: seq<Entry>,
                                                      opts: PlanOptions, i: nat)
    requires IsWalk(src, es) && Coherent(src) && Coherent(seen) && opts.hardLinks
    requires i < |es| && IsDuplicate(es, i) && IndexAction(h, m, src, seen, es, opts, i) == Skip
    ensures var f := FirstNamed(es, es[i].ino, i);
            && f < i && es[i].rel in m
            && (IndexAction(h, m, src, seen, es, opts, f) == Skip <==>
                es[f].rel in m && SameRecord(m[es[f].rel], m[es[i].rel], opts.checksum))
  {
    var f := FirstNamed(es, es[i].ino, i);
    FirstNamedIsFirst(es, es[i].ino, i);
    FirstNamedIsFirst(es, es[f].ino, f);
    var p, q := es[i].rel, es[f].rel;
    assert es[i] == EntryOf(p, src[p]) && es[f] == EntryOf(q, src[q]);
    assert src[p] == src[q];
    assert Identity(seen, p) == Identity(seen, q);
    assert seen[p] == seen[q];
  }

  /** Such a split: two names of one file on both sides, of which the manifest knows only the second. */
  lemma {:induction false} IndexCanSplitGroup()
    ensures exists h: Hasher, m: Entries, t: Tree, es: seq<Entry> ::
              && IsWalk(t, es) && Coherent(t) && |es| == 2 && IsDuplicate(es, 1)
              && IndexAction(h, m, t, t, es, PlanOptions(false, false, true), 0) == Copy
              && IndexAction(h, m, t, t, es, PlanOptions(false, false, true), 1) == Skip
  {
    var h: Hasher := (b: Buffer) => b;
    var mode, time := Mode(false, false, false, 420), Time(0, 0);
    var o := Obj(7, File([], mode, time));
    var p, q: Path := ["a"], ["b"];
    var t: Tree := map[p := o, q := o];
    var es := [EntryOf(p, o), EntryOf(q, o)];
    var m: Entries := map[q := ManifestEntry(KFile, 0, time, 7, mode, None, None)];
    assert p[0] == "a" && q[0] == "b" && "a"[0] != "b"[0];
    assert FirstNamed(es, 7, 1) == 0;
    assert es[0].rel == p && es[1].rel == q;
    assert IsWalk(t, es);
    assert IndexAction(h, m, t, t, es, PlanOptions(false, false, true), 0) == Copy;
    assert IndexAction(h, m, t, t, es, PlanOptions(false, false, true), 1) == Skip;
  }

  // ---------- any history of runs ----------

  /** The record was made of what `seen` had at `p`. */
  ghost predicate MadeFrom(h: Hasher, seen: Sight, p: Path, r: ManifestEntry) {
    && p in seen
    && r.ino == seen[p].ino && r.mtime == seen[p].node.mtime
    && (!seen[p].node.Dir? ==> r.size == RawLen(seen[p].node, 0))
    && (r.hash.Some? ==> !seen[p].node.Dir? && (seen[p].node.File? ==> r.hash.value == h(seen[p].node.content)))
  }

  lemma {:induction false} RecordIsMadeFrom(h: Hasher, seen: Sight, dirLen: nat, through: Reader, e: Entry,
                                            withHash: bool)
    requires RecordFor(h, seen, dirLen, through, e, withHash).Some?
    ensures MadeFrom(h, seen, e.rel, RecordFor(h, seen, dirLen, through, e, withHash).value)
  {
  }

  /** Every record was made of some destination state of the history. */
  ghost predicate Sourced(h: Hasher, history: seq<Sight>, m: Entries) {
    forall p :: p in m ==> exists i :: 0 <= i < |history| && MadeFrom(h, history[i], p, m[p])
  }

  /** A delta of a run records the destination as that run left it. */
  ghost predicate FromRun(h: Hasher, seen: Sight, ds: seq<Delta>) {
    forall k :: 0 <= k < |ds| && ds[k].Upsert? ==> MadeFrom(h, seen, ds[k].path, ds[k].entry)
  }

  /** Persisting a run keeps every record sourced, whichever deltas reached the disk. */
  lemma {:induction false} PersistKeepsSourced(h: Hasher, history: seq<Sight>, m: Entries, seen: Sight, ds: seq<Delta>)
    requires Sourced(h, history, m) && FromRun(h, seen, ds)
    ensures Sourced(h, history + [seen], Fold(m, ds))
  {
    forall p | p in Fold(m, ds)
      ensures exists i :: 0 <= i < |history + [seen]| && MadeFrom(h, (history + [seen])[i], p, Fold(m, ds)[p])
    {
      FoldIsLastWord(m, ds, p);
      LastWordComesFrom(ds, p, Lookup(m, p));
      if exists k :: 0 <= k < |ds| && ds[k] == Upsert(p, Fold(m, ds)[p]) {
        assert MadeFrom(h, (history + [seen])[|history|], p, Fold(m, ds)[p]);
      } else {
        var i :| 0 <= i < |history| && MadeFrom(h, history[i], p, m[p]);
        assert MadeFrom(h, (history + [seen])[i], p, Fold(m, ds)[p]);
      }
    }
  }

  lemma {:induction false} LastWordComesFrom(ds: seq<Delta>, p: Path, unless: Option<ManifestEntry>)
    ensures var r := LastWord(ds, p, unless);
            r == unless || r == None || exists k :: 0 <= k < |ds| && ds[k] == Upsert(p, r.value)
    decreases |ds|
  {
    if ds != [] {
      var d := ds[|ds| - 1];
      if d.path != p {
        LastWordComesFrom(ds[..|ds| - 1], p, unless);
      }
    }
  }

  /**
   The assumption every stat-based cache makes: a file that shows the inode, length and time of an
   earlier moment of the history was a file then, and still has the bytes it had.
   */
  ghost predicate ContentFollowsStat(history: seq<Sight>, seen: Sight) {
    forall i, p :: 0 <= i < |history| && p in history[i] && p in seen && SameStat(history[i][p], seen[p]) ==>
      history[i][p].node.File? && history[i][p].node.content == seen[p].node.content
  }

  predicate SameStat(a: Obj, b: Obj) {
    && !a.node.Dir? && b.node.File? && a.ino == b.ino
    && a.node.mtime == b.node.mtime && RawLen(a.node, 0) == |b.node.content|
  }

  /** Over any history of runs, a checksummed cache is justified at every later moment. */
  lemma {:induction false} HistoryJustifies(h: Hasher, history: seq<Sight>, m: Entries, seen: Sight)
    requires Sourced(h, history, m) && ContentFollowsStat(history, seen)
    ensures Justified(h, m, seen)
  {
    forall p | p in m && p in seen && m[p].kind.KFile? && m[p].hash.Some? && seen[p].node.File? &&
               DestinationMatches(m[p], seen, p, None)
      ensures m[p].hash.value == h(seen[p].node.content)
    {
      var i :| 0 <= i < |history| && MadeFrom(h, history[i], p, m[p]);
      assert SameStat(history[i][p], seen[p]);
    }
  }

  /**
   A file recorded as the destination has it is skipped next time exactly if source and destination
   agree in length, mode and exact time and, when checksums are asked for, in hash.
   */
  lemma {:induction false} FreshFileRecord(h: Hasher, m: Entries, src: Tree, seen: Sight, p: Path, dirLen: nat,
                                           through: Reader, checksum: bool)
    requires p in src && p in seen && src[p].node.File? && seen[p].node.File? && p in m
    requires RecordFor(h, seen, dirLen, through, EntryOf(p, src[p]), checksum) == Some(m[p])
    ensures IndexClassify(h, m, src, seen, EntryOf(p, src[p]), checksum) == Skip <==>
              && |src[p].node.content| == |seen[p].node.content|
              && src[p].node.mode == seen[p].node.mode && src[p].node.mtime == seen[p].node.mtime
              && (checksum ==> h(src[p].node.content) == h(seen[p].node.content))
  {
  }

  // ---------- a cost the cache pays ----------

  /**
   A walk records links and directories with length zero, while the record keeps what `stat` said. So
   a link fresh in the index is left alone only if its target is empty: indexed links are always
   replaced, although nothing about them changed.
   */
  lemma {:induction false} IndexedLinkIsRedone(h: Hasher, m: Entries, src: Tree, seen: Sight, p: Path, dirLen: nat,
                                               through: Reader, checksum: bool)
    requires p in src && p in seen && src[p].node.Symlink? && seen[p].node == src[p].node && p in m
    requires RecordFor(h, seen, dirLen, through, EntryOf(p, src[p]), checksum) == Some(m[p])
    ensures Classify(h, src, seen, p, checksum) == Skip
    ensures IndexClassify(h, m, src, seen, EntryOf(p, src[p]), checksum) == Skip <==> src[p].node.target == ""
  {
    assert |src[p].node.target| == 0 <==> src[p].node.target == "";
  }
  /** The same for a directory: only a system that reports length zero for it lets it rest. */
  lemma {:induction false} IndexedDirIsRedone(h: Hasher, m: Entries, src: Tree, seen: Sight, p: Path, dirLen: nat,
                                              through: Reader, checksum: bool)
    requires p in src && p in seen && src[p].node.Dir? && seen[p].node == src[p].node && p in m
    requires RecordFor(h, seen, dirLen, through, EntryOf(p, src[p]), checksum) == Some(m[p])
    ensures Classify(h, src, seen, p, checksum) == Skip
    ensures IndexClassify(h, m, src, seen, EntryOf(p, src[p]), checksum) == Skip <==> dirLen == 0
  {
  }
}
