/**
 The verifier: compare entry by entry, then hard-link groups, then look for extra paths. In `All` mode
 a clean report is proved to mean that the two trees agree, and agreement to give a clean report.
 */
module Verify {
  import opened Bytes
  import opened Trees
  import opened Plan

  datatype VerifyMode = Nothing | Changed | All
  datatype Wanted = Wanted(owner: bool, group: bool, hardLinks: bool, sparse: bool, xattrs: bool, acls: bool)

  datatype Detail =
    | Missing | KindDiffers | ModeDiffers | MtimeDiffers | UidDiffers | GidDiffers | ContentDiffers
    | SparseDiffers | TargetDiffers | AttributesDiffer | LinkDiffers | Unexpected

  datatype Mismatch = Mismatch(rel: Path, detail: Detail)
  datatype Summary = Summary(checked: nat, mismatches: seq<Mismatch>)
  datatype Failure = Unreadable(rel: Path) | Cancelled

  /** A tree with the attributes that only the verifier looks at. */
  datatype Side = Side(
    tree: Tree, readable: Path -> bool, uid: Path -> nat, gid: Path -> nat,
    blocks: Path -> Option<nat>, attrs: Path -> Option<map<string, Buffer>>)

  datatype Check = Check(src: Side, dst: Side, h: Hasher, wants: Wanted)

  function ContentAt(t: Tree, p: Path): Buffer {
    if p in t && t[p].node.File? then t[p].node.content else []
  }

  function TargetAt(t: Tree, p: Path): Option<string> {
    if p in t && t[p].node.Symlink? then Some(t[p].node.target) else None
  }

  const ACL_PREFIX := "system.posix_acl_"

  /** `extended_attributes`: access-control lists and the rest, each only if wanted. */
  function AttrsAt(side: Side, w: Wanted, p: Path): Option<map<string, Buffer>> {
    match side.attrs(p)
    case None => None
    case Some(m) => Some(map k | k in m && (if ACL_PREFIX <= k then w.acls else w.xattrs) :: m[k])
  }

  predicate SameKinds(a: Kind, b: Kind) {
    (a.KindFile? <==> b.KindFile?) && (a.KindDir? <==> b.KindDir?)
  }

  /** The kind-specific part of `compare_entry`. */
  function CompareContents(c: Check, e: Entry, d: Entry): Result<Option<Detail>, Failure> {
    if e.kind.KindFile? then
      if e.len != d.len then Ok(Some(ContentDiffers))
      else if !c.src.readable(e.rel) || !c.dst.readable(e.rel) then Err(Unreadable(e.rel))
      else if c.h(ContentAt(c.src.tree, e.rel)) != c.h(ContentAt(c.dst.tree, e.rel)) then Ok(Some(ContentDiffers))
      else if c.wants.sparse && c.src.blocks(e.rel) != c.dst.blocks(e.rel) then Ok(Some(SparseDiffers))
      else Ok(None)
    else if e.kind.KindSymlink? && d.kind.KindSymlink? && e.kind.target != d.kind.target then Ok(Some(TargetDiffers))
    else Ok(None)
  }

  /** `compare_entry`: the first difference found, in the order they are looked for. */
  function CompareEntry(c: Check, e: Entry, found: Option<Entry>): Result<Option<Detail>, Failure> {
    match found
    case None => Ok(Some(Missing))
    case Some(d) =>
      if !SameKinds(e.kind, d.kind) then Ok(Some(KindDiffers))
      else if e.mode != d.mode then Ok(Some(ModeDiffers))
      else if e.mtime != d.mtime then Ok(Some(MtimeDiffers))
      else if c.wants.owner && c.src.uid(e.rel) != c.dst.uid(e.rel) then Ok(Some(UidDiffers))
      else if c.wants.group && c.src.gid(e.rel) != c.dst.gid(e.rel) then Ok(Some(GidDiffers))
      else match CompareContents(c, e, d)
        case Err(f) => Err(f)
        case Ok(Some(detail)) => Ok(Some(detail))
        case Ok(None) =>
          if (c.wants.xattrs || c.wants.acls) && AttrsAt(c.src, c.wants, e.rel) != AttrsAt(c.dst, c.wants, e.rel)
          then Ok(Some(AttributesDiffer))
          else Ok(None)
  }

  // ---------- the three passes, as functions of what they read ----------

  type Index = map<Path, Entry>

  function Lookup(index: Index, p: Path): Option<Entry> {
    if p in index then Some(index[p]) else None
  }

  /** What the first `n` comparisons report; a comparison that fails ends the verification. */
  function Differences(c: Check, es: seq<Entry>, index: Index, n: nat): Result<seq<Mismatch>, Failure>
    requires n <= |es|
  {
    if n == 0 then Ok([])
    else match Differences(c, es, index, n - 1)
      case Err(f) => Err(f)
      case Ok(ms) => match CompareEntry(c, es[n - 1], Lookup(index, es[n - 1].rel))
        case Err(f) => Err(f)
        case Ok(None) => Ok(ms)
        case Ok(Some(detail)) => Ok(ms + [Mismatch(es[n - 1].rel, detail)])
  }

  /** The destination identity the first member of a source group has, among the first `n` entries. */
  function GroupId(es: seq<Entry>, index: Index, ino: nat, n: nat): Option<nat>
    requires n <= |es|
  {
    if n == 0 then None
    else
      var before := GroupId(es, index, ino, n - 1);
      if before.Some? then before
      else if IsFile(es[n - 1]) && es[n - 1].ino == ino && es[n - 1].rel in index then Some(index[es[n - 1].rel].ino)
      else None
  }

  predicate Strays(es: seq<Entry>, index: Index, i: nat)
    requires i < |es|
  {
    IsFile(es[i]) && es[i].rel in index && GroupId(es, index, es[i].ino, i + 1) != Some(index[es[i].rel].ino)
  }

  function LinkDifferences(es: seq<Entry>, index: Index, n: nat): seq<Mismatch>
    requires n <= |es|
  {
    if n == 0 then []
    else
      LinkDifferences(es, index, n - 1)
      + if Strays(es, index, n - 1) then [Mismatch(es[n - 1].rel, LinkDiffers)] else []
  }

  function Surplus(src: set<Path>, ds: seq<Entry>, n: nat): seq<Mismatch>
    requires n <= |ds|
  {
    if n == 0 then []
    else Surplus(src, ds, n - 1) + if ds[n - 1].rel in src then [] else [Mismatch(ds[n - 1].rel, Unexpected)]
  }

  function IndexOf(ds: seq<Entry>, n: nat): Index
    requires n <= |ds|
  {
    if n == 0 then map[] else IndexOf(ds, n - 1)[ds[n - 1].rel := ds[n - 1]]
  }

  function Rels(es: seq<Entry>): set<Path> {
    set e | e in es :: e.rel
  }

  // ---------- the verifier ----------

  /** The entries of a plan the verifier looks up in the destination in `Changed` mode. */
  function LiveEntries(dst: Tree, actions: seq<PlannedAction>, all: bool): seq<Entry> {
    if actions == [] then []
    else
      var p := actions[0].entry.rel;
      (if (all || actions[0].action != Skip) && p in dst then [EntryOf(p, dst[p])] else [])
      + LiveEntries(dst, actions[1..], all)
  }

  function ChangedEntries(actions: seq<PlannedAction>, all: bool): seq<Entry> {
    if actions == [] then []
    else (if all || actions[0].action != Skip then [actions[0].entry] else []) + ChangedEntries(actions[1..], all)
  }

  function LiveIndex(c: Check, actions: seq<PlannedAction>): Index {
    var ds := Retain(LiveEntries(c.dst.tree, actions, c.wants.hardLinks));
    IndexOf(ds, |ds|)
  }

  method BuildIndex(ds: seq<Entry>) returns (index: Index)
    ensures index == IndexOf(ds, |ds|)
  {
    index := map[];
    for i := 0 to |ds|
      invariant index == IndexOf(ds, i)
    {
      index := index[ds[i].rel := ds[i]];
    }
  }

  /** The comparison loop; a cancellation strikes after `patience` checkpoints, if it lasts that long. */
  method CompareAll(c: Check, es: seq<Entry>, index: Index, patience: nat) returns (r: Result<Summary, Failure>)
    ensures r.Ok? ==> Differences(c, es, index, |es|) == Ok(r.value.mismatches) && r.value.checked == |es|
    ensures r.Err? ==> (r.error == Cancelled && patience < |es|) || Differences(c, es, index, |es|) == Err(r.error)
  {
    var checked, mismatches: seq<Mismatch> := 0, [];
    for i := 0 to |es|
      invariant i <= patience && checked == i && Differences(c, es, index, i) == Ok(mismatches)
    {
      if i == patience {
        return Err(Cancelled);
      }
      checked := checked + 1;
      match CompareEntry(c, es[i], Lookup(index, es[i].rel)) {
        case Err(f) =>
          DifferencesFail(c, es, index, i + 1);
          return Err(f);
        case Ok(None) =>
        case Ok(Some(detail)) => mismatches := mismatches + [Mismatch(es[i].rel, detail)];
      }
    }
    r := Ok(Summary(checked, mismatches));
  }

  lemma {:induction false} DifferencesFail(c: Check, es: seq<Entry>, index: Index, n: nat)
    requires n <= |es| && Differences(c, es, index, n).Err?
    ensures Differences(c, es, index, |es|) == Differences(c, es, index, n)
    decreases |es| - n
  {
    if n < |es| {
      DifferencesFail(c, es, index, n + 1);
    }
  }

  /** The hard-link pass, with its map from source identity to the first destination identity seen. */
  method CompareLinks(es: seq<Entry>, index: Index) returns (ms: seq<Mismatch>)
    ensures ms == LinkDifferences(es, index, |es|)
  {
    var groups: map<nat, nat> := map[];
    ms := [];
    for i := 0 to |es|
      invariant ms == LinkDifferences(es, index, i)
      invariant forall ino :: (if ino in groups then Some(groups[ino]) else None) == GroupId(es, index, ino, i)
    {
      if !IsFile(es[i]) || es[i].rel !in index {
        continue;
      }
      var id := index[es[i].rel].ino;
      if es[i].ino !in groups {
        groups := groups[es[i].ino := id];
      }
      if groups[es[i].ino] != id {
        ms := ms + [Mismatch(es[i].rel, LinkDiffers)];
      }
    }
  }

  method FindSurplus(src: set<Path>, ds: seq<Entry>, patience: nat) returns (r: Result<seq<Mismatch>, Failure>)
    ensures r == if patience < |ds| then Err(Cancelled) else Ok(Surplus(src, ds, |ds|))
  {
    var ms: seq<Mismatch> := [];
    for i := 0 to |ds|
      invariant i <= patience && ms == Surplus(src, ds, i)
    {
      if i == patience {
        return Err(Cancelled);
      }
      if ds[i].rel !in src {
        ms := ms + [Mismatch(ds[i].rel, Unexpected)];
      }
    }
    r := Ok(ms);
  }

  /** All that `All` mode reports. */
  function Report(c: Check, es: seq<Entry>, ds: seq<Entry>): Result<seq<Mismatch>, Failure> {
    var index := IndexOf(ds, |ds|);
    match Differences(c, es, index, |es|)
    case Err(f) => Err(f)
    case Ok(ms) =>
      Ok(ms + (if c.wants.hardLinks then LinkDifferences(es, index, |es|) else []) + Surplus(Rels(es), ds, |ds|))
  }

  /** `verify` in `All` mode: the source as walked, the destination without the metadata directory. */
  method VerifyAll(c: Check, srcWalk: seq<Entry>, dstWalk: seq<Entry>, patience: nat)
    returns (r: Result<Summary, Failure>)
    requires IsWalk(c.src.tree, srcWalk) && IsWalk(c.dst.tree, dstWalk)
    ensures r.Ok? ==> Report(c, srcWalk, Retain(dstWalk)) == Ok(r.value.mismatches) && r.value.checked == |srcWalk|
    ensures r.Err? ==>
              (r.error == Cancelled && patience < |srcWalk| + |Retain(dstWalk)|) ||
              Report(c, srcWalk, Retain(dstWalk)) == Err(r.error)
    ensures r.Ok? && NoCollisions(c) ==> (r.value.mismatches == [] <==> Agree(c))
  {
    var ds := Retain(dstWalk);
    var index := BuildIndex(ds);
    r := CompareAll(c, srcWalk, index, patience);
    if r.Err? {
      return;
    }
    var links: seq<Mismatch> := [];
    if c.wants.hardLinks {
      links := CompareLinks(srcWalk, index);
    }
    var surplus := FindSurplus(Rels(srcWalk), ds, if patience < |srcWalk| then 0 else patience - |srcWalk|);
    if surplus.Err? {
      return Err(surplus.error);
    }
    r := Ok(Summary(r.value.checked, r.value.mismatches + links + surplus.value));
    if NoCollisions(c) {
      CleanMeansAgree(c, srcWalk, dstWalk);
    }
  }

  /** `verify` in `Changed` mode: what the plan changed, against the destination as it is now. */
  method VerifyChanged(c: Check, actions: seq<PlannedAction>, patience: nat) returns (r: Result<Summary, Failure>)
    ensures var index := LiveIndex(c, actions);
            var es, all := ChangedEntries(actions, false), ChangedEntries(actions, true);
            r.Ok? ==> match Differences(c, es, index, |es|)
                      case Err(_) => false
                      case Ok(ms) =>
                        var links := if c.wants.hardLinks then LinkDifferences(all, index, |all|) else [];
                        r.value == Summary(|es|, ms + links)
    ensures var es := ChangedEntries(actions, false);
            r.Err? ==> (r.error == Cancelled && patience < |es|) ||
                       Differences(c, es, LiveIndex(c, actions), |es|) == Err(r.error)
  {
    var ds := Retain(LiveEntries(c.dst.tree, actions, c.wants.hardLinks));
    var index := BuildIndex(ds);
    r := CompareAll(c, ChangedEntries(actions, false), index, patience);
    if r.Ok? && c.wants.hardLinks {
      var links := CompareLinks(ChangedEntries(actions, true), index);
      r := Ok(Summary(r.value.checked, r.value.mismatches + links));
    }
  }

  /** The check with lookups in place of the walk on the destination's side. */
  function Through(c: Check, seen: Sight): Check {
    c.(dst := c.dst.(tree := seen))
  }

  /** `verify`; in `Changed` mode the destination is looked up path by path, links on the way followed. */
  method Run(c: Check, mode: VerifyMode, actions: seq<PlannedAction>, srcWalk: seq<Entry>, dstWalk: seq<Entry>,
             seen: Sight, patience: nat)
    returns (r: Result<Summary, Failure>)
    requires IsWalk(c.src.tree, srcWalk) && IsWalk(c.dst.tree, dstWalk)
    requires |actions| == |srcWalk| && forall i :: 0 <= i < |actions| ==> actions[i].entry == srcWalk[i]
    ensures mode.Nothing? ==> r == Ok(Summary(0, []))
    ensures mode.All? && r.Ok? ==>
              Report(c, srcWalk, Retain(dstWalk)) == Ok(r.value.mismatches) && r.value.checked == |srcWalk|
    ensures mode.All? && r.Err? ==>
              (r.error == Cancelled && patience < |srcWalk| + |Retain(dstWalk)|) ||
              Report(c, srcWalk, Retain(dstWalk)) == Err(r.error)
    ensures mode.Changed? && r.Ok? ==>
              var es, live := ChangedEntries(actions, false), Through(c, seen);
              var index := LiveIndex(live, actions);
              && Differences(live, es, index, |es|).Ok? && r.value.checked == |es|
              && r.value.mismatches == Differences(live, es, index, |es|).value
                                       + if c.wants.hardLinks then LinkDifferences(srcWalk, index, |srcWalk|) else []
    ensures mode.Changed? && r.Err? ==>
              var es, live := ChangedEntries(actions, false), Through(c, seen);
              (r.error == Cancelled && patience < |es|) ||
              Differences(live, es, LiveIndex(live, actions), |es|) == Err(r.error)
    ensures mode.All? && r.Ok? && NoCollisions(c) ==> (r.value.mismatches == [] <==> Agree(c))
    ensures mode.Changed? && r.Ok? && NoCollisions(Through(c, seen)) ==>
              (r.value.mismatches == [] <==>
                 ChangedAgree(Through(c, seen), srcWalk, actions) &&
                 (c.wants.hardLinks ==> SameGroups(c.src.tree, Visible(seen))))
  {
    match mode
    case Nothing => r := Ok(Summary(0, []));
    case All => r := VerifyAll(c, srcWalk, dstWalk, patience);
    case Changed =>
      var live := Through(c, seen);
      r := VerifyChanged(live, actions, patience);
      AllEntries(actions, srcWalk);
      if r.Ok? && NoCollisions(live) {
        ChangedIsExact(live, srcWalk, actions);
        if c.wants.hardLinks {
          ChangedLinksAreExact(live, srcWalk, actions);
        }
      }
  }

  /** With no link on the way to a source path, looking up and walking come to the same. */
  lemma {:induction false} SeenAsWalked(c: Check, seen: Sight, walk: seq<Entry>, actions: seq<PlannedAction>)
    requires Sees(c.dst.tree, seen) && Unlinked(c.src.tree, c.dst.tree)
    requires IsWalk(c.src.tree, walk) && |actions| == |walk|
    ensures ChangedAgree(Through(c, seen), walk, actions) <==> ChangedAgree(c, walk, actions)
    ensures SameGroups(c.src.tree, Visible(seen)) <==> SameGroups(c.src.tree, Visible(c.dst.tree))
  {
    forall p | p in c.src.tree
      ensures p in Visible(seen) <==> p in Visible(c.dst.tree)
      ensures p in Visible(seen) ==> Visible(seen)[p] == Visible(c.dst.tree)[p]
      ensures AgreesThere(Through(c, seen), p) <==> AgreesThere(c, p)
    {
      assert !BehindLink(c.dst.tree, p);
    }
  }

  // ---------- what agreement is ----------

  /** The two trees show the same thing at `p`, as far as was asked. */
  ghost predicate AgreeAt(c: Check, p: Path)
    requires p in c.src.tree && p in c.dst.tree
  {
    var a, b := c.src.tree[p].node, c.dst.tree[p].node;
    && SameKind(a, b) && ModeOf(a) == ModeOf(b) && a.mtime == b.mtime
    && (a.File? ==> a.content == b.content)
    && (a.Symlink? ==> a.target == b.target)
    && (c.wants.owner ==> c.src.uid(p) == c.dst.uid(p))
    && (c.wants.group ==> c.src.gid(p) == c.dst.gid(p))
    && (c.wants.sparse && a.File? ==> c.src.blocks(p) == c.dst.blocks(p))
    && (c.wants.xattrs || c.wants.acls ==> AttrsAt(c.src, c.wants, p) == AttrsAt(c.dst, c.wants, p))
  }

  /** Names of one source file are names of one destination object. */
  ghost predicate SameGroups(src: Tree, dst: Tree) {
    forall p, q :: p in src && q in src && p in dst && q in dst && src[p].node.File? && src[q].node.File? &&
                    src[p].ino == src[q].ino ==>
      dst[p].ino == dst[q].ino
  }

  ghost predicate AgreesThere(c: Check, p: Path)
    requires p in c.src.tree
  {
    p in Visible(c.dst.tree) && AgreeAt(c, p)
  }

  /** Every entry the plan changed is there and agrees. */
  ghost predicate ChangedAgree(c: Check, walk: seq<Entry>, actions: seq<PlannedAction>)
    requires |actions| == |walk| && forall i :: 0 <= i < |walk| ==> walk[i].rel in c.src.tree
  {
    forall i :: 0 <= i < |actions| && actions[i].action != Skip ==> AgreesThere(c, walk[i].rel)
  }

  /** Every source path is there and agrees. */
  ghost predicate AllAgree(c: Check) {
    forall p :: p in c.src.tree ==> p in Visible(c.dst.tree) && AgreeAt(c, p)
  }

  /** Equal path sets outside the destination's metadata directory, and agreement at every path. */
  ghost predicate Agree(c: Check) {
    && Visible(c.dst.tree).Keys == c.src.tree.Keys
    && (forall p :: p in c.src.tree ==> p in c.dst.tree && AgreeAt(c, p))
    && (c.wants.hardLinks ==> SameGroups(c.src.tree, Visible(c.dst.tree)))
  }

  /** No two files compared have equal lengths and hashes but different bytes. */
  ghost predicate NoCollisions(c: Check) {
    forall p :: |ContentAt(c.src.tree, p)| == |ContentAt(c.dst.tree, p)| &&
                c.h(ContentAt(c.src.tree, p)) == c.h(ContentAt(c.dst.tree, p)) ==>
      ContentAt(c.src.tree, p) == ContentAt(c.dst.tree, p)
  }

  // ---------- each pass finds exactly what it looks for ----------

  function Found(dst: Tree, p: Path): Option<Entry> {
    if p in dst then Some(EntryOf(p, dst[p])) else None
  }

  lemma {:induction false} CompareIsExact(c: Check, p: Path)
    requires p in c.src.tree && NoCollisions(c)
    requires CompareEntry(c, EntryOf(p, c.src.tree[p]), Found(Visible(c.dst.tree), p)).Ok?
    ensures CompareEntry(c, EntryOf(p, c.src.tree[p]), Found(Visible(c.dst.tree), p)) == Ok(None)
       <==> p in Visible(c.dst.tree) && AgreeAt(c, p)
  {
    if p in c.dst.tree {
      assert ContentAt(c.src.tree, p) == ContentAt(c.dst.tree, p) ||
             |ContentAt(c.src.tree, p)| != |ContentAt(c.dst.tree, p)|
             || c.h(ContentAt(c.src.tree, p)) != c.h(ContentAt(c.dst.tree, p));
    }
  }

  lemma {:induction false} DifferencesAreExact(c: Check, es: seq<Entry>, index: Index, n: nat)
    requires n <= |es| && Differences(c, es, index, n).Ok?
    ensures forall i :: 0 <= i < n ==> CompareEntry(c, es[i], Lookup(index, es[i].rel)).Ok?
    ensures Differences(c, es, index, n) == Ok([]) <==>
            forall i :: 0 <= i < n ==> CompareEntry(c, es[i], Lookup(index, es[i].rel)) == Ok(None)
  {
    if n > 0 {
      DifferencesAreExact(c, es, index, n - 1);
    }
  }

  lemma {:induction false} LinkDifferencesAreExact(es: seq<Entry>, index: Index, n: nat)
    requires n <= |es|
    ensures LinkDifferences(es, index, n) == [] <==> forall i :: 0 <= i < n ==> !Strays(es, index, i)
  {
    if n > 0 {
      LinkDifferencesAreExact(es, index, n - 1);
    }
  }

  lemma {:induction false} SurplusIsExact(src: set<Path>, ds: seq<Entry>, n: nat)
    requires n <= |ds|
    ensures Surplus(src, ds, n) == [] <==> forall i :: 0 <= i < n ==> ds[i].rel in src
  {
    if n > 0 {
      SurplusIsExact(src, ds, n - 1);
    }
  }

  lemma {:induction false} IndexNames(ds: seq<Entry>, n: nat, p: Path)
    requires n <= |ds|
    ensures p in IndexOf(ds, n) <==> exists i :: 0 <= i < n && ds[i].rel == p
    ensures p in IndexOf(ds, n) ==> exists i :: 0 <= i < n && ds[i].rel == p && IndexOf(ds, n)[p] == ds[i]
  {
    if n > 0 {
      IndexNames(ds, n - 1, p);
    }
  }

  lemma {:induction false} IndexIsTree(t: Tree, ds: seq<Entry>, p: Path)
    requires IsWalk(t, ds)
    ensures Lookup(IndexOf(ds, |ds|), p) == Found(t, p)
  {
    IndexNames(ds, |ds|, p);
    assert p in t ==> Lists(ds, p);
    if p in IndexOf(ds, |ds|) {
      var i :| 0 <= i < |ds| && ds[i].rel == p && IndexOf(ds, |ds|)[p] == ds[i];
      assert ds[i] == EntryOf(p, t[p]);
    }
  }

  // ---------- hard-link groups ----------

  lemma {:induction false} GroupIdStays(es: seq<Entry>, index: Index, ino: nat, n: nat, m: nat)
    requires n <= m <= |es| && GroupId(es, index, ino, n).Some?
    ensures GroupId(es, index, ino, m) == GroupId(es, index, ino, n)
  {
    if n < m {
      GroupIdStays(es, index, ino, n, m - 1);
    }
  }

  lemma {:induction false} GroupIdIsMember(es: seq<Entry>, index: Index, ino: nat, n: nat) returns (k: nat)
    requires n <= |es| && GroupId(es, index, ino, n).Some?
    ensures k < n && IsFile(es[k]) && es[k].ino == ino && es[k].rel in index
    ensures GroupId(es, index, ino, n) == Some(index[es[k].rel].ino)
  {
    if GroupId(es, index, ino, n - 1).Some? {
      k := GroupIdIsMember(es, index, ino, n - 1);
    } else {
      k := n - 1;
    }
  }

  /** Without strays, two indexed names of one source file have one identity. */
  lemma {:induction false} NoStraysMeansShared(es: seq<Entry>, index: Index, i: nat, j: nat)
    requires i < |es| && j < |es| && IsFile(es[i]) && IsFile(es[j]) && es[i].ino == es[j].ino
    requires es[i].rel in index && es[j].rel in index && !Strays(es, index, i) && !Strays(es, index, j)
    ensures index[es[i].rel].ino == index[es[j].rel].ino
  {
    GroupIdStays(es, index, es[i].ino, i + 1, |es|);
    GroupIdStays(es, index, es[j].ino, j + 1, |es|);
  }

  lemma {:induction false} SharedMeansNoStray(src: Tree, dst: Tree, es: seq<Entry>, index: Index, i: nat)
    requires IsWalk(src, es) && i < |es| && SameGroups(src, dst)
    requires forall p :: p in src ==> Lookup(index, p) == Found(dst, p)
    ensures !Strays(es, index, i)
  {
    if IsFile(es[i]) && es[i].rel in index {
      assert GroupId(es, index, es[i].ino, i + 1).Some?;
      var k := GroupIdIsMember(es, index, es[i].ino, i + 1);
      assert es[i] == EntryOf(es[i].rel, src[es[i].rel]) && es[k] == EntryOf(es[k].rel, src[es[k].rel]);
      assert Lookup(index, es[i].rel) == Found(dst, es[i].rel) && Lookup(index, es[k].rel) == Found(dst, es[k].rel);
    }
  }

  lemma {:induction false} NoStraysMeansGroups(src: Tree, dst: Tree, es: seq<Entry>, index: Index, p: Path, q: Path)
    requires IsWalk(src, es) && Lookup(index, p) == Found(dst, p) && Lookup(index, q) == Found(dst, q)
    requires forall i :: 0 <= i < |es| ==> !Strays(es, index, i)
    requires p in src && q in src && p in dst && q in dst && src[p].node.File? && src[q].node.File?
    requires src[p].ino == src[q].ino
    ensures dst[p].ino == dst[q].ino
  {
    assert Lists(es, p) && Lists(es, q);
    var i :| 0 <= i < |es| && es[i].rel == p;
    var j :| 0 <= j < |es| && es[j].rel == q;
    assert es[i] == EntryOf(p, src[p]) && es[j] == EntryOf(q, src[q]);
    NoStraysMeansShared(es, index, i, j);
  }

  lemma {:induction false} LinksAreExact(src: Tree, dst: Tree, es: seq<Entry>, index: Index)
    requires IsWalk(src, es) && forall p :: p in src ==> Lookup(index, p) == Found(dst, p)
    ensures LinkDifferences(es, index, |es|) == [] <==> SameGroups(src, dst)
  {
    LinkDifferencesAreExact(es, index, |es|);
    if SameGroups(src, dst) {
      forall i | 0 <= i < |es| {
        SharedMeansNoStray(src, dst, es, index, i);
      }
    } else if LinkDifferences(es, index, |es|) == [] {
      forall p, q | p in src && q in src && p in dst && q in dst && src[p].node.File? && src[q].node.File? &&
                    src[p].ino == src[q].ino {
        NoStraysMeansGroups(src, dst, es, index, p, q);
      }
    }
  }

  // ---------- soundness and completeness ----------

  lemma {:induction false} ComparisonsAreExact(c: Check, es: seq<Entry>, index: Index)
    requires IsWalk(c.src.tree, es) && NoCollisions(c)
    requires forall p :: Lookup(index, p) == Found(Visible(c.dst.tree), p)
    requires Differences(c, es, index, |es|).Ok?
    ensures Differences(c, es, index, |es|) == Ok([]) <==> AllAgree(c)
  {
    DifferencesAreExact(c, es, index, |es|);
    forall i | 0 <= i < |es|
      ensures CompareEntry(c, es[i], Lookup(index, es[i].rel)) == Ok(None) <==>
              es[i].rel in Visible(c.dst.tree) && AgreeAt(c, es[i].rel)
    {
      assert es[i] == EntryOf(es[i].rel, c.src.tree[es[i].rel]) &&
             Lookup(index, es[i].rel) == Found(Visible(c.dst.tree), es[i].rel);
      CompareIsExact(c, es[i].rel);
    }
    assert forall p :: p in c.src.tree ==> Lists(es, p);
  }

  lemma {:induction false} SurplusMeansExtra(src: Tree, dst: Tree, es: seq<Entry>, ds: seq<Entry>)
    requires IsWalk(src, es) && IsWalk(dst, ds)
    ensures Surplus(Rels(es), ds, |ds|) == [] <==> dst.Keys <= src.Keys
  {
    SurplusIsExact(Rels(es), ds, |ds|);
    forall p
      ensures p in Rels(es) <==> p in src
    {
      if p in src {
        assert Lists(es, p);
        var i :| 0 <= i < |es| && es[i].rel == p;
        assert es[i] in es;
      }
    }
    if dst.Keys <= src.Keys {
      assert forall i :: 0 <= i < |ds| ==> ds[i].rel in dst.Keys;
    } else {
      var p :| p in dst.Keys && p !in src.Keys;
      assert Lists(ds, p);
      var i :| 0 <= i < |ds| && ds[i].rel == p;
    }
  }

  lemma {:induction false} AgreementInParts(c: Check)
    ensures Agree(c) <==>
            AllAgree(c) && Visible(c.dst.tree).Keys <= c.src.tree.Keys &&
            (c.wants.hardLinks ==> SameGroups(c.src.tree, Visible(c.dst.tree)))
  {
    assert forall p :: p in Visible(c.dst.tree) ==> p in c.dst.tree;
    if AllAgree(c) && Visible(c.dst.tree).Keys <= c.src.tree.Keys {
      assert forall p :: p in c.src.tree.Keys ==> p in Visible(c.dst.tree).Keys;
    }
    if Agree(c) {
      forall p | p in c.src.tree
        ensures p in Visible(c.dst.tree) && AgreeAt(c, p)
      {
        assert p in Visible(c.dst.tree).Keys;
      }
    }
  }

  lemma {:induction false} ReportInParts(c: Check, es: seq<Entry>, ds: seq<Entry>)
    requires Report(c, es, ds).Ok?
    ensures Report(c, es, ds) == Ok([]) <==>
              && Differences(c, es, IndexOf(ds, |ds|), |es|) == Ok([])
              && (c.wants.hardLinks ==> LinkDifferences(es, IndexOf(ds, |ds|), |es|) == [])
              && Surplus(Rels(es), ds, |ds|) == []
  {
    var index := IndexOf(ds, |ds|);
    var ms, extra := Differences(c, es, index, |es|).value, Surplus(Rels(es), ds, |ds|);
    var links := if c.wants.hardLinks then LinkDifferences(es, index, |es|) else [];
    assert Report(c, es, ds).value == ms + links + extra;
    assert |ms + links + extra| == |ms| + |links| + |extra|;
  }

  /** A clean report means that the trees agree, and trees that agree get a clean report. */
  lemma {:induction false} CleanMeansAgree(c: Check, srcWalk: seq<Entry>, dstWalk: seq<Entry>)
    requires IsWalk(c.src.tree, srcWalk) && IsWalk(c.dst.tree, dstWalk) && NoCollisions(c)
    requires Report(c, srcWalk, Retain(dstWalk)).Ok?
    ensures Report(c, srcWalk, Retain(dstWalk)) == Ok([]) <==> Agree(c)
  {
    RetainWalks(c.dst.tree, dstWalk);
    PassesAreExact(c, srcWalk, Retain(dstWalk));
    ReportInParts(c, srcWalk, Retain(dstWalk));
    AgreementInParts(c);
  }

  lemma {:induction false} PassesAreExact(c: Check, es: seq<Entry>, ds: seq<Entry>)
    requires IsWalk(c.src.tree, es) && IsWalk(Visible(c.dst.tree), ds) && NoCollisions(c)
    requires Differences(c, es, IndexOf(ds, |ds|), |es|).Ok?
    ensures Differences(c, es, IndexOf(ds, |ds|), |es|) == Ok([]) <==> AllAgree(c)
    ensures LinkDifferences(es, IndexOf(ds, |ds|), |es|) == [] <==> SameGroups(c.src.tree, Visible(c.dst.tree))
    ensures Surplus(Rels(es), ds, |ds|) == [] <==> Visible(c.dst.tree).Keys <= c.src.tree.Keys
  {
    var index, dst := IndexOf(ds, |ds|), Visible(c.dst.tree);
    forall p
      ensures Lookup(index, p) == Found(dst, p)
    {
      IndexIsTree(dst, ds, p);
    }
    ComparisonsAreExact(c, es, index);
    LinksAreExact(c.src.tree, dst, es, index);
    SurplusMeansExtra(c.src.tree, dst, es, ds);
  }

  lemma {:induction false} LiveEntriesAre(dst: Tree, actions: seq<PlannedAction>, all: bool, e: Entry)
    ensures e in LiveEntries(dst, actions, all) <==>
              exists i :: 0 <= i < |actions| && (all || actions[i].action != Skip)
                          && actions[i].entry.rel in dst &&
                             e == EntryOf(actions[i].entry.rel, dst[actions[i].entry.rel])
  {
    if actions != [] {
      LiveEntriesAre(dst, actions[1..], all, e);
      assert forall i :: 0 < i < |actions| ==> actions[i] == actions[1..][i - 1];
    }
  }

  lemma {:induction false} ChangedEntriesAre(actions: seq<PlannedAction>, all: bool, e: Entry)
    ensures e in ChangedEntries(actions, all) <==>
            exists i :: 0 <= i < |actions| && (all || actions[i].action != Skip) && e == actions[i].entry
  {
    if actions != [] {
      ChangedEntriesAre(actions[1..], all, e);
      assert forall i :: 0 < i < |actions| ==> actions[i] == actions[1..][i - 1];
    }
  }

  lemma {:induction false} RetainedIsLive(c: Check, actions: seq<PlannedAction>, e: Entry)
    requires e in Retain(LiveEntries(c.dst.tree, actions, c.wants.hardLinks))
    ensures e.rel in Visible(c.dst.tree) && e == EntryOf(e.rel, c.dst.tree[e.rel])
  {
    RetainKeeps(LiveEntries(c.dst.tree, actions, c.wants.hardLinks));
    assert !Hidden(e.rel);
    LiveEntriesAre(c.dst.tree, actions, c.wants.hardLinks, e);
  }

  lemma {:induction false} LiveIndexIsLive(c: Check, actions: seq<PlannedAction>, p: Path)
    requires p in LiveIndex(c, actions)
    ensures p in Visible(c.dst.tree) && LiveIndex(c, actions)[p] == EntryOf(p, c.dst.tree[p])
  {
    var ds := Retain(LiveEntries(c.dst.tree, actions, c.wants.hardLinks));
    IndexNames(ds, |ds|, p);
    var i :| 0 <= i < |ds| && ds[i].rel == p && IndexOf(ds, |ds|)[p] == ds[i];
    RetainedIsLive(c, actions, ds[i]);
  }

  lemma {:induction false} LiveIndexIsComplete(c: Check, actions: seq<PlannedAction>, k: nat)
    requires k < |actions| && actions[k].entry.rel in Visible(c.dst.tree)
    requires actions[k].action != Skip || c.wants.hardLinks
    ensures actions[k].entry.rel in LiveIndex(c, actions)
  {
    var p, live := actions[k].entry.rel, LiveEntries(c.dst.tree, actions, c.wants.hardLinks);
    var ds, e := Retain(live), EntryOf(p, c.dst.tree[p]);
    LiveEntriesAre(c.dst.tree, actions, c.wants.hardLinks, e);
    RetainKeeps(live);
    var i :| 0 <= i < |ds| && ds[i] == e;
    IndexNames(ds, |ds|, p);
  }

  /** The partial index finds every changed path that is there, and with hard links every planned one. */
  lemma {:induction false} LiveIndexFinds(c: Check, actions: seq<PlannedAction>, k: nat)
    requires k < |actions| && (actions[k].action != Skip || c.wants.hardLinks)
    ensures Lookup(LiveIndex(c, actions), actions[k].entry.rel) == Found(Visible(c.dst.tree), actions[k].entry.rel)
  {
    var p := actions[k].entry.rel;
    if p in LiveIndex(c, actions) {
      LiveIndexIsLive(c, actions, p);
    }
    if p in Visible(c.dst.tree) {
      LiveIndexIsComplete(c, actions, k);
    }
  }

  /** A clean comparison of what changed means that every changed path is there and agrees. */
  lemma {:induction false} ChangedIsExact(c: Check, walk: seq<Entry>, actions: seq<PlannedAction>)
    requires IsWalk(c.src.tree, walk) && |actions| == |walk|
    requires forall i :: 0 <= i < |actions| ==> actions[i].entry == walk[i]
    requires NoCollisions(c)
    requires Differences(c, ChangedEntries(actions, false), LiveIndex(c, actions), |ChangedEntries(actions, false)|).Ok?
    ensures Differences(c, ChangedEntries(actions, false), LiveIndex(c, actions), |ChangedEntries(actions, false)|) ==
              Ok([])
       <==> ChangedAgree(c, walk, actions)
  {
    var es, index := ChangedEntries(actions, false), LiveIndex(c, actions);
    DifferencesAreExact(c, es, index, |es|);
    forall i | 0 <= i < |actions| && actions[i].action != Skip
      ensures walk[i] in es && (CompareEntry(c, walk[i], Lookup(index, walk[i].rel)).Ok? ==>
                (CompareEntry(c, walk[i], Lookup(index, walk[i].rel)) == Ok(None) <==> AgreesThere(c, walk[i].rel)))
    {
      ChangedEntriesAre(actions, false, walk[i]);
      ChangedEntryIsExact(c, walk, actions, i);
    }
    forall j | 0 <= j < |es|
      ensures exists i :: 0 <= i < |actions| && actions[i].action != Skip && es[j] == walk[i]
    {
      ChangedEntriesAre(actions, false, es[j]);
      assert es[j] in es;
    }
  }

  lemma {:induction false} AllEntries(actions: seq<PlannedAction>, walk: seq<Entry>)
    requires |actions| == |walk| && forall i :: 0 <= i < |actions| ==> actions[i].entry == walk[i]
    ensures ChangedEntries(actions, true) == walk
  {
    if actions != [] {
      AllEntries(actions[1..], walk[1..]);
      assert walk == [walk[0]] + walk[1..];
    }
  }

  /** When hard links are asked for, the groups of all planned files are compared, changed or not. */
  lemma {:induction false} ChangedLinksAreExact(c: Check, walk: seq<Entry>, actions: seq<PlannedAction>)
    requires IsWalk(c.src.tree, walk) && |actions| == |walk|
    requires forall i :: 0 <= i < |actions| ==> actions[i].entry == walk[i]
    requires c.wants.hardLinks
    ensures ChangedEntries(actions, true) == walk
    ensures LinkDifferences(walk, LiveIndex(c, actions), |walk|) == [] <==> SameGroups(c.src.tree, Visible(c.dst.tree))
  {
    AllEntries(actions, walk);
    forall p | p in c.src.tree
      ensures Lookup(LiveIndex(c, actions), p) == Found(Visible(c.dst.tree), p)
    {
      assert Lists(walk, p);
      var k :| 0 <= k < |walk| && walk[k].rel == p;
      LiveIndexFinds(c, actions, k);
    }
    LinksAreExact(c.src.tree, Visible(c.dst.tree), walk, LiveIndex(c, actions));
  }

  lemma {:induction false} ChangedEntryIsExact(c: Check, walk: seq<Entry>, actions: seq<PlannedAction>, i: nat)
    requires IsWalk(c.src.tree, walk) && |actions| == |walk| && i < |actions| && actions[i].entry == walk[i]
    requires actions[i].action != Skip
    requires NoCollisions(c)
    ensures var found := Lookup(LiveIndex(c, actions), walk[i].rel);
            CompareEntry(c, walk[i], found).Ok? ==>
              (CompareEntry(c, walk[i], found) == Ok(None) <==> AgreesThere(c, walk[i].rel))
  {
    LiveIndexFinds(c, actions, i);
    assert walk[i] == EntryOf(walk[i].rel, c.src.tree[walk[i].rel]);
    if CompareEntry(c, walk[i], Found(Visible(c.dst.tree), walk[i].rel)).Ok? {
      CompareIsExact(c, walk[i].rel);
    }
  }

  /** What a reported difference says is so; no assumption on the hash is needed in this direction. */
  ghost predicate Genuine(c: Check, m: Mismatch) {
    var src, dst, p := c.src.tree, Visible(c.dst.tree), m.rel;
    match m.detail
    case Missing => p in src && p !in dst
    case Unexpected => p in dst && p !in src
    case LinkDiffers =>
      && p in src && p in dst
      && exists q :: q in src && q in dst && src[q].node.File? && src[p].ino == src[q].ino && dst[p].ino != dst[q].ino
    case _ =>
      p in src && p in dst &&
      var a, b := src[p].node, dst[p].node;
      match m.detail
      case KindDiffers => !SameKind(a, b)
      case ModeDiffers => SameKind(a, b) && ModeOf(a) != ModeOf(b)
      case MtimeDiffers => SameKind(a, b) && a.mtime != b.mtime
      case UidDiffers => c.wants.owner && c.src.uid(p) != c.dst.uid(p)
      case GidDiffers => c.wants.group && c.src.gid(p) != c.dst.gid(p)
      case ContentDiffers => a.File? && b.File? && ContentAt(src, p) != ContentAt(dst, p)
      case SparseDiffers => c.wants.sparse && a.File? && c.src.blocks(p) != c.dst.blocks(p)
      case TargetDiffers => TargetAt(src, p).Some? && TargetAt(dst, p).Some? && TargetAt(src, p) != TargetAt(dst, p)
      case _ => AttrsAt(c.src, c.wants, p) != AttrsAt(c.dst, c.wants, p)
  }

  lemma {:induction false} ComparedIsGenuine(c: Check, p: Path)
    requires p in c.src.tree
    ensures var r := CompareEntry(c, EntryOf(p, c.src.tree[p]), Found(Visible(c.dst.tree), p));
            r.Ok? && r.value.Some? ==>
              Genuine(c, Mismatch(p, r.value.value)) && !r.value.value.Unexpected? && !r.value.value.LinkDiffers?
  {
  }

  lemma {:induction false} DifferenceComesFrom(c: Check, es: seq<Entry>, index: Index, n: nat, m: Mismatch)
    returns (i: nat)
    requires n <= |es| && Differences(c, es, index, n).Ok? && m in Differences(c, es, index, n).value
    ensures i < n && es[i].rel == m.rel && CompareEntry(c, es[i], Lookup(index, es[i].rel)) == Ok(Some(m.detail))
  {
    if m in Differences(c, es, index, n - 1).value {
      i := DifferenceComesFrom(c, es, index, n - 1, m);
    } else {
      i := n - 1;
    }
  }

  lemma {:induction false} StrayComesFrom(es: seq<Entry>, index: Index, n: nat, m: Mismatch) returns (i: nat)
    requires n <= |es| && m in LinkDifferences(es, index, n)
    ensures i < n && Strays(es, index, i) && m == Mismatch(es[i].rel, LinkDiffers)
  {
    if m in LinkDifferences(es, index, n - 1) {
      i := StrayComesFrom(es, index, n - 1, m);
    } else {
      i := n - 1;
    }
  }

  lemma {:induction false} SurplusComesFrom(src: set<Path>, ds: seq<Entry>, n: nat, m: Mismatch) returns (i: nat)
    requires n <= |ds| && m in Surplus(src, ds, n)
    ensures i < n && ds[i].rel !in src && m == Mismatch(ds[i].rel, Unexpected)
  {
    if m in Surplus(src, ds, n - 1) {
      i := SurplusComesFrom(src, ds, n - 1, m);
    } else {
      i := n - 1;
    }
  }

  lemma {:induction false} StrayIsGenuine(c: Check, es: seq<Entry>, ds: seq<Entry>, i: nat)
    requires IsWalk(c.src.tree, es) && IsWalk(Visible(c.dst.tree), ds) && i < |es| && Strays(es, IndexOf(ds, |ds|), i)
    ensures Genuine(c, Mismatch(es[i].rel, LinkDiffers))
  {
    var index, dst := IndexOf(ds, |ds|), Visible(c.dst.tree);
    assert GroupId(es, index, es[i].ino, i + 1).Some?;
    var k := GroupIdIsMember(es, index, es[i].ino, i + 1);
    IndexIsTree(dst, ds, es[i].rel);
    IndexIsTree(dst, ds, es[k].rel);
    assert es[i] == EntryOf(es[i].rel, c.src.tree[es[i].rel]) && es[k] == EntryOf(es[k].rel, c.src.tree[es[k].rel]);
  }

  /** Every single line of a report is true, whatever the hash does. */
  lemma {:induction false} ReportIsGenuine(c: Check, srcWalk: seq<Entry>, dstWalk: seq<Entry>, m: Mismatch)
    requires IsWalk(c.src.tree, srcWalk) && IsWalk(c.dst.tree, dstWalk)
    requires Report(c, srcWalk, Retain(dstWalk)).Ok? && m in Report(c, srcWalk, Retain(dstWalk)).value
    ensures Genuine(c, m)
  {
    var ds := Retain(dstWalk);
    RetainWalks(c.dst.tree, dstWalk);
    var index := IndexOf(ds, |ds|);
    if m in Differences(c, srcWalk, index, |srcWalk|).value {
      var i := DifferenceComesFrom(c, srcWalk, index, |srcWalk|, m);
      IndexIsTree(Visible(c.dst.tree), ds, m.rel);
      assert srcWalk[i] == EntryOf(m.rel, c.src.tree[m.rel]);
      ComparedIsGenuine(c, m.rel);
    } else if m in LinkDifferences(srcWalk, index, |srcWalk|) {
      var i := StrayComesFrom(srcWalk, index, |srcWalk|, m);
      StrayIsGenuine(c, srcWalk, ds, i);
    } else {
      var i := SurplusComesFrom(Rels(srcWalk), ds, |ds|, m);
      assert m.rel in c.src.tree ==> Lists(srcWalk, m.rel);
    }
  }

  /**
   The source is walked with its own metadata directory, the destination without: a source that has
   one never verifies, not even against a copy of itself.
   */
  lemma {:induction false} HiddenSourceNeverVerifies(c: Check, srcWalk: seq<Entry>, dstWalk: seq<Entry>, p: Path)
    requires IsWalk(c.src.tree, srcWalk) && IsWalk(c.dst.tree, dstWalk) && p in c.src.tree && Hidden(p)
    ensures Report(c, srcWalk, Retain(dstWalk)) != Ok([])
  {
    var ds := Retain(dstWalk);
    RetainWalks(c.dst.tree, dstWalk);
    IndexIsTree(Visible(c.dst.tree), ds, p);
    assert Lists(srcWalk, p);
    var i :| 0 <= i < |srcWalk| && srcWalk[i].rel == p;
    if Differences(c, srcWalk, IndexOf(ds, |ds|), |srcWalk|).Ok? {
      DifferencesAreExact(c, srcWalk, IndexOf(ds, |ds|), |srcWalk|);
      assert CompareEntry(c, srcWalk[i], None) == Ok(Some(Missing));
    }
  }
}
