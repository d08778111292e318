/** Planning: classify every source entry against the destination and collect what to delete. */
module Plan {
  import opened Bytes
  import opened Trees

  datatype Action = Copy | Update | Skip
  datatype PlannedAction = PlannedAction(entry: Entry, action: Action)
  datatype Deletion = Deletion(rel: Path, isDir: bool)
  datatype SyncPlan = SyncPlan(actions: seq<PlannedAction>, deletions: seq<Deletion>)
  datatype PlanOptions = PlanOptions(checksum: bool, delete: bool, hardLinks: bool)
  datatype PlanError = EmptySource | WalkFailed | WalkCancelled

  type Hasher = Buffer -> Buffer

  /** `files_differ`: permission bits and whole-second mtime, plus either length or content hash. */
  predicate FilesDiffer(h: Hasher, a: Node, b: Node, checksum: bool)
    requires a.File? && b.File?
  {
    var metadataDiffers := a.mode != b.mode || a.mtime.secs != b.mtime.secs;
    if checksum then metadataDiffers || h(a.content) != h(b.content)
    else |a.content| != |b.content| || metadataDiffers
  }

  /** `classify_existing`. */
  function ClassifyExisting(h: Hasher, a: Node, b: Node, checksum: bool): Action {
    if a.Dir? && b.Dir? then
      if a.mode == b.mode && a.mtime.secs == b.mtime.secs then Skip else Update
    else if a.Symlink? && b.Symlink? then
      if a.target == b.target && a.mtime.secs == b.mtime.secs then Skip else Update
    else if a.File? && b.File? then
      if FilesDiffer(h, a, b, checksum) then Update else Skip
    else Update
  }

  /** The classification of one source path, before hard links are considered. */
  function Classify(h: Hasher, src: Tree, dst: Tree, p: Path, checksum: bool): Action
    requires p in src
  {
    if p in dst then ClassifyExisting(h, src[p].node, dst[p].node, checksum) else Copy
  }

  /** What the quick check compares of two walked entries. */
  predicate SameSummary(a: Entry, b: Entry, lengths: bool) {
    a.kind == b.kind && a.mode == b.mode && a.mtime.secs == b.mtime.secs && (lengths ==> a.len == b.len)
  }

  /**
   Outside checksum mode the classification of a path that exists on both sides is decided by the two
   walked entries alone; in checksum mode the hashes of two files take the place of their lengths.
   */
  lemma {:induction false} SkipReadsEntries(h: Hasher, src: Tree, dst: Tree, p: Path, checksum: bool)
    requires p in src && p in dst
    ensures Classify(h, src, dst, p, checksum) == Skip <==>
              && SameSummary(EntryOf(p, src[p]), EntryOf(p, dst[p]), !checksum)
              && (checksum && src[p].node.File? && dst[p].node.File? ==>
                  h(src[p].node.content) == h(dst[p].node.content))
    ensures Classify(h, src, dst, p, checksum) != Copy
  {
  }

  function Identity(dst: Tree, p: Path): Option<nat> {
    if p in dst then Some(dst[p].ino) else None
  }

  // ---------- hard links ----------

  predicate IsFile(e: Entry) {
    e.kind == KindFile
  }

  /** The first of the first `n` entries that names file inode `ino`, or `n` if none does. */
  function FirstNamed(es: seq<Entry>, ino: nat, n: nat): (f: nat)
    requires n <= |es|
    ensures f <= n
  {
    if n == 0 then 0
    else
      var f := FirstNamed(es, ino, n - 1);
      if f < n - 1 then f else if IsFile(es[n - 1]) && es[n - 1].ino == ino then n - 1 else n
  }

  lemma {:induction false} FirstNamedIsFirst(es: seq<Entry>, ino: nat, n: nat)
    requires n <= |es|
    ensures var f := FirstNamed(es, ino, n);
            && (f < n ==> IsFile(es[f]) && es[f].ino == ino)
            && (forall k :: 0 <= k < f ==> !(IsFile(es[k]) && es[k].ino == ino))
  {
    if n > 0 {
      FirstNamedIsFirst(es, ino, n - 1);
    }
  }

  /** Entry `i` repeats a file inode that an earlier entry already named. */
  predicate IsDuplicate(es: seq<Entry>, i: nat)
    requires i < |es|
  {
    IsFile(es[i]) && FirstNamed(es, es[i].ino, i) < i
  }

  /**
   The action of entry `i` once hard links are enforced: a duplicate whose destination identity is
   not that of its group's first member is updated.
   */
  function Enforced(es: seq<Entry>, dst: Tree, i: nat, action: Action): Action
    requires i < |es|
  {
    if IsDuplicate(es, i) && Identity(dst, es[i].rel) != Identity(dst, es[FirstNamed(es, es[i].ino, i)].rel)
    then Update else action
  }

  /** `enforce_hardlink_actions`: one pass over the mutable actions with a map of first members. */
  method EnforceHardlinkActions(es: seq<Entry>, dst: Tree, actions: array<Action>)
    requires actions.Length == |es|
    modifies actions
    ensures forall i :: 0 <= i < |es| ==> actions[i] == Enforced(es, dst, i, old(actions[i]))
  {
    var first: map<nat, Option<nat>> := map[];
    for i := 0 to |es|
      invariant forall ino :: ino in first <==> FirstNamed(es, ino, i) < i
      invariant forall ino :: ino in first ==> first[ino] == Identity(dst, es[FirstNamed(es, ino, i)].rel)
      invariant forall k :: 0 <= k < i ==> actions[k] == Enforced(es, dst, k, old(actions[k]))
      invariant forall k :: i <= k < |es| ==> actions[k] == old(actions[k])
    {
      if !IsFile(es[i]) {
        continue;
      }
      if es[i].ino in first {
        if Identity(dst, es[i].rel) != first[es[i].ino] {
          actions[i] := Update;
        }
      } else {
        first := first[es[i].ino := Identity(dst, es[i].rel)];
      }
    }
  }

  // ---------- the plan ----------

  /** The tree without the tool's own metadata directory. */
  function Visible(t: Tree): Tree {
    map p | p in t && !Hidden(p) :: t[p]
  }

  /** `retain(|e| !e.rel.starts_with(".ripsync"))`. */
  function Retain(es: seq<Entry>): seq<Entry> {
    if es == [] then []
    else (if Hidden(es[0].rel) then [] else [es[0]]) + Retain(es[1..])
  }

  lemma {:induction false} RetainKeeps(es: seq<Entry>)
    ensures forall e :: e in Retain(es) <==> e in es && !Hidden(e.rel)
  {
    if es != [] {
      RetainKeeps(es[1..]);
      assert es == [es[0]] + es[1..];
    }
  }

  lemma {:induction false} ConsParentsFirst(e: Entry, es: seq<Entry>)
    requires ParentsFirst(es) && forall x :: x in es ==> !(x.rel <= e.rel)
    ensures ParentsFirst([e] + es)
  {
  }

  lemma {:induction false} RetainOrdered(es: seq<Entry>)
    requires ParentsFirst(es)
    ensures ParentsFirst(Retain(es))
  {
    if es != [] {
      var rest := es[1..];
      assert ParentsFirst(rest) by {
        assert forall k :: 0 <= k < |rest| ==> rest[k] == es[k + 1];
      }
      RetainOrdered(rest);
      if !Hidden(es[0].rel) {
        RetainKeeps(rest);
        ConsParentsFirst(es[0], Retain(rest));
      }
    }
  }

  lemma {:induction false} RetainWalks(t: Tree, es: seq<Entry>)
    requires IsWalk(t, es)
    ensures IsWalk(Visible(t), Retain(es))
    ensures Retain(es) == [] <==> Visible(t) == map[]
  {
    RetainKeeps(es);
    RetainOrdered(es);
    forall i | 0 <= i < |Retain(es)|
      ensures Retain(es)[i].rel in Visible(t)
      ensures Retain(es)[i] == EntryOf(Retain(es)[i].rel, t[Retain(es)[i].rel])
    {
      assert Retain(es)[i] in es;
    }
    forall p | p in Visible(t)
      ensures Lists(Retain(es), p)
    {
      assert Lists(es, p);
      var k :| 0 <= k < |es| && es[k].rel == p;
      assert es[k] in Retain(es);
    }
    if Retain(es) != [] {
      assert Retain(es)[0].rel in Visible(t);
    }
  }

  /** Deepest paths first: no deletion names an ancestor of a later one. */
  ghost predicate ChildrenFirst(dels: seq<Deletion>) {
    forall i, j :: 0 <= i < j < |dels| ==> !(dels[i].rel <= dels[j].rel)
  }

  /** Exactly the paths of `dst` that `src` lacks, deepest first, each with its kind. */
  ghost predicate PlansDeletions(src: Tree, dst: Tree, dels: seq<Deletion>) {
    && ChildrenFirst(dels)
    && (forall d :: d in dels ==> d.rel in dst && d.rel !in src && (d.isDir <==> DirAt(dst, d.rel)))
    && (forall p :: p in dst && p !in src ==> Deletion(p, DirAt(dst, p)) in dels)
  }

  ghost predicate PlansActions(h: Hasher, src: Tree, dst: Tree, opts: PlanOptions, es: seq<Entry>,
                               actions: seq<PlannedAction>) {
    && |actions| == |es|
    && forall i :: 0 <= i < |es| ==> actions[i] == PlannedAction(es[i], ActionFor(h, src, dst, opts, es, i))
  }

  /** Every entry is planned, and what is left alone the live classification accepts. */
  ghost predicate Careful(h: Hasher, src: Tree, dst: Tree, checksum: bool, es: seq<Entry>,
                          actions: seq<PlannedAction>) {
    |actions| == |es| && forall i :: 0 <= i < |es| ==> CarefulAt(h, src, dst, checksum, es[i], actions[i])
  }

  ghost predicate CarefulAt(h: Hasher, src: Tree, dst: Tree, checksum: bool, e: Entry, a: PlannedAction) {
    a.entry == e && (a.action == Skip && e.rel in src ==> Classify(h, src, dst, e.rel, checksum) == Skip)
  }

  lemma {:induction false} PlanIsCareful(h: Hasher, src: Tree, dst: Tree, opts: PlanOptions, es: seq<Entry>,
                                         actions: seq<PlannedAction>)
    requires PlansActions(h, src, dst, opts, es, actions)
    ensures Careful(h, src, dst, opts.checksum, es, actions)
  {
    forall i | 0 <= i < |es|
      ensures CarefulAt(h, src, dst, opts.checksum, es[i], actions[i])
    {
      assert actions[i] == PlannedAction(es[i], ActionFor(h, src, dst, opts, es, i));
    }
  }

  /** What a live-walk plan is, for a source and destination without metadata paths. */
  ghost predicate IsPlan(h: Hasher, src: Tree, dst: Tree, opts: PlanOptions, es: seq<Entry>, plan: SyncPlan) {
    && IsWalk(src, es)
    && PlansActions(h, src, dst, opts, es, plan.actions)
    && (if opts.delete then PlansDeletions(src, dst, plan.deletions) else plan.deletions == [])
  }

  function ActionFor(h: Hasher, src: Tree, dst: Tree, opts: PlanOptions, es: seq<Entry>, i: nat): Action
    requires i < |es|
  {
    var raw := if es[i].rel in src then Classify(h, src, dst, es[i].rel, opts.checksum) else Copy;
    if opts.hardLinks then Enforced(es, dst, i, raw) else raw
  }

  /** Entry `f` is the first to name its file, and entry `i` names it again. */
  ghost predicate RepeatsFile(es: seq<Entry>, f: nat, i: nat) {
    && f < i < |es| && IsFile(es[f]) && IsFile(es[i]) && es[f].ino == es[i].ino
    && forall k :: 0 <= k < f ==> !(IsFile(es[k]) && es[k].ino == es[i].ino)
  }

  /** One of the two is not there and the other is, or they are there on different identities. */
  ghost predicate Apart(dst: Tree, p: Path, q: Path) {
    (p in dst <==> q in dst) ==> p in dst && q in dst && dst[p].ino != dst[q].ino
  }

  /**
   What is planned for an entry. A second name of a file whose first is elsewhere is updated; what is not
   there is copied; what looks alike is skipped; anything else is updated.
   */
  lemma {:induction false} PlannedExactly(h: Hasher, src: Tree, dst: Tree, opts: PlanOptions, es: seq<Entry>, i: nat)
    requires i < |es| && es[i].rel in src
    ensures var p, action := es[i].rel, ActionFor(h, src, dst, opts, es, i);
            if opts.hardLinks && exists f: nat :: RepeatsFile(es, f, i) && Apart(dst, es[i].rel, es[f].rel)
            then action == Update
            else if p !in dst then action == Copy
            else if SameSummary(EntryOf(p, src[p]), EntryOf(p, dst[p]), !opts.checksum) &&
                    (opts.checksum && src[p].node.File? && dst[p].node.File? ==>
                       h(src[p].node.content) == h(dst[p].node.content))
            then action == Skip
            else action == Update
  {
    var f := FirstNamed(es, es[i].ino, i);
    FirstNamedIsFirst(es, es[i].ino, i);
    if IsDuplicate(es, i) {
      assert RepeatsFile(es, f, i);
    }
    forall g: nat | RepeatsFile(es, g, i)
      ensures IsDuplicate(es, i) && g == f
    {
    }
    if es[i].rel in dst {
      SkipReadsEntries(h, src, dst, es[i].rel, opts.checksum);
    }
  }

  /** The actions of a live-walk plan: classify every entry, then enforce hard links in place. */
  method ClassifyAll(h: Hasher, src: Tree, dst: Tree, es: seq<Entry>, opts: PlanOptions)
    returns (planned: seq<PlannedAction>)
    requires forall i :: 0 <= i < |es| ==> es[i].rel in src
    ensures PlansActions(h, src, dst, opts, es, planned)
  {
    var actions := new Action[|es|](i requires 0 <= i < |es| => Classify(h, src, dst, es[i].rel, opts.checksum));
    if opts.hardLinks {
      EnforceHardlinkActions(es, dst, actions);
    }
    planned := seq(|es|, i requires 0 <= i < |es| reads actions => PlannedAction(es[i], actions[i]));
  }

  /** The deletions among the first `n` destination entries, in descending path order. */
  function Extras(src: Tree, es: seq<Entry>, n: nat): seq<Deletion>
    requires n <= |es|
  {
    if n == 0 then []
    else
      (if es[n - 1].rel in src then [] else [Deletion(es[n - 1].rel, es[n - 1].kind == KindDir)])
      + Extras(src, es, n - 1)
  }

  lemma {:induction false} ExtrasAreExact(src: Tree, es: seq<Entry>, n: nat)
    requires n <= |es|
    ensures forall d :: d in Extras(src, es, n) <==>
              exists k :: 0 <= k < n && es[k].rel !in src && d == Deletion(es[k].rel, es[k].kind == KindDir)
  {
    if n > 0 {
      ExtrasAreExact(src, es, n - 1);
    }
  }

  lemma {:induction false} ExtrasChildrenFirst(src: Tree, es: seq<Entry>, n: nat)
    requires n <= |es| && ParentsFirst(es)
    ensures ChildrenFirst(Extras(src, es, n))
  {
    if n > 0 {
      ExtrasChildrenFirst(src, es, n - 1);
      ExtrasAreExact(src, es, n - 1);
      var rest := Extras(src, es, n - 1);
      assert forall j :: 0 <= j < |rest| ==> rest[j] in rest;
    }
  }

  /** Destination entries the source lacks, collected and sorted into descending order. */
  method CollectDeletions(src: Tree, es: seq<Entry>) returns (dels: seq<Deletion>)
    ensures dels == Extras(src, es, |es|)
  {
    dels := [];
    for i := 0 to |es|
      invariant dels == Extras(src, es, i)
    {
      if es[i].rel !in src {
        dels := [Deletion(es[i].rel, es[i].kind == KindDir)] + dels;
      }
    }
  }

  /** `build_plan` on the live-walk path, from the outcomes of the two walks. */
  method BuildPlan(h: Hasher, src: Tree, dst: Tree, srcWalk: Result<seq<Entry>, PlanError>,
                   dstWalk: Result<seq<Entry>, PlanError>, opts: PlanOptions)
    returns (r: Result<SyncPlan, PlanError>, es: seq<Entry>)
    requires (srcWalk.Ok? ==> IsWalk(src, srcWalk.value)) && (dstWalk.Ok? ==> IsWalk(dst, dstWalk.value))
    ensures srcWalk.Err? ==> r == Err(srcWalk.error)
    ensures srcWalk.Ok? && opts.delete && Visible(src) == map[] ==> r == Err(EmptySource)
    ensures srcWalk.Ok? && !(opts.delete && Visible(src) == map[]) ==>
              if dstWalk.Err? then r == Err(dstWalk.error) else r.Ok?
    ensures r.Ok? ==> es == Retain(srcWalk.value) && IsPlan(h, Visible(src), Visible(dst), opts, es, r.value)
    ensures r.Ok? && opts.delete ==> |r.value.actions| > 0
  {
    es := [];
    if srcWalk.Err? {
      return Err(srcWalk.error), es;
    }
    es := Retain(srcWalk.value);
    RetainWalks(src, srcWalk.value);
    if opts.delete && es == [] {
      return Err(EmptySource), es;
    }
    if dstWalk.Err? {
      return Err(dstWalk.error), es;
    }
    var actions := ClassifyAll(h, Visible(src), Visible(dst), es, opts);
    var deletions: seq<Deletion> := [];
    if opts.delete {
      RetainWalks(dst, dstWalk.value);
      var dstEntries := Retain(dstWalk.value);
      deletions := CollectDeletions(Visible(src), dstEntries);
      ExtrasArePlanned(Visible(src), Visible(dst), dstEntries);
    }
    r := Ok(SyncPlan(actions, deletions));
  }

  lemma {:induction false} ExtraIsStray(src: Tree, dst: Tree, es: seq<Entry>, d: Deletion)
    requires IsWalk(dst, es) && d in Extras(src, es, |es|)
    ensures d.rel in dst && d.rel !in src && (d.isDir <==> DirAt(dst, d.rel))
  {
    ExtrasAreExact(src, es, |es|);
    var k :| 0 <= k < |es| && es[k].rel !in src && d == Deletion(es[k].rel, es[k].kind == KindDir);
  }

  lemma {:induction false} StrayIsExtra(src: Tree, dst: Tree, es: seq<Entry>, p: Path)
    requires IsWalk(dst, es) && p in dst && p !in src
    ensures Deletion(p, DirAt(dst, p)) in Extras(src, es, |es|)
  {
    ExtrasAreExact(src, es, |es|);
    assert Lists(es, p);
    var k :| 0 <= k < |es| && es[k].rel == p;
    assert Deletion(es[k].rel, es[k].kind == KindDir) == Deletion(p, DirAt(dst, p));
  }

  lemma {:induction false} ExtrasArePlanned(src: Tree, dst: Tree, es: seq<Entry>)
    requires IsWalk(dst, es)
    ensures PlansDeletions(src, dst, Extras(src, es, |es|))
  {
    ExtrasChildrenFirst(src, es, |es|);
    forall d | d in Extras(src, es, |es|) {
      ExtraIsStray(src, dst, es, d);
    }
    forall p | p in dst && p !in src {
      StrayIsExtra(src, dst, es, p);
    }
  }
}
