/** What a report of the verifier lists: one line for each finding, in order, and nothing else. */
module Findings {
  import opened Bytes
  import opened Trees
  import opened Plan
  import opened Verify

  ghost predicate Increasing(pos: seq<nat>) {
    forall a, b :: 0 <= a < b < |pos| ==> pos[a] < pos[b]
  }

  /** One line for each of the entries at `pos`, in order. */
  ghost predicate LinesAt(ms: seq<Mismatch>, es: seq<Entry>, pos: seq<nat>) {
    && |pos| == |ms| && Increasing(pos)
    && forall k :: 0 <= k < |ms| ==> pos[k] < |es| && ms[k].rel == es[pos[k]].rel
  }

  /** The positions named are, below `n`, exactly the ones in `off`. */
  ghost predicate Names(pos: seq<nat>, n: nat, off: set<nat>) {
    forall i :: 0 <= i < n ==> (i in pos <==> i in off)
  }

  /** One line, in order, for each of the first `n` entries that is in `off`. */
  ghost predicate Lines(ms: seq<Mismatch>, es: seq<Entry>, pos: seq<nat>, n: nat, off: set<nat>) {
    LinesAt(ms, es, pos) && (forall i :: i in pos ==> i < n) && Names(pos, n, off)
  }

  lemma {:induction false} OneMoreLine(ms: seq<Mismatch>, es: seq<Entry>, pos: seq<nat>, n: nat, detail: Detail)
    requires LinesAt(ms, es, pos) && n < |es| && forall i :: i in pos ==> i < n
    ensures LinesAt(ms + [Mismatch(es[n].rel, detail)], es, pos + [n])
  {
    forall a | 0 <= a < |pos|
      ensures pos[a] < n
    {
      assert pos[a] in pos;
    }
  }

  lemma {:induction false} NamesOneMore(pos: seq<nat>, next: seq<nat>, n: nat, off: set<nat>)
    requires n > 0 && Names(pos, n - 1, off) && forall i :: i in pos ==> i < n - 1
    requires next == if n - 1 in off then pos + [n - 1] else pos
    ensures Names(next, n, off) && forall i :: i in next ==> i < n
  {
    forall i | 0 <= i < n
      ensures i in next <==> i in pos || (i == n - 1 && i in off)
    {
    }
  }

  /** One entry more, which has a line if and only if it is in `off`. */
  lemma {:induction false} OneMoreEntry(ms: seq<Mismatch>, more: seq<Mismatch>, es: seq<Entry>, pos: seq<nat>, n: nat,
                                        off: set<nat>, detail: Detail)
    returns (next: seq<nat>)
    requires 0 < n <= |es| && Lines(ms, es, pos, n - 1, off)
    requires more == if n - 1 in off then ms + [Mismatch(es[n - 1].rel, detail)] else ms
    ensures next == (if n - 1 in off then pos + [n - 1] else pos) && Lines(more, es, next, n, off)
  {
    if n - 1 in off {
      OneMoreLine(ms, es, pos, n - 1, detail);
      next := pos + [n - 1];
    } else {
      next := pos;
    }
    assert LinesAt(more, es, next);
    NamesOneMore(pos, next, n, off);
  }

  /** The entries that compare as different. */
  ghost function Different(c: Check, es: seq<Entry>, index: Index): set<nat> {
    set i | 0 <= i < |es| && CompareEntry(c, es[i], Lookup(index, es[i].rel)) != Ok(None)
  }

  ghost function Astray(es: seq<Entry>, index: Index): set<nat> {
    set i | 0 <= i < |es| && Strays(es, index, i)
  }

  ghost function Extra(src: set<Path>, ds: seq<Entry>): set<nat> {
    set i | 0 <= i < |ds| && ds[i].rel !in src
  }

  /** The comparison pass: a line for every entry that compares as different, with what was found. */
  lemma {:induction false} DifferencesListed(c: Check, es: seq<Entry>, index: Index, n: nat) returns (pos: seq<nat>)
    requires n <= |es| && Differences(c, es, index, n).Ok?
    ensures var ms := Differences(c, es, index, n).value;
            && Lines(ms, es, pos, n, Different(c, es, index))
            && (forall k :: 0 <= k < |ms| ==>
                  CompareEntry(c, es[pos[k]], Lookup(index, es[pos[k]].rel)) == Ok(Some(ms[k].detail)))
  {
    pos := [];
    if n > 0 {
      pos := DifferencesListed(c, es, index, n - 1);
      var found := CompareEntry(c, es[n - 1], Lookup(index, es[n - 1].rel)).value;
      pos := OneMoreEntry(Differences(c, es, index, n - 1).value, Differences(c, es, index, n).value, es, pos, n,
                          Different(c, es, index), if found.Some? then found.value else Missing);
    }
  }

  /**
   The detail of a line is the first difference of a fixed order: kind, mode, time, owner, group, content,
   allocation or target, attributes.
   */
  lemma {:induction false} FirstDifference(c: Check, p: Path)
    requires p in c.src.tree && p in Visible(c.dst.tree)
    requires CompareEntry(c, EntryOf(p, c.src.tree[p]), Found(Visible(c.dst.tree), p)).Ok?
    ensures var a, b := c.src.tree[p].node, c.dst.tree[p].node;
            match CompareEntry(c, EntryOf(p, c.src.tree[p]), Found(Visible(c.dst.tree), p)).value
            case None => true
            case Some(detail) =>
              && (detail != KindDiffers ==> SameKind(a, b))
              && (!(detail.KindDiffers? || detail.ModeDiffers?) ==> ModeOf(a) == ModeOf(b))
              && (!(detail.KindDiffers? || detail.ModeDiffers? || detail.MtimeDiffers?) ==> a.mtime == b.mtime)
              && (detail.GidDiffers? || detail.ContentDiffers? || detail.SparseDiffers? || detail.TargetDiffers? ||
                  detail.AttributesDiffer? ==>
                    (c.wants.owner ==> c.src.uid(p) == c.dst.uid(p)))
              && (detail.ContentDiffers? || detail.SparseDiffers? || detail.TargetDiffers? ||
                  detail.AttributesDiffer? ==>
                    (c.wants.group ==> c.src.gid(p) == c.dst.gid(p)))
              && (detail.SparseDiffers? || detail.AttributesDiffer? ==>
                    (a.File? && b.File? ==> |a.content| == |b.content| && c.h(a.content) == c.h(b.content)))
              && (detail.AttributesDiffer? ==> (a.Symlink? && b.Symlink? ==> a.target == b.target))
  {
  }

  lemma {:induction false} LinkStep(es: seq<Entry>, index: Index, n: nat)
    requires 0 < n <= |es|
    ensures LinkDifferences(es, index, n) ==
            if n - 1 in Astray(es, index)
            then LinkDifferences(es, index, n - 1) + [Mismatch(es[n - 1].rel, LinkDiffers)]
            else LinkDifferences(es, index, n - 1)
  {
  }

  /** The hard-link pass: a line for every file off its group's first identity. */
  lemma {:induction false} LinkDifferencesListed(es: seq<Entry>, index: Index, n: nat) returns (pos: seq<nat>)
    requires n <= |es|
    ensures Lines(LinkDifferences(es, index, n), es, pos, n, Astray(es, index))
  {
    pos := [];
    if n > 0 {
      pos := LinkDifferencesListed(es, index, n - 1);
      LinkStep(es, index, n);
      pos := OneMoreEntry(LinkDifferences(es, index, n - 1), LinkDifferences(es, index, n), es, pos, n,
                          Astray(es, index), LinkDiffers);
    }
  }

  /** The last pass: a line for every destination path the source lacks. */
  lemma {:induction false} SurplusListed(src: set<Path>, ds: seq<Entry>, n: nat) returns (pos: seq<nat>)
    requires n <= |ds|
    ensures Lines(Surplus(src, ds, n), ds, pos, n, Extra(src, ds))
  {
    pos := [];
    if n > 0 {
      pos := SurplusListed(src, ds, n - 1);
      pos := OneMoreEntry(Surplus(src, ds, n - 1), Surplus(src, ds, n), ds, pos, n, Extra(src, ds), Unexpected);
    }
  }

  // ---------- the first member of a group ----------

  /** Entry `j` is a name of the file `ino` that is there. */
  ghost predicate IsThere(dst: Tree, es: seq<Entry>, ino: nat, j: nat)
    requires j < |es|
  {
    IsFile(es[j]) && es[j].ino == ino && es[j].rel in dst
  }

  /** The first such name. */
  ghost predicate FirstThere(dst: Tree, es: seq<Entry>, ino: nat, j: nat)
    requires j < |es|
  {
    IsThere(dst, es, ino, j) && forall k :: 0 <= k < j ==> !IsThere(dst, es, ino, k)
  }

  /** A file that is there, on another identity than the first name of it that is there. */
  ghost predicate OffFirst(dst: Tree, es: seq<Entry>, i: nat)
    requires i < |es|
  {
    && IsThere(dst, es, es[i].ino, i)
    && exists j: nat :: j < i && FirstThere(dst, es, es[i].ino, j) && dst[es[j].rel].ino != dst[es[i].rel].ino
  }

  lemma {:induction false} GroupIdIsFirst(dst: Tree, es: seq<Entry>, index: Index, ino: nat, n: nat)
    requires n <= |es| && forall k :: 0 <= k < |es| ==> Lookup(index, es[k].rel) == Found(dst, es[k].rel)
    ensures GroupId(es, index, ino, n).None? <==> forall k :: 0 <= k < n ==> !IsThere(dst, es, ino, k)
    ensures GroupId(es, index, ino, n).Some? ==>
              exists j: nat :: j < n && FirstThere(dst, es, ino, j)
                               && GroupId(es, index, ino, n).value == dst[es[j].rel].ino
  {
    if n > 0 {
      GroupIdIsFirst(dst, es, index, ino, n - 1);
      assert Lookup(index, es[n - 1].rel) == Found(dst, es[n - 1].rel);
      if GroupId(es, index, ino, n - 1).None? && IsThere(dst, es, ino, n - 1) {
        assert FirstThere(dst, es, ino, n - 1);
      }
    }
  }

  lemma {:induction false} StraysAreOff(dst: Tree, es: seq<Entry>, index: Index, i: nat)
    requires i < |es| && forall k :: 0 <= k < |es| ==> Lookup(index, es[k].rel) == Found(dst, es[k].rel)
    ensures Strays(es, index, i) <==> OffFirst(dst, es, i)
  {
    var ino := es[i].ino;
    assert Lookup(index, es[i].rel) == Found(dst, es[i].rel);
    GroupIdIsFirst(dst, es, index, ino, i + 1);
    if IsThere(dst, es, ino, i) {
      var j: nat :| j < i + 1 && FirstThere(dst, es, ino, j)
                    && GroupId(es, index, ino, i + 1).value == dst[es[j].rel].ino;
      forall k: nat | k < i && FirstThere(dst, es, ino, k)
        ensures k == j
      {
      }
    }
  }

  // ---------- whole reports ----------

  /** The lines of one report: what differs, what is off its group, what should not be there. */
  datatype Sections = Sections(differ: seq<Mismatch>, astray: seq<Mismatch>, extra: seq<Mismatch>)

  /**
   `All` mode: the comparison pass has exactly one line for each source path that is not there or does not
   agree, the hard-link pass one for each file off its group's first identity, the last one for each
   extra path; each pass in walk order.
   */
  lemma {:induction false} ReportLists(c: Check, es: seq<Entry>, dstWalk: seq<Entry>)
    returns (parts: Sections, differ: seq<nat>, astray: seq<nat>, extra: seq<nat>)
    requires IsWalk(c.src.tree, es) && IsWalk(c.dst.tree, dstWalk) && NoCollisions(c)
    requires Report(c, es, Retain(dstWalk)).Ok?
    ensures Report(c, es, Retain(dstWalk)) == Ok(parts.differ + parts.astray + parts.extra)
    ensures LinesAt(parts.differ, es, differ)
    ensures forall i :: 0 <= i < |es| ==> (i in differ <==> !AgreesThere(c, es[i].rel))
    ensures LinesAt(parts.astray, es, astray)
    ensures forall i :: 0 <= i < |es| ==> (i in astray <==> c.wants.hardLinks && OffFirst(Visible(c.dst.tree), es, i))
    ensures LinesAt(parts.extra, Retain(dstWalk), extra)
    ensures forall i :: 0 <= i < |Retain(dstWalk)| ==> (i in extra <==> Retain(dstWalk)[i].rel !in c.src.tree)
  {
    var ds, dst := Retain(dstWalk), Visible(c.dst.tree);
    var index := IndexOf(ds, |ds|);
    RetainWalks(c.dst.tree, dstWalk);
    forall k | 0 <= k < |es|
      ensures Lookup(index, es[k].rel) == Found(dst, es[k].rel)
    {
      IndexIsTree(dst, ds, es[k].rel);
    }
    differ := DifferencesListed(c, es, index, |es|);
    EntriesCompare(c, es, index);
    astray := [];
    var links: seq<Mismatch> := [];
    if c.wants.hardLinks {
      astray := LinkDifferencesListed(es, index, |es|);
      links := LinkDifferences(es, index, |es|);
      forall i | 0 <= i < |es| {
        StraysAreOff(dst, es, index, i);
      }
    }
    extra := SurplusListed(Rels(es), ds, |ds|);
    forall p
      ensures p in Rels(es) <==> p in c.src.tree
    {
      assert p in c.src.tree ==> Lists(es, p);
    }
    parts := Sections(Differences(c, es, index, |es|).value, links, Surplus(Rels(es), ds, |ds|));
  }

  lemma {:induction false} EntriesCompare(c: Check, es: seq<Entry>, index: Index)
    requires forall i :: 0 <= i < |es| ==>
               es[i].rel in c.src.tree && es[i] == EntryOf(es[i].rel, c.src.tree[es[i].rel])
    requires NoCollisions(c) && Differences(c, es, index, |es|).Ok?
    requires forall k :: 0 <= k < |es| ==> Lookup(index, es[k].rel) == Found(Visible(c.dst.tree), es[k].rel)
    ensures forall i :: 0 <= i < |es| ==>
              (CompareEntry(c, es[i], Lookup(index, es[i].rel)) != Ok(None) <==> !AgreesThere(c, es[i].rel))
  {
    DifferencesAreExact(c, es, index, |es|);
    forall i | 0 <= i < |es|
      ensures CompareEntry(c, es[i], Lookup(index, es[i].rel)) != Ok(None) <==> !AgreesThere(c, es[i].rel)
    {
      assert Lookup(index, es[i].rel) == Found(Visible(c.dst.tree), es[i].rel);
      CompareIsExact(c, es[i].rel);
    }
  }

  function OneOn(pos: seq<nat>): (r: seq<nat>)
    ensures |r| == |pos| && forall k :: 0 <= k < |pos| ==> r[k] == pos[k] + 1
  {
    seq(|pos|, k requires 0 <= k < |pos| => pos[k] + 1)
  }

  lemma {:induction false} OneOnNames(pos: seq<nat>, i: nat)
    ensures i in OneOn(pos) <==> i > 0 && i - 1 in pos
  {
    if i in OneOn(pos) {
      var k :| 0 <= k < |pos| && OneOn(pos)[k] == i;
      assert pos[k] == i - 1;
    }
    if i > 0 && i - 1 in pos {
      var k :| 0 <= k < |pos| && pos[k] == i - 1;
      assert OneOn(pos)[k] == i;
    }
  }

  /** `es` are the entries of the actions at `pos`. */
  ghost predicate EntriesAt(es: seq<Entry>, actions: seq<PlannedAction>, pos: seq<nat>) {
    |pos| == |es| && forall k :: 0 <= k < |es| ==> pos[k] < |actions| && es[k] == actions[pos[k]].entry
  }

  lemma {:induction false} EntriesShift(es: seq<Entry>, actions: seq<PlannedAction>, pos: seq<nat>)
    requires actions != [] && EntriesAt(es, actions[1..], pos) && Increasing(pos)
    ensures EntriesAt(es, actions, OneOn(pos)) && Increasing(OneOn(pos))
    ensures EntriesAt([actions[0].entry] + es, actions, [0] + OneOn(pos)) && Increasing([0] + OneOn(pos))
  {
    var on := OneOn(pos);
    forall k | 0 <= k < |es|
      ensures on[k] < |actions| && es[k] == actions[on[k]].entry
    {
      assert actions[1..][pos[k]] == actions[on[k]];
    }
  }

  /** The entries `Changed` mode compares: those the plan does not skip, in plan order. */
  lemma {:induction false} ChangedListed(actions: seq<PlannedAction>, all: bool) returns (pos: seq<nat>)
    ensures EntriesAt(ChangedEntries(actions, all), actions, pos) && Increasing(pos)
    ensures forall i :: 0 <= i < |actions| ==> (i in pos <==> all || actions[i].action != Skip)
  {
    pos := [];
    if actions != [] {
      var rest := ChangedListed(actions[1..], all);
      EntriesShift(ChangedEntries(actions[1..], all), actions, rest);
      var first := all || actions[0].action != Skip;
      pos := (if first then [0] else []) + OneOn(rest);
      forall i | 0 <= i < |actions|
        ensures i in pos <==> all || actions[i].action != Skip
      {
        OneOnNames(rest, i);
        assert i > 0 ==> actions[i] == actions[1..][i - 1];
      }
      assert !first ==> pos == OneOn(rest) && ChangedEntries(actions, all) == ChangedEntries(actions[1..], all);
    }
  }

  /**
   `Changed` mode: one line for each changed entry that, as looked up, is not there or does not agree, and
   with hard links one for each planned file off its group's first identity.
   */
  lemma {:induction false} ChangedLists(c: Check, walk: seq<Entry>, actions: seq<PlannedAction>)
    returns (differ: seq<nat>, astray: seq<nat>)
    requires IsWalk(c.src.tree, walk) && |actions| == |walk|
    requires forall i :: 0 <= i < |actions| ==> actions[i].entry == walk[i]
    requires NoCollisions(c)
    requires var es := ChangedEntries(actions, false); Differences(c, es, LiveIndex(c, actions), |es|).Ok?
    ensures var es, index := ChangedEntries(actions, false), LiveIndex(c, actions);
            && LinesAt(Differences(c, es, index, |es|).value, es, differ)
            && (forall i :: 0 <= i < |es| ==>
                  es[i].rel in c.src.tree && (i in differ <==> !AgreesThere(c, es[i].rel)))
    ensures c.wants.hardLinks ==>
              && LinesAt(LinkDifferences(walk, LiveIndex(c, actions), |walk|), walk, astray)
              && forall i :: 0 <= i < |walk| ==> (i in astray <==> OffFirst(Visible(c.dst.tree), walk, i))
  {
    var es, index := ChangedEntries(actions, false), LiveIndex(c, actions);
    var pos := ChangedListed(actions, false);
    forall k | 0 <= k < |es|
      ensures es[k].rel in c.src.tree && es[k] == EntryOf(es[k].rel, c.src.tree[es[k].rel])
      ensures Lookup(index, es[k].rel) == Found(Visible(c.dst.tree), es[k].rel)
    {
      assert pos[k] in pos && es[k] == walk[pos[k]];
      LiveIndexFinds(c, actions, pos[k]);
    }
    differ := DifferencesListed(c, es, index, |es|);
    EntriesCompare(c, es, index);
    astray := [];
    if c.wants.hardLinks {
      astray := LinkDifferencesListed(walk, index, |walk|);
      forall k | 0 <= k < |walk|
        ensures Lookup(index, walk[k].rel) == Found(Visible(c.dst.tree), walk[k].rel)
      {
        LiveIndexFinds(c, actions, k);
      }
      forall i | 0 <= i < |walk| {
        StraysAreOff(Visible(c.dst.tree), walk, index, i);
      }
    }
  }

  // ---------- comparisons that fail ----------

  /** Files alike in all that is looked at before their contents, one of which cannot be read. */
  ghost predicate Blocked(c: Check, p: Path) {
    && p in c.src.tree && p in Visible(c.dst.tree)
    && var a, b := c.src.tree[p].node, c.dst.tree[p].node;
      && a.File? && b.File? && a.mode == b.mode && a.mtime == b.mtime && |a.content| == |b.content|
      && (c.wants.owner ==> c.src.uid(p) == c.dst.uid(p))
      && (c.wants.group ==> c.src.gid(p) == c.dst.gid(p))
      && !(c.src.readable(p) && c.dst.readable(p))
  }

  lemma {:induction false} BlockedFails(c: Check, p: Path)
    requires p in c.src.tree
    ensures var r := CompareEntry(c, EntryOf(p, c.src.tree[p]), Found(Visible(c.dst.tree), p));
            if Blocked(c, p) then r == Err(Unreadable(p)) else r.Ok?
  {
  }

  lemma {:induction false} FirstFailure(c: Check, es: seq<Entry>, index: Index, n: nat)
    requires n <= |es|
    requires forall i :: 0 <= i < |es| ==>
               var r := CompareEntry(c, es[i], Lookup(index, es[i].rel));
               if Blocked(c, es[i].rel) then r == Err(Unreadable(es[i].rel)) else r.Ok?
    ensures match Differences(c, es, index, n)
            case Ok(_) => forall i :: 0 <= i < n ==> !Blocked(c, es[i].rel)
            case Err(f) =>
              exists i :: 0 <= i < n && Blocked(c, es[i].rel) && f == Unreadable(es[i].rel)
                          && forall j :: 0 <= j < i ==> !Blocked(c, es[j].rel)
  {
    if n > 0 {
      FirstFailure(c, es, index, n - 1);
    }
  }

  /** And so in `Changed` mode, in what looking up the changed entries yields. */
  lemma {:induction false} ChangedFails(c: Check, walk: seq<Entry>, actions: seq<PlannedAction>)
    requires IsWalk(c.src.tree, walk) && |actions| == |walk|
    requires forall i :: 0 <= i < |actions| ==> actions[i].entry == walk[i]
    ensures var es := ChangedEntries(actions, false);
            match Differences(c, es, LiveIndex(c, actions), |es|)
            case Ok(_) => forall i :: 0 <= i < |es| ==> !Blocked(c, es[i].rel)
            case Err(f) =>
              exists i :: 0 <= i < |es| && Blocked(c, es[i].rel) && f == Unreadable(es[i].rel)
                          && forall j :: 0 <= j < i ==> !Blocked(c, es[j].rel)
  {
    var es, index := ChangedEntries(actions, false), LiveIndex(c, actions);
    var pos := ChangedListed(actions, false);
    forall k | 0 <= k < |es|
      ensures var r := CompareEntry(c, es[k], Lookup(index, es[k].rel));
              if Blocked(c, es[k].rel) then r == Err(Unreadable(es[k].rel)) else r.Ok?
    {
      assert pos[k] in pos && es[k] == walk[pos[k]];
      LiveIndexFinds(c, actions, pos[k]);
      assert es[k] == EntryOf(es[k].rel, c.src.tree[es[k].rel]);
      BlockedFails(c, es[k].rel);
    }
    FirstFailure(c, es, index, |es|);
  }

  /** A verification fails if and only if a comparison is blocked, and then with the first such path. */
  lemma {:induction false} ReportFails(c: Check, es: seq<Entry>, dstWalk: seq<Entry>)
    requires IsWalk(c.src.tree, es) && IsWalk(c.dst.tree, dstWalk)
    ensures match Report(c, es, Retain(dstWalk))
            case Ok(_) => forall p :: p in c.src.tree ==> !Blocked(c, p)
            case Err(f) =>
              exists i :: 0 <= i < |es| && Blocked(c, es[i].rel) && f == Unreadable(es[i].rel)
                          && forall j :: 0 <= j < i ==> !Blocked(c, es[j].rel)
  {
    var ds := Retain(dstWalk);
    var index := IndexOf(ds, |ds|);
    RetainWalks(c.dst.tree, dstWalk);
    forall i | 0 <= i < |es|
      ensures var r := CompareEntry(c, es[i], Lookup(index, es[i].rel));
              if Blocked(c, es[i].rel) then r == Err(Unreadable(es[i].rel)) else r.Ok?
    {
      IndexIsTree(Visible(c.dst.tree), ds, es[i].rel);
      assert es[i] == EntryOf(es[i].rel, c.src.tree[es[i].rel]);
      BlockedFails(c, es[i].rel);
    }
    FirstFailure(c, es, index, |es|);
    forall p | p in c.src.tree && Differences(c, es, index, |es|).Ok?
      ensures !Blocked(c, p)
    {
      assert Lists(es, p);
    }
  }
}
