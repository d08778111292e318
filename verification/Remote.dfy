/**
 The receiver's session: collect the list, bring every entry over in order, mirror deletions, report.
 A session without errors leaves the destination a mirror of the list.
 */
module Remote {
  import opened Bytes
  import opened Trees
  import opened Steps
  import opened Jobs
  import opened Destination
  import opened Net
  import opened Receiver
  import opened Report
  import Planning = Plan

  // ---------- the list ----------

  /** The whole list as it is sent, its end included. */
  function ListMessages(es: seq<NetEntry>): seq<Msg> {
    ListMsgs(es) + [ListDone]
  }

  function EntriesOf(ms: seq<Msg>): Option<seq<NetEntry>> {
    if ms == [] then None
    else match ms[0]
      case Listed(e) => After([e], EntriesOf(ms[1..]))
      case ListDone => Some([])
      case _ => None
  }

  function After(es: seq<NetEntry>, rest: Option<seq<NetEntry>>): Option<seq<NetEntry>> {
    match rest
    case None => None
    case Some(more) => Some(es + more)
  }

  /** A list is read if and only if entries and then an end come before anything else. */
  lemma {:induction false} EntriesExactly(ms: seq<Msg>, es: seq<NetEntry>)
    ensures EntriesOf(ms) == Some(es) <==>
            |es| < |ms| && ms[|es|] == ListDone && forall i :: 0 <= i < |es| ==> ms[i] == Listed(es[i])
  {
    if ms != [] && ms[0].Listed? {
      if es != [] {
        EntriesExactly(ms[1..], es[1..]);
        assert es == [es[0]] + es[1..];
        assert forall i :: 0 < i < |ms| ==> ms[i] == ms[1..][i - 1];
        assert forall i :: 0 < i < |es| ==> es[i] == es[1..][i - 1];
        assert forall i :: 0 <= i < |es| - 1 ==> es[1..][i] == es[i + 1] && (i + 1 < |ms| ==> ms[1..][i] == ms[i + 1]);
      }
    }
  }

  lemma {:induction false} AfterOne(es: seq<NetEntry>, e: NetEntry, rest: Option<seq<NetEntry>>)
    ensures After(es, After([e], rest)) == After(es + [e], rest)
  {
    if rest.Some? {
      assert es + ([e] + rest.value) == es + [e] + rest.value;
    }
  }

  /** The first loop of `run_receiver`: entries up to the end of the list, or an error. */
  method CollectList(inbox: seq<Msg>) returns (r: Option<seq<NetEntry>>)
    ensures r == EntriesOf(inbox)
  {
    var es: seq<NetEntry> := [];
    assert inbox[0..] == inbox;
    assert After(es, EntriesOf(inbox)) == EntriesOf(inbox) by {
      if EntriesOf(inbox).Some? {
        assert [] + EntriesOf(inbox).value == EntriesOf(inbox).value;
      }
    }
    for i := 0 to |inbox|
      invariant EntriesOf(inbox) == After(es, EntriesOf(inbox[i..]))
    {
      assert inbox[i..][1..] == inbox[i + 1..];
      if inbox[i].ListDone? {
        assert es + [] == es;
        return Some(es);
      } else if !inbox[i].Listed? {
        return None;
      }
      AfterOne(es, inbox[i].entry, EntriesOf(inbox[i + 1..]));
      es := es + [inbox[i].entry];
    }
    return None;
  }

  /** The list arrives as it was sent. */
  lemma {:induction false} ListRoundTrip(es: seq<NetEntry>, rest: seq<Msg>)
    ensures EntriesOf(ListMessages(es) + rest) == Some(es)
  {
    var ms := ListMessages(es) + rest;
    if es == [] {
      assert ms[0] == ListDone;
    } else {
      ListMsgsSplit(es);
      assert ms[0] == Listed(es[0]) && ms[1..] == ListMessages(es[1..]) + rest;
      ListRoundTrip(es[1..], rest);
      assert [es[0]] + es[1..] == es;
    }
  }

  // ---------- where a session stands ----------

  /** `unchanged`: the entry is left alone on the strength of its length and time. */
  predicate Unchanged(s: Session, p: Path) {
    && !s.o.checksum && p in s.src && p in s.dst && s.src[p].node.File? && s.dst[p].node.File?
    && |s.src[p].node.content| == |s.dst[p].node.content| && s.src[p].node.mtime == s.dst[p].node.mtime
  }

  /** Both sides have a file at `p`, of one length and one time to the nanosecond. */
  ghost predicate SameLengthAndTime(s: Session, p: Path) {
    && p in s.src && p in s.dst && s.src[p].node.File? && s.dst[p].node.File?
    && |s.src[p].node.content| == |s.dst[p].node.content|
    && s.src[p].node.mtime.secs == s.dst[p].node.mtime.secs && s.src[p].node.mtime.nanos == s.dst[p].node.mtime.nanos
  }

  /**
   What the theorem asks of the two trees and the engines: no directory is listed where the
   destination has something else, no link where it has a directory, packing can be undone, and no
   strong hash collides between a file's old blocks and its new windows.
   */
  ghost predicate Agreeable(s: Session) {
    && ZstdInverts(s)
    && forall p {:trigger AgreeAt(s, p)} :: p in s.src && p in s.dst ==> AgreeAt(s, p)
  }

  ghost predicate AgreeAt(s: Session, p: Path)
    requires p in s.src && p in s.dst
  {
    var a, b := s.src[p].node, s.dst[p].node;
    && (a.Dir? ==> b.Dir?) && (a.Symlink? ==> !b.Dir?)
    && (a.File? && b.File? ==> DeltaFaithful(s, b.content, a.content))
  }

  /** What has been written at `p` is what was listed; `exact` says that no attribute call failed. */
  ghost predicate Brought(s: Session, written: map<Path, Obj>, exact: bool, p: Path) {
    p in written ==>
      p in s.src &&
      var n := written[p].node;
      match s.src[p].node
      case Dir(mode, _) => n.Dir? && (s.o.preserveMode && exact ==> n.mode == Strip(mode))
      case Symlink(target, mtime) => n.Symlink? && n.target == target &&
        (s.o.preserveMtime && exact ==> n.mtime == mtime)
      case File(content, mode, mtime) =>
        && n.File? && n.content == content
        && (s.o.preserveMode && exact ==> n.mode == Strip(mode)) && (s.o.preserveMtime && exact ==> n.mtime == mtime)
  }

  ghost predicate OnTrack(s: Session, t: Tree, written: map<Path, Obj>, exact: bool) {
    Progress(false, s.src, s.dst, t, written) && forall p :: Brought(s, written, exact, p)
  }

  /**
   What a session has no business with: unchanged files, and what the list lacks where deletion was not
   asked for, unless it is below a listed file or link.
   */
  ghost predicate Bystander(s: Session, p: Path) {
    p in s.dst && !Displaced(s.src, p) && if p in s.src then Unchanged(s, p) else !s.o.delete
  }

  ghost predicate StaysAt(s: Session, t: Tree, p: Path) {
    Bystander(s, p) ==> p in t && Alike(t[p], s.dst[p])
  }

  /** Every bystander is there as it was, directory times apart. */
  ghost predicate LeavesAlone(s: Session, t: Tree) {
    forall p {:trigger StaysAt(s, t, p)} :: StaysAt(s, t, p)
  }

  lemma {:induction false} PlacingLeavesAlone(s: Session, t: Tree, u: Tree, p: Path)
    requires Closed(s.src) && LeavesAlone(s, t) && Outside(t, u, p)
    requires p in s.src && !s.src[p].node.Dir? && !Unchanged(s, p)
    ensures LeavesAlone(s, u)
  {
    assert Ready(s.src, p);
    forall q
      ensures StaysAt(s, u, q)
    {
      assert StaysAt(s, t, q);
      if p <= q && q != p {
        assert |p| < |q| && q[..|p|] == p;
        assert Displaced(s.src, q);
      }
    }
  }

  lemma {:induction false} MakingLeavesAlone(s: Session, t: Tree, u: Tree, p: Path)
    requires LeavesAlone(s, t) && OnlyAt(t, u, p) && p in s.src && s.src[p].node.Dir?
    ensures LeavesAlone(s, u)
  {
    forall q
      ensures StaysAt(s, u, q)
    {
      assert StaysAt(s, t, q);
    }
  }

  lemma {:induction false} SweepingLeavesAlone(s: Session, t: Tree, u: Tree, p: Path)
    requires Closed(s.src) && LeavesAlone(s, t) && Outside(t, u, p) && |p| > 0 && p !in s.src && s.o.delete
    ensures LeavesAlone(s, u)
  {
    forall q
      ensures StaysAt(s, u, q)
    {
      assert StaysAt(s, t, q);
      if p <= q && q in s.src {
        assert |p| == |q| ==> p == q;
        AncestorIsDir(s.src, p, q);
      }
    }
  }

  /** Nothing has been written, has failed or was cancelled yet. */
  ghost predicate Unused(d: Destination)
    reads d
  {
    !d.escaped && !d.silent && !d.faulted && !d.cancelled && d.written == map[]
  }

  /**
   Whatever has failed, unless a call went astray the session has touched no bystander; and nothing fails or
   is cancelled that cannot be.
   */
  ghost predicate Harmless(s: Session, d: Destination)
    reads d`tree, d`escaped, d`faulted, d`cancelled
  {
    && (!d.escaped ==> LeavesAlone(s, d.tree))
    && (d.faulted ==> d.CanFail()) && (d.cancelled ==> d.stoppable)
  }

  /** Unless something failed, the session is on track and went through no stray path. */
  ghost predicate OnCourse(s: Session, d: Destination, clean: bool)
    reads d`tree, d`escaped, d`written, d`silent, d`faulted, d`cancelled
  {
    && Closed(d.tree) && Harmless(s, d) && (!d.faulted ==> !d.silent)
    && (clean && Agreeable(s) ==> !d.escaped && OnTrack(s, d.tree, d.written, !d.silent))
  }

  /** The first `i` entries are done. */
  ghost predicate DoneBefore(s: Session, written: map<Path, Obj>, i: nat)
    requires i <= |s.es|
  {
    forall k {:trigger DoneAt(s, written, k)} :: 0 <= k < i ==> DoneAt(s, written, k)
  }

  predicate DoneAt(s: Session, written: map<Path, Obj>, k: nat)
    requires k < |s.es|
  {
    s.es[k].rel in written || Unchanged(s, s.es[k].rel)
  }

  lemma {:induction false} EntryReady(s: Session, t: Tree, written: map<Path, Obj>, exact: bool, i: nat)
    requires s.Valid() && i < |s.es| && OnTrack(s, t, written, exact) && DoneBefore(s, written, i)
    ensures Ready(t, s.es[i].rel)
  {
    var p := s.es[i].rel;
    assert Fitting(s.src, s.es, i);
    assert Ready(s.src, p);
    if |p| > 1 {
      var q := Parent(p);
      assert Names(s.es, q);
      var k :| 0 <= k < |s.es| && s.es[k].rel == q;
      assert i < k ==> NotAbove(s.es, i, k);
      assert Fitting(s.src, s.es, k);
      assert k < i ==> DoneAt(s, written, k);
    }
    ReadyInSource(false, s.src, s.dst, t, written, p);
  }

  /** An attribute call that failed only weakens what is claimed. */
  lemma {:induction false} Inexact(s: Session, t: Tree, written: map<Path, Obj>, exact: bool, still: bool)
    requires OnTrack(s, t, written, exact) && (still ==> exact)
    ensures OnTrack(s, t, written, still)
  {
    forall p
      ensures Brought(s, written, still, p)
    {
      assert Brought(s, written, exact, p);
    }
  }

  lemma {:induction false} PlacedOnTrack(s: Session, t: Tree, u: Tree, written: map<Path, Obj>, exact: bool,
                                         still: bool, p: Path, o: Obj)
    requires s.Valid() && OnTrack(s, t, written, exact) && (still ==> exact)
    requires p in s.src && !s.src[p].node.Dir? && Closed(u) && Placed(t, u, p, o)
    requires Brought(s, written[p := o], still, p)
    ensures OnTrack(s, u, written[p := o], still)
  {
    PlaceProgress(false, s.src, s.dst, t, u, written, p, o);
    Inexact(s, t, written, exact, still);
    var now := written[p := o];
    forall q
      ensures Brought(s, now, still, q)
    {
      assert Brought(s, written, still, q);
    }
  }

  lemma {:induction false} MadeOnTrack(s: Session, t: Tree, u: Tree, written: map<Path, Obj>, exact: bool, still: bool,
                                       p: Path)
    requires s.Valid() && OnTrack(s, t, written, exact) && (still ==> exact)
    requires p in s.src && s.src[p].node.Dir? && Closed(u) && DirAt(u, p) && MadeDir(t, u, p, u[p].node.mode)
    requires Brought(s, written[p := u[p]], still, p)
    ensures OnTrack(s, u, written[p := u[p]], still)
  {
    DirProgress(false, s.src, s.dst, t, u, written, p, u[p].node.mode);
    Inexact(s, t, written, exact, still);
    var now := written[p := u[p]];
    forall q
      ensures Brought(s, now, still, q)
    {
      assert Brought(s, written, still, q);
    }
  }

  // ---------- one entry of each kind ----------

  /**
   How entry `i` counts where nothing fails: skipped if it is an unchanged file, an update if the
   destination had something there, for a file a file, and otherwise a copy.
   */
  ghost function OutcomeOf(s: Session, i: nat): Planning.Action
    requires i < |s.es|
  {
    var p, file := s.es[i].rel, s.es[i].kind.KindFile?;
    if file && !s.o.checksum && SameLengthAndTime(s, p) then Planning.Skip
    else if p in s.dst && (file ==> s.dst[p].node.File?) then Planning.Update
    else Planning.Copy
  }

  /** How many of the first `n` entries count as `a`. */
  ghost function Outcomes(s: Session, n: nat, a: Planning.Action): nat
    requires n <= |s.es|
  {
    if n == 0 then 0 else Outcomes(s, n - 1, a) + if OutcomeOf(s, n - 1) == a then 1 else 0
  }

  /** The bytes of the files among the first `n` entries that are not skipped. */
  ghost function Moved(s: Session, n: nat): nat
    requires n <= |s.es|
  {
    if n == 0 then 0
    else
      var moves := s.es[n - 1].kind.KindFile? && OutcomeOf(s, n - 1) != Planning.Skip;
      Moved(s, n - 1) + if moves then s.es[n - 1].len else 0
  }

  /** The tally of a session after `n` entries none of which failed. */
  ghost predicate Tallied(s: Session, tally: Stats, n: nat)
    requires n <= |s.es|
  {
    && tally.errors == 0 && tally.bytes == Moved(s, n)
    && tally.copied == Outcomes(s, n, Planning.Copy) && tally.updated == Outcomes(s, n, Planning.Update)
    && tally.skipped == Outcomes(s, n, Planning.Skip)
  }

  /** Entry `i` was counted as its outcome, with its bytes, and nothing else. */
  ghost predicate CountedAs(s: Session, i: nat, before: Stats, after: Stats)
    requires i < |s.es|
  {
    var a := OutcomeOf(s, i);
    && after.copied == before.copied + (if a == Planning.Copy then 1 else 0)
    && after.updated == before.updated + (if a == Planning.Update then 1 else 0)
    && after.skipped == before.skipped + (if a == Planning.Skip then 1 else 0)
    && after.bytes == before.bytes + (if s.es[i].kind.KindFile? && a != Planning.Skip then s.es[i].len else 0)
    && after.errors == before.errors && after.deleted == before.deleted
  }

  lemma {:induction false} OneMoreTallied(s: Session, before: Stats, after: Stats, i: nat)
    requires i < |s.es| && Tallied(s, before, i) && CountedAs(s, i, before, after)
    ensures Tallied(s, after, i + 1)
  {
  }

  /** Nothing about entry `i` itself makes the receiver refuse it. */
  predicate PoliteAt(s: Session, i: nat)
    requires i < |s.es|
  {
    !Escapes(s.es[i].rel) && (s.es[i].kind.KindSymlink? ==> !Climbs(s.es[i].kind.target))
  }

  ghost predicate Polite(s: Session) {
    forall i {:trigger PoliteAt(s, i)} :: 0 <= i < |s.es| ==> PoliteAt(s, i)
  }

  /** Entry `i` costs no call at all: it is a file left alone as unchanged. */
  predicate LeftAlone(s: Session, i: nat)
    requires i < |s.es|
  {
    s.es[i].kind.KindFile? && Unchanged(s, s.es[i].rel) && !Escapes(s.es[i].rel)
  }

  ghost predicate AllLeftAlone(s: Session) {
    forall i {:trigger LeftAlone(s, i)} :: 0 <= i < |s.es| ==> LeftAlone(s, i)
  }

  method BringDir(s: Session, d: Destination, i: nat, tally: Stats) returns (now: Stats)
    requires s.Valid() && i < |s.es| && s.es[i].kind.KindDir? && OnCourse(s, d, tally.errors == 0)
    requires tally.errors == 0 && Agreeable(s) ==> DoneBefore(s, d.written, i)
    modifies d
    ensures KeepsPinned(d.pinned, old(d.tree), d.tree)
    ensures old(d.faulted) ==> d.faulted
    ensures tally.errors == 0 && Agreeable(s) && PoliteAt(s, i) && now.errors > 0 ==> d.faulted
    ensures OnCourse(s, d, now.errors == 0) && CountedOnce(tally, now, now.errors == tally.errors)
    ensures now.errors == tally.errors ==> CountedAs(s, i, tally, now)
    ensures now.errors == 0 && Agreeable(s) ==> d.written.Keys == old(d.written).Keys + {s.es[i].rel}
  {
    var e := s.es[i];
    ghost var t, w, exact := d.tree, d.written, !d.silent;
    assert Fitting(s.src, s.es, i);
    if tally.errors == 0 && Agreeable(s) {
      EntryReady(s, t, w, exact, i);
      NoLinkWhereDir(s, t, w, exact, e.rel);
    }
    var done := EnsureDir(d, e, s.o);
    if !d.escaped {
      MakingLeavesAlone(s, t, d.tree, e.rel);
    }
    now := if done then tally.Count(e.rel in s.dst) else tally.Fail();
    if now.errors == 0 && Agreeable(s) {
      d.written := w[e.rel := d.tree[e.rel]];
      MadeOnTrack(s, t, d.tree, w, exact, !d.silent, e.rel);
    }
  }

  lemma {:induction false} NoLinkWhereDir(s: Session, t: Tree, written: map<Path, Obj>, exact: bool, p: Path)
    requires Agreeable(s) && OnTrack(s, t, written, exact) && p in s.src && s.src[p].node.Dir?
    ensures p in t ==> t[p].node.Dir?
  {
    assert Accounted(false, s.src, s.dst, t, written, p);
    if p in s.dst {
      assert AgreeAt(s, p);
    }
  }

  method BringLink(s: Session, d: Destination, i: nat, tally: Stats) returns (now: Stats)
    requires s.Valid() && i < |s.es| && s.es[i].kind.KindSymlink? && OnCourse(s, d, tally.errors == 0)
    requires tally.errors == 0 && Agreeable(s) ==> DoneBefore(s, d.written, i)
    modifies d
    ensures KeepsPinned(d.pinned, old(d.tree), d.tree)
    ensures old(d.faulted) ==> d.faulted
    ensures tally.errors == 0 && Agreeable(s) && PoliteAt(s, i) && now.errors > 0 ==> d.faulted
    ensures OnCourse(s, d, now.errors == 0) && CountedOnce(tally, now, now.errors == tally.errors)
    ensures now.errors == tally.errors ==> CountedAs(s, i, tally, now)
    ensures now.errors == 0 && Agreeable(s) ==> d.written.Keys == old(d.written).Keys + {s.es[i].rel}
  {
    var e := s.es[i];
    ghost var t, w, exact := d.tree, d.written, !d.silent;
    assert Fitting(s.src, s.es, i);
    if tally.errors == 0 && Agreeable(s) {
      EntryReady(s, t, w, exact, i);
    }
    var done, link := WriteLink(d, e, e.kind.target, s.o);
    if !d.escaped {
      PlacingLeavesAlone(s, t, d.tree, e.rel);
    }
    now := if done then tally.Count(e.rel in s.dst) else tally.Fail();
    if now.errors == 0 && Agreeable(s) {
      d.written := w[e.rel := link];
      PlacedOnTrack(s, t, d.tree, w, exact, !d.silent, e.rel, link);
    }
  }

  /** `std::fs::read(dst).unwrap_or_default()`. */
  method ReadBase(d: Destination, p: Path) returns (base: Buffer)
    ensures p in d.tree && d.tree[p].node.File? ==> base == d.tree[p].node.content || base == []
  {
    base := [];
    if * {
      base := if p in d.tree && d.tree[p].node.File? then d.tree[p].node.content else [];
    } else if p !in d.tree || !d.tree[p].node.File? {
      base := *;  // read through whatever is there
    }
  }

  /** Against nothing, as when the old copy cannot be read, a delta is all literal. */
  lemma {:induction false} NothingIsFaithful(s: Session, content: Buffer)
    requires s.Valid()
    ensures DeltaFaithful(s, [], content)
  {
    assert MIN_BLOCK <= s.blockSize(0) <= MAX_BLOCK;
  }

  /** A file not yet brought over is still the destination's own. */
  lemma {:induction false} BaseIsOurs(s: Session, t: Tree, written: map<Path, Obj>, exact: bool, p: Path)
    requires OnTrack(s, t, written, exact) && p in s.src && p in s.dst && s.dst[p].node.File? && p !in written
    ensures p in t && t[p] == s.dst[p]
  {
    assert Accounted(false, s.src, s.dst, t, written, p);
  }

  method BringFile(s: Session, d: Destination, conn: Conversation, i: nat, tally: Stats) returns (ok: bool, now: Stats)
    requires s.Valid() && i < |s.es| && s.es[i].kind.KindFile? && OnCourse(s, d, tally.errors == 0)
    requires tally.errors == 0 && Agreeable(s) ==> DoneBefore(s, d.written, i) && s.es[i].rel !in d.written
    requires conn.Recorded(s) && !Unchanged(s, s.es[i].rel)
    modifies d, conn`asked, conn`answered, conn`faulted
    ensures ok ==> Asks(old(conn.asked), conn.asked, s.es[i].rel, !s.o.wholeFile && IsFileAt(s.dst, s.es[i].rel))
    ensures !ok ==> conn.asked == old(conn.asked)
    ensures Harmless(s, d)
    ensures KeepsPinned(d.pinned, old(d.tree), d.tree)
    ensures conn.Recorded(s)
    ensures |conn.asked| <= |old(conn.asked)| + 1 && (old(d.faulted) ==> d.faulted)
    ensures (old(conn.faulted) ==> conn.faulted) && (conn.faulted && !old(conn.faulted) ==> conn.lossy)
    ensures !ok ==> conn.faulted
    ensures tally.errors == 0 && Agreeable(s) && PoliteAt(s, i) && now.errors > 0 ==> d.faulted || conn.faulted
    ensures ok ==> OnCourse(s, d, now.errors == 0) && CountedOnce(tally, now, now.errors == tally.errors)
    ensures ok && now.errors == 0 && Agreeable(s) && !Unchanged(s, s.es[i].rel) ==> CountedAs(s, i, tally, now)
    ensures ok && now.errors == 0 && Agreeable(s) ==> d.written.Keys == old(d.written).Keys + {s.es[i].rel}
  {
    var e := s.es[i];
    now := tally;
    assert Fitting(s.src, s.es, i);
    var existing := e.rel in s.dst && s.dst[e.rel].node.File?;
    var base := ReadBase(d, e.rel);
    ghost var calm := tally.errors == 0 && Agreeable(s);
    if calm && existing {
      BaseIsOurs(s, d.tree, d.written, !d.silent, e.rel);
      assert AgreeAt(s, e.rel);
      NothingIsFaithful(s, s.src[e.rel].node.content);
    }
    var fetched := Fetch(s, conn, e.rel, base, !s.o.wholeFile && existing);
    if fetched.Lost? {
      return false, now;
    }
    ok := true;
    if fetched.Unavailable? {
      now := tally.Fail();
      return;
    }
    now := StoreFile(s, d, i, fetched.bytes, existing, tally);
  }

  method StoreFile(s: Session, d: Destination, i: nat, bytes: Buffer, existing: bool, tally: Stats) returns (now: Stats)
    requires s.Valid() && i < |s.es| && s.es[i].kind.KindFile? && OnCourse(s, d, tally.errors == 0)
    requires tally.errors == 0 && Agreeable(s) ==>
               DoneBefore(s, d.written, i) && s.es[i].rel in s.src && s.src[s.es[i].rel].node.File? &&
               bytes == s.src[s.es[i].rel].node.content
    requires !Unchanged(s, s.es[i].rel)
    modifies d
    ensures KeepsPinned(d.pinned, old(d.tree), d.tree)
    ensures (old(d.faulted) ==> d.faulted) && (tally.errors == 0 && Agreeable(s) && now.errors > 0 ==> d.faulted)
    ensures OnCourse(s, d, now.errors == 0) && CountedOnce(tally, now, now.errors == tally.errors)
    ensures now.errors == 0 && Agreeable(s) && existing == (s.es[i].rel in s.dst && s.dst[s.es[i].rel].node.File?) &&
            !Unchanged(s, s.es[i].rel) ==>
              CountedAs(s, i, tally, now)
    ensures now.errors == 0 && Agreeable(s) ==> d.written.Keys == old(d.written).Keys + {s.es[i].rel}
  {
    var e := s.es[i];
    ghost var t, w, exact := d.tree, d.written, !d.silent;
    assert Fitting(s.src, s.es, i);
    if tally.errors == 0 && Agreeable(s) {
      EntryReady(s, t, w, exact, i);
    }
    var done, file := WriteAtomic(d, e, bytes, s.o);
    if !d.escaped {
      PlacingLeavesAlone(s, t, d.tree, e.rel);
    }
    now := if done then tally.Count(existing).(bytes := tally.bytes + |bytes|) else tally.Fail();
    if now.errors == 0 && Agreeable(s) {
      d.written := w[e.rel := file];
      PlacedOnTrack(s, t, d.tree, w, exact, !d.silent, e.rel, file);
    }
  }

  // ---------- the session ----------

  /** `check_relative` refuses the path. */
  predicate Escapes(p: Path) {
    ".." in p
  }

  ghost predicate IsFileAt(t: Tree, p: Path) {
    p in t && t[p].node.File?
  }

  /** A listed file is asked for unless it was refused or left alone, by delta if that can be and is wanted. */
  ghost predicate AskedRightly(s: Session, i: nat, before: seq<Request>, after: seq<Request>)
    requires i < |s.es|
  {
    var p := s.es[i].rel;
    if s.es[i].kind.KindFile? && !(".." in p) && !(!s.o.checksum && SameLengthAndTime(s, p))
    then Asks(before, after, p, !s.o.wholeFile && IsFileAt(s.dst, p))
    else after == before
  }

  /** One listed entry: refused, left alone, or brought over. */
  method BringEntry(s: Session, d: Destination, conn: Conversation, i: nat, tally: Stats) returns (ok: bool, now: Stats)
    requires s.Valid() && i < |s.es| && OnCourse(s, d, tally.errors == 0)
    requires tally.errors == 0 && Agreeable(s) ==> DoneBefore(s, d.written, i) && s.es[i].rel !in d.written
    requires conn.Recorded(s)
    modifies d, conn`asked, conn`answered, conn`faulted
    ensures ok ==> AskedRightly(s, i, old(conn.asked), conn.asked)
    ensures !ok ==> conn.asked == old(conn.asked)
    ensures ".." in s.es[i].rel ==> ok && now == tally.Fail() && d.tree == old(d.tree)
    ensures Harmless(s, d)
    ensures Resting(s, i) ==> conn.asked == old(conn.asked)
    ensures LeftAlone(s, i) ==> ok && CountedAs(s, i, tally, now)
    ensures KeepsPinned(d.pinned, old(d.tree), d.tree)
    ensures conn.Recorded(s)
    ensures |conn.asked| <= |old(conn.asked)| + 1 && (old(d.faulted) ==> d.faulted)
    ensures (old(conn.faulted) ==> conn.faulted) && (conn.faulted && !old(conn.faulted) ==> conn.lossy)
    ensures !ok ==> conn.faulted
    ensures tally.errors == 0 && Agreeable(s) && PoliteAt(s, i) && now.errors > 0 ==> d.faulted || conn.faulted
    ensures ok ==> OnCourse(s, d, now.errors == 0) && CountedOnce(tally, now, now.errors == tally.errors)
    ensures ok && now.errors == 0 && Agreeable(s) ==> CountedAs(s, i, tally, now)
    ensures ok && now.errors == 0 && Agreeable(s) ==>
              old(d.written).Keys <= d.written.Keys <= old(d.written).Keys + {s.es[i].rel} &&
              (s.es[i].rel in d.written || Unchanged(s, s.es[i].rel))
  {
    var e := s.es[i];
    ok, now := true, tally;
    if Escapes(e.rel) {
      now := tally.Fail();
      return;
    }
    match e.kind
    case KindDir => now := BringDir(s, d, i, tally);
    case KindSymlink(_) => now := BringLink(s, d, i, tally);
    case KindFile =>
      if Unchanged(s, e.rel) {
        now := tally.(skipped := tally.skipped + 1);
      } else {
        ok, now := BringFile(s, d, conn, i, tally);
      }
  }

  /** Exactly the first `i` entries have been dealt with. */
  ghost predicate Upto(s: Session, written: map<Path, Obj>, i: nat)
    requires i <= |s.es|
  {
    DoneBefore(s, written, i) && forall p {:trigger NamedBefore(s, i, p)} :: p in written ==> NamedBefore(s, i, p)
  }

  ghost predicate NamedBefore(s: Session, i: nat, p: Path)
    requires i <= |s.es|
  {
    exists k :: 0 <= k < i && s.es[k].rel == p
  }

  lemma {:induction false} NotYetWritten(s: Session, written: map<Path, Obj>, i: nat)
    requires s.Valid() && i < |s.es| && Upto(s, written, i)
    ensures s.es[i].rel !in written
  {
    forall k | 0 <= k < i
      ensures s.es[k].rel != s.es[i].rel
    {
      assert NotAbove(s.es, k, i);
    }
    assert !NamedBefore(s, i, s.es[i].rel);
  }

  lemma {:induction false} OneMore(s: Session, w: map<Path, Obj>, w': map<Path, Obj>, i: nat)
    requires i < |s.es| && Upto(s, w, i) && w.Keys <= w'.Keys <= w.Keys + {s.es[i].rel}
    requires s.es[i].rel in w' || Unchanged(s, s.es[i].rel)
    ensures Upto(s, w', i + 1)
  {
    forall k: nat | k < i + 1
      ensures DoneAt(s, w', k)
    {
      if k < i {
        assert DoneAt(s, w, k);
        assert s.es[k].rel in w ==> s.es[k].rel in w.Keys;
      }
    }
    forall p | p in w'
      ensures NamedBefore(s, i + 1, p)
    {
      if p != s.es[i].rel {
        assert p in w.Keys;
        assert NamedBefore(s, i, p);
      }
    }
  }

  /** `n` entries have been counted and nothing else. */
  predicate CountsOnly(s: Session, tally: Stats, n: nat)
    requires n <= |s.es|
  {
    tally.copied + tally.updated + tally.skipped + tally.errors == n && tally.deleted == 0
  }

  /** Where the session stands after `i` entries. */
  ghost predicate Standing(s: Session, d: Destination, tally: Stats, i: nat)
    requires i <= |s.es|
    reads d`tree, d`escaped, d`written, d`silent, d`faulted, d`cancelled
  {
    && OnCourse(s, d, tally.errors == 0) && CountsOnly(s, tally, i)
    && (tally.errors == 0 && Agreeable(s) ==> Upto(s, d.written, i) && Tallied(s, tally, i))
  }

  /** An error has a failed call behind it, or an entry or a pair of trees the session does not answer for. */
  ghost predicate Blamed(s: Session, d: Destination, conn: Conversation, tally: Stats)
    reads d`faulted, conn`faulted
  {
    (Agreeable(s) && Polite(s) && tally.errors > 0 ==> d.faulted || conn.faulted) && (conn.faulted ==> conn.lossy)
  }

  /** What there was to ask for: nothing if every listed file is unchanged. */
  ghost predicate AtRest(s: Session) {
    forall i {:trigger Resting(s, i)} :: 0 <= i < |s.es| ==> Resting(s, i)
  }

  predicate Resting(s: Session, i: nat)
    requires i < |s.es|
  {
    s.es[i].kind.KindFile? ==> Unchanged(s, s.es[i].rel)
  }

  /** A request that was due: for a listed file that differs, by delta exactly if it can be and is wanted. */
  ghost predicate RequestFits(s: Session, q: Request) {
    && IsFileAt(s.src, q.rel) && !(!s.o.checksum && SameLengthAndTime(s, q.rel))
    && (q.WantDelta? <==> !s.o.wholeFile && IsFileAt(s.dst, q.rel))
  }

  ghost predicate AskedFor(s: Session, asked: seq<Request>, k: nat)
    requires k < |s.es|
  {
    var p := s.es[k].rel;
    s.es[k].kind.KindFile? && !(".." in p) && !(!s.o.checksum && SameLengthAndTime(s, p)) ==>
      exists q :: q in asked && q.rel == p
  }

  /** What has been asked for by the first `i` entries: every file that was due, and nothing else. */
  ghost predicate Requested(s: Session, asked: seq<Request>, i: nat)
    requires i <= |s.es|
  {
    && (forall q {:trigger RequestFits(s, q)} :: q in asked ==> RequestFits(s, q))
    && (forall k {:trigger AskedFor(s, asked, k)} :: 0 <= k < i ==> AskedFor(s, asked, k))
  }

  lemma {:induction false} OneMoreRequested(s: Session, before: seq<Request>, after: seq<Request>, i: nat)
    requires s.Valid() && i < |s.es| && Requested(s, before, i) && AskedRightly(s, i, before, after)
    ensures Requested(s, after, i + 1)
  {
    assert Fitting(s.src, s.es, i);
    assert |after| > |before| ==> after[|before|] in after;
    forall q | q in after
      ensures RequestFits(s, q)
    {
      if q in before {
        assert RequestFits(s, q);
      } else {
        assert q == after[|before|];
      }
    }
    forall k: nat | k < i + 1
      ensures AskedFor(s, after, k)
    {
      if k < i {
        assert AskedFor(s, before, k);
        assert forall q :: q in before ==> q in after;
      }
    }
  }

  method BringNext(s: Session, d: Destination, conn: Conversation, i: nat, tally: Stats, ghost calm: bool,
                   ghost rest: bool)
    returns (ok: bool, now: Stats)
    requires s.Valid() && i < |s.es| && Standing(s, d, tally, i) && Blamed(s, d, conn, tally)
    requires conn.Recorded(s) && Requested(s, conn.asked, i)
    requires (calm ==> LeftAlone(s, i)) && (rest ==> Resting(s, i))
    modifies d, conn`asked, conn`answered, conn`faulted
    ensures Harmless(s, d)
    ensures calm ==> now.errors == tally.errors
    ensures rest ==> conn.asked == old(conn.asked)
    ensures KeepsPinned(d.pinned, old(d.tree), d.tree)
    ensures conn.Recorded(s)
    ensures |conn.asked| <= |old(conn.asked)| + 1
    ensures !ok ==> conn.faulted
    ensures Blamed(s, d, conn, now)
    ensures ok ==> Standing(s, d, now, i + 1) && Requested(s, conn.asked, i + 1)
  {
    ghost var w, asked := d.written, conn.asked;
    if tally.errors == 0 && Agreeable(s) {
      NotYetWritten(s, w, i);
    }
    assert Polite(s) ==> PoliteAt(s, i);
    ok, now := BringEntry(s, d, conn, i, tally);
    if ok {
      OneMoreRequested(s, asked, conn.asked, i);
    }
    if ok && now.errors == 0 && Agreeable(s) {
      OneMore(s, w, d.written, i);
      OneMoreTallied(s, tally, now, i);
    }
  }

  /** Every entry in order, from `from` on; cancellation or a lost connection ends the session with an error. */
  method BringFrom(s: Session, d: Destination, conn: Conversation, from: nat, before: Stats)
    returns (ok: bool, tally: Stats)
    requires s.Valid() && from <= |s.es| && Standing(s, d, before, from) && Blamed(s, d, conn, before)
    requires conn.Recorded(s) && Requested(s, conn.asked, from)
    modifies d, conn`asked, conn`answered, conn`faulted
    ensures Harmless(s, d)
    ensures ok && AllLeftAlone(s) ==> tally.errors == before.errors
    ensures AtRest(s) ==> conn.asked == old(conn.asked)
    ensures KeepsPinned(d.pinned, old(d.tree), d.tree)
    ensures conn.Recorded(s)
    ensures |conn.asked| <= |old(conn.asked)| + |s.es| - from
    ensures !ok ==> d.cancelled || conn.faulted
    ensures Blamed(s, d, conn, tally)
    ensures ok ==> Standing(s, d, tally, |s.es|) && Requested(s, conn.asked, |s.es|)
  {
    ghost var asked, t, calm, rest := conn.asked, d.tree, AllLeftAlone(s), AtRest(s);
    tally := before;
    var i := from;
    while i < |s.es|
      invariant from <= i <= |s.es| && Standing(s, d, tally, i) && Blamed(s, d, conn, tally)
      invariant |conn.asked| <= |asked| + i - from && conn.Recorded(s) && Requested(s, conn.asked, i)
      invariant rest ==> conn.asked == asked
      invariant KeepsPinned(d.pinned, t, d.tree)
      invariant calm ==> tally.errors == before.errors
    {
      var go := d.Checkpoint();
      if !go {
        return false, tally;
      }
      ok, tally := BringNext(s, d, conn, i, tally, calm, rest);
      if !ok {
        return;
      }
      i := i + 1;
    }
    ok := true;
  }

  lemma {:induction false} NothingRequested(s: Session, asked: seq<Request>, i: nat)
    requires asked == [] && i == 0
    ensures Requested(s, asked, i)
  {
  }

  lemma {:induction false} NothingDone(s: Session, written: map<Path, Obj>, i: nat)
    requires written == map[] && i == 0
    ensures Upto(s, written, i)
  {
  }

  /** Nothing has been counted before the first entry. */
  method NoTally(s: Session) returns (from: nat, tally: Stats)
    ensures from == 0 && CountsOnly(s, tally, from) && Tallied(s, tally, from)
  {
    from, tally := 0, NO_STATS;
  }

  /** Where the loop starts. */
  method Begin(s: Session, d: Destination) returns (from: nat, tally: Stats)
    requires OnCourse(s, d, true) && d.written == map[]
    ensures from <= |s.es| && Standing(s, d, tally, from) && tally.errors == 0 && Requested(s, [], from)
  {
    from, tally := NoTally(s);
    NothingRequested(s, [], from);
    NothingDone(s, d.written, from);
  }

  method BringAll(s: Session, d: Destination, conn: Conversation) returns (ok: bool, tally: Stats)
    requires s.Valid() && OnCourse(s, d, true) && d.written == map[]
    requires !d.faulted && !conn.faulted
    requires conn.Recorded(s) && conn.asked == []
    modifies d, conn`asked, conn`answered, conn`faulted
    ensures Harmless(s, d)
    ensures ok && AllLeftAlone(s) ==> tally.errors == 0
    ensures AtRest(s) ==> conn.asked == old(conn.asked)
    ensures KeepsPinned(d.pinned, old(d.tree), d.tree)
    ensures conn.Recorded(s)
    ensures |conn.asked| <= |old(conn.asked)| + |s.es|
    ensures !ok ==> d.cancelled || conn.faulted
    ensures Blamed(s, d, conn, tally)
    ensures ok ==> Standing(s, d, tally, |s.es|) && Requested(s, conn.asked, |s.es|)
  {
    var from, before := Begin(s, d);
    ok, tally := BringFrom(s, d, conn, from, before);
  }

  // ---------- deletions ----------

  lemma {:induction false} VictimIsOpen(s: Session, t: Tree, written: map<Path, Obj>, exact: bool, p: Path)
    requires s.Valid() && Agreeable(s) && OnTrack(s, t, written, exact) && p in s.dst
    ensures |p| > 0 && !BehindLink(t, p)
  {
    assert Ready(s.dst, p);
    forall k | 0 < k < |p|
      ensures !(p[..k] in t && t[p[..k]].node.Symlink?)
    {
      var q := p[..k];
      AncestorIsDir(s.dst, q, p);
      assert Accounted(false, s.src, s.dst, t, written, q) && Brought(s, written, exact, q);
      if q in s.src {
        assert AgreeAt(s, q);
      }
    }
  }

  /**
   The delete loop. A removal that fails is not counted as an error: what the tally shows of it is a
   smaller number of deletions. No listed path is touched, whatever fails, and what is pinned stays.
   */
  method DeleteStrays(s: Session, d: Destination, dels: seq<Planning.Deletion>, tally: Stats)
    returns (ok: bool, now: Stats)
    requires s.Valid() && OnCourse(s, d, tally.errors == 0)
    requires forall k :: 0 <= k < |dels| ==> IsVictim(s, dels[k])
    requires s.o.delete
    modifies d
    ensures KeepsPinned(d.pinned, old(d.tree), d.tree)
    ensures (old(d.faulted) ==> d.faulted) && (!ok ==> d.cancelled)
    ensures OnCourse(s, d, tally.errors == 0)
    ensures d.written == old(d.written) && (old(d.silent) <==> d.silent)
    ensures now == tally.(deleted := now.deleted) && now.deleted <= tally.deleted + |dels|
    ensures ok && tally.errors == 0 && Agreeable(s) && (!d.faulted || now.deleted == tally.deleted + |dels|) ==>
              forall k :: 0 <= k < |dels| ==> dels[k].rel !in d.tree
  {
    now := tally;
    ghost var t, all := d.tree, true;
    var i := 0;
    while i < |dels|
      invariant i <= |dels| && OnCourse(s, d, tally.errors == 0)
      invariant KeepsPinned(d.pinned, t, d.tree)
      invariant d.written == old(d.written) && (old(d.silent) <==> d.silent)
      invariant old(d.faulted) ==> d.faulted
      invariant now == tally.(deleted := now.deleted) && now.deleted <= tally.deleted + i
      invariant tally.errors == 0 && Agreeable(s) && (!d.faulted || now.deleted == tally.deleted + i) ==> all
      invariant tally.errors == 0 && Agreeable(s) && all ==> forall k :: 0 <= k < i ==> dels[k].rel !in d.tree
    {
      var go := d.Checkpoint();
      if !go {
        return false, now;
      }
      var removed := DeleteStray(s, d, dels[i], tally.errors == 0);
      if removed {
        now := now.(deleted := now.deleted + 1);
      }
      all := all && dels[i].rel !in d.tree;
      i := i + 1;
    }
    ok := true;
  }

  ghost predicate IsVictim(s: Session, del: Planning.Deletion) {
    del.rel in s.dst && del.rel !in s.src && (del.isDir <==> DirAt(s.dst, del.rel))
  }

  method DeleteStray(s: Session, d: Destination, del: Planning.Deletion, ghost clean: bool) returns (removed: bool)
    requires s.Valid() && OnCourse(s, d, clean) && IsVictim(s, del)
    requires s.o.delete
    modifies d`tree, d`escaped, d`faulted
    ensures KeepsPinned(d.pinned, old(d.tree), d.tree)
    ensures (old(d.faulted) ==> d.faulted) && OnCourse(s, d, clean)
    ensures clean && Agreeable(s) ==> forall q :: q in d.tree ==> q in old(d.tree)
    ensures clean && Agreeable(s) && (removed || !d.faulted) ==> del.rel !in d.tree
  {
    ghost var t := d.tree;
    assert Ready(s.dst, del.rel);
    if clean && Agreeable(s) {
      VictimIsOpen(s, t, d.written, !d.silent, del.rel);
      assert Accounted(false, s.src, s.dst, t, d.written, del.rel);
    }
    removed := RemoveVictim(d, del.rel, del.isDir);
    if !d.escaped {
      SweepingLeavesAlone(s, t, d.tree, del.rel);
    }
    if clean && Agreeable(s) && del.rel in t {
      RemoveProgress(false, s.src, s.dst, t, d.tree, d.written, del.rel);
    }
  }

  // ---------- what a session without errors leaves ----------

  /**
   Every listed path is there with its kind, its target and its bytes, or was left alone as unchanged.
   Where no attribute call failed, what was brought over has the mode and time asked for, save that
   directory times move as their contents arrive.
   */
  ghost predicate Received(s: Session, t: Tree, exact: bool) {
    forall p :: p in s.src ==> ReceivedAt(s, t, exact, p)
  }

  ghost predicate ReceivedAt(s: Session, t: Tree, exact: bool, p: Path)
    requires p in s.src
  {
    p in t && SameKind(t[p].node, s.src[p].node) &&
    var n := t[p].node;
    match s.src[p].node
    case Dir(mode, _) => s.o.preserveMode && exact ==> n.mode == Strip(mode)
    case Symlink(target, mtime) => n.target == target && (s.o.preserveMtime && exact ==> n.mtime == mtime)
    case File(content, mode, mtime) =>
      || (!s.o.checksum && SameLengthAndTime(s, p) && t[p] == s.dst[p])
      || (&& n.content == content
          && (s.o.preserveMode && exact ==> n.mode == Strip(mode)) && (s.o.preserveMtime && exact ==> n.mtime == mtime))
  }

  lemma {:induction false} DoneMeansReceived(s: Session, t: Tree, written: map<Path, Obj>, exact: bool)
    requires s.Valid() && OnTrack(s, t, written, exact) && DoneBefore(s, written, |s.es|)
    ensures Received(s, t, exact)
  {
    forall p | p in s.src
      ensures ReceivedAt(s, t, exact, p)
    {
      assert Names(s.es, p);
      var k :| 0 <= k < |s.es| && s.es[k].rel == p;
      assert DoneAt(s, written, k);
      assert Accounted(false, s.src, s.dst, t, written, p) && Brought(s, written, exact, p);
    }
  }

  /** The skip rule never leaves a stale file: equal length and time mean equal bytes. */
  ghost predicate SkipsTrusted(s: Session) {
    forall p :: SameLengthAndTime(s, p) ==> s.src[p].node.content == s.dst[p].node.content
  }

  /** With skips trusted, or with checksums asked for, every file holds the source's bytes. */
  lemma {:induction false} ReceivedMeansEqual(s: Session, t: Tree, exact: bool, p: Path)
    requires Received(s, t, exact) && (SkipsTrusted(s) || s.o.checksum) && p in s.src && s.src[p].node.File?
    ensures p in t && t[p].node.File? && t[p].node.content == s.src[p].node.content
  {
    assert ReceivedAt(s, t, exact, p);
  }

  /** Apart from what was listed only strays of the old destination can be there. */
  lemma {:induction false} OnlyStraysBeside(s: Session, t: Tree, written: map<Path, Obj>, exact: bool)
    requires s.Valid() && OnTrack(s, t, written, exact) && Received(s, t, exact)
    ensures s.src.Keys <= t.Keys <= s.src.Keys + s.dst.Keys
  {
    forall p
      ensures p in s.src ==> p in t
      ensures p in t ==> p in s.src || p in s.dst
    {
      if p in s.src {
        assert ReceivedAt(s, t, exact, p);
      }
      assert Accounted(false, s.src, s.dst, t, written, p) && Brought(s, written, exact, p);
    }
  }

  /** Once times have been kept, a session over the same list has nothing to ask for. */
  lemma {:induction false} AtRestAfterwards(s: Session, again: Session, t: Tree)
    requires Listing(s.src, s.es) && Received(s, t, true) && s.o.preserveMtime
    requires again.src == s.src && again.es == s.es && again.dst == t && !again.o.checksum
    ensures AtRest(again)
  {
    forall i | 0 <= i < |again.es|
      ensures Resting(again, i)
    {
      assert Fitting(s.src, s.es, i) && ReceivedAt(s, t, true, s.es[i].rel);
    }
  }

  lemma {:induction false} NothingElseLeft(s: Session, t: Tree, walk: seq<Entry>)
    requires s.src.Keys <= t.Keys <= s.src.Keys + s.dst.Keys && IsWalk(s.dst, walk)
    requires forall k :: 0 <= k < |Strays(s, walk)| ==> Strays(s, walk)[k].rel !in t
    ensures t.Keys == s.src.Keys
  {
    var dels := Strays(s, walk);
    forall p | p in t
      ensures p in s.src
    {
      if p !in s.src {
        Planning.StrayIsExtra(s.src, s.dst, walk, p);
      }
    }
  }

  /** What the destination has and the source has not. */
  function Strays(s: Session, walk: seq<Entry>): seq<Planning.Deletion> {
    Planning.Extras(s.src, walk, |walk|)
  }

  /** The destination has something the source lacks and the system will not unlink. */
  ghost predicate PinnedStray(s: Session, pinned: set<Path>) {
    exists p :: p in pinned && p in s.dst && p !in s.src
  }

  /**
   What a finished session without errors leaves: the list, and beside it at most strays; none of them
   if there were none, or if deletions were asked for and all are in the tally or nothing failed.
   */
  ghost predicate Mirrored(s: Session, d: Destination, tally: Stats, strays: nat)
    reads d`tree, d`escaped, d`silent, d`faulted
  {
    && !d.escaped && Received(s, d.tree, !d.silent) && (!d.faulted ==> !d.silent) && LeavesAlone(s, d.tree)
    && s.src.Keys <= d.tree.Keys <= s.src.Keys + s.dst.Keys
    && (s.o.delete && (!d.faulted || tally.deleted == strays) ==> d.tree.Keys == s.src.Keys)
  }

  /** Where deletion was not asked for, what the list lacks stays, unless it is below a listed file or link. */
  lemma {:induction false} UnlistedStay(s: Session, t: Tree, p: Path)
    requires LeavesAlone(s, t) && !s.o.delete && p in s.dst && p !in s.src
    requires forall k :: 0 < k < |p| && p[..k] in s.src ==> s.src[p[..k]].node.Dir?
    ensures p in t && Alike(t[p], s.dst[p])
  {
    assert StaysAt(s, t, p);
  }

  /**
   `run_receiver`. Every listed entry ends in exactly one count, however the session goes; the tally
   returned is the one reported to the sender; no more requests are made than entries listed. What
   fails in the delete loop is never an error: `early` says that something failed before it.
   */
  method RunReceiver(s: Session, d: Destination, conn: Conversation, inbox: seq<Msg>, walk: seq<Entry>)
    returns (ok: bool, tally: Stats, ghost early: bool)
    requires s.Valid() && EntriesOf(inbox) == Some(s.es) && d.tree == s.dst && IsWalk(s.dst, walk)
    requires Unused(d)
    requires conn.asked == [] && conn.answered == [] && conn.finished == None && !conn.faulted
    modifies d, conn
    ensures AtRest(s) ==> conn.asked == []
    ensures ok && AllLeftAlone(s) ==> tally.errors == 0
    ensures |conn.asked| <= |s.es| && conn.Recorded(s)
    ensures Harmless(s, d) && (ok ==> Requested(s, conn.asked, |s.es|))
    ensures (!ok ==> d.cancelled || conn.faulted) && (conn.faulted ==> conn.lossy)
    ensures early ==> d.faulted
    ensures ok && Agreeable(s) && Polite(s) && !early && !conn.faulted ==> tally.errors == 0
    ensures conn.finished == if ok then Some(tally) else None
    ensures ok ==> tally.Handled() == |s.es| && tally.deleted <= if s.o.delete then |Strays(s, walk)| else 0
    ensures KeepsPinned(d.pinned, s.dst, d.tree) && (PinnedStray(s, d.pinned) ==> d.tree.Keys != s.src.Keys)
    ensures ok && tally.errors == 0 && Agreeable(s) ==> Mirrored(s, d, tally, |Strays(s, walk)|)
    ensures ok && tally.errors == 0 && Agreeable(s) ==> Tallied(s, tally, |s.es|)
  {
    var list := CollectList(inbox);
    assert conn.Recorded(s);
    StartsOnTrack(s, !d.silent);
    ok, tally := BringAll(s, d, conn);
    early := d.faulted;
    if !ok {
      return;
    }
    ok, tally := DeleteIfAsked(s, d, walk, tally);
    if !ok {
      return;
    }
    if tally.errors == 0 && Agreeable(s) {
      EndsMirrored(s, d, tally, walk);
    }
    conn.finished := Some(tally);
  }

  /** The delete phase: nothing at all unless deletion was asked for. */
  method DeleteIfAsked(s: Session, d: Destination, walk: seq<Entry>, tally: Stats) returns (ok: bool, now: Stats)
    requires s.Valid() && OnCourse(s, d, tally.errors == 0) && IsWalk(s.dst, walk)
    modifies d
    ensures KeepsPinned(d.pinned, old(d.tree), d.tree)
    ensures (old(d.faulted) ==> d.faulted) && (!ok ==> d.cancelled)
    ensures OnCourse(s, d, tally.errors == 0)
    ensures d.written == old(d.written) && (old(d.silent) <==> d.silent)
    ensures now == tally.(deleted := now.deleted)
    ensures now.deleted <= tally.deleted + if s.o.delete then |Strays(s, walk)| else 0
    ensures !s.o.delete ==> d.tree == old(d.tree) && now == tally
    ensures ok && tally.errors == 0 && Agreeable(s) && s.o.delete
            && (!d.faulted || now.deleted == tally.deleted + |Strays(s, walk)|) ==>
              forall k :: 0 <= k < |Strays(s, walk)| ==> Strays(s, walk)[k].rel !in d.tree
  {
    ok, now := true, tally;
    if s.o.delete {
      var dels := Planning.CollectDeletions(s.src, walk);
      StraysOnly(s, walk);
      ok, now := DeleteStrays(s, d, dels, tally);
    }
  }

  lemma {:induction false} EndsMirrored(s: Session, d: Destination, tally: Stats, walk: seq<Entry>)
    requires s.Valid() && OnCourse(s, d, true) && Agreeable(s) && Upto(s, d.written, |s.es|) && IsWalk(s.dst, walk)
    requires s.o.delete && (!d.faulted || tally.deleted == |Strays(s, walk)|) ==>
               forall k :: 0 <= k < |Strays(s, walk)| ==> Strays(s, walk)[k].rel !in d.tree
    ensures Mirrored(s, d, tally, |Strays(s, walk)|)
  {
    DoneMeansReceived(s, d.tree, d.written, !d.silent);
    OnlyStraysBeside(s, d.tree, d.written, !d.silent);
    if s.o.delete && (!d.faulted || tally.deleted == |Strays(s, walk)|) {
      var dels := Strays(s, walk);
      assert forall k :: 0 <= k < |dels| ==> Strays(s, walk)[k].rel !in d.tree;
      NothingElseLeft(s, d.tree, walk);
    }
  }

  lemma {:induction false} StraysOnly(s: Session, walk: seq<Entry>)
    requires IsWalk(s.dst, walk)
    ensures var dels := Planning.Extras(s.src, walk, |walk|);
            forall k :: 0 <= k < |dels| ==> IsVictim(s, dels[k])
  {
    var dels := Planning.Extras(s.src, walk, |walk|);
    forall k | 0 <= k < |dels|
      ensures IsVictim(s, dels[k])
    {
      Planning.ExtraIsStray(s.src, s.dst, walk, dels[k]);
    }
  }

  lemma {:induction false} StartsOnTrack(s: Session, exact: bool)
    requires s.Valid()
    ensures OnTrack(s, s.dst, map[], exact)
  {
    var none: map<Path, Obj> := map[];
    assert forall p :: Accounted(false, s.src, s.dst, s.dst, none, p);
    assert forall p :: Brought(s, none, exact, p);
  }

  // ---------- both ends ----------

  /** One walked entry as it goes over the wire. */
  function Wired(e: Entry): NetEntry {
    NetEntry(e.rel, e.kind, e.len, e.mtime, e.mode)
  }

  function WiredAll(walk: seq<Entry>): seq<NetEntry> {
    seq(|walk|, i requires 0 <= i < |walk| => Wired(walk[i]))
  }

  /** The first loop of `run_sender`. */
  method StreamList(walk: seq<Entry>) returns (ms: seq<Msg>)
    ensures ms == ListMessages(WiredAll(walk))
  {
    ms := [];
    for i := 0 to |walk|
      invariant ms == ListMsgs(WiredAll(walk)[..i])
    {
      ms := ms + [Listed(Wired(walk[i]))];
    }
    ms := ms + [ListDone];
    assert WiredAll(walk)[..|walk|] == WiredAll(walk);
  }

  lemma {:induction false} WalkIsListing(t: Tree, walk: seq<Entry>)
    requires IsWalk(t, walk)
    ensures Listing(t, WiredAll(walk))
  {
    var es := WiredAll(walk);
    forall p | p in t
      ensures Names(es, p)
    {
      assert Lists(walk, p);
      var i :| 0 <= i < |walk| && walk[i].rel == p;
      assert es[i].rel == p;
    }
    forall i | 0 <= i < |es|
      ensures Fitting(t, es, i)
    {
      assert walk[i] == EntryOf(walk[i].rel, t[walk[i].rel]);
    }
  }

  /** A whole session over a connection that delivers what was sent. */
  method Transfer(s: Session, srcWalk: seq<Entry>, dstWalk: seq<Entry>, d: Destination, lossy: bool)
    returns (ok: bool, tally: Stats, ghost early: bool, conn: Conversation)
    requires Closed(s.src) && Closed(s.dst) && forall n :: MIN_BLOCK <= s.blockSize(n) <= MAX_BLOCK
    requires IsWalk(s.src, srcWalk) && s.es == WiredAll(srcWalk)
    requires d.tree == s.dst && IsWalk(s.dst, dstWalk) && Unused(d)
    modifies d
    ensures AtRest(s) ==> conn.asked == []
    ensures ok && AllLeftAlone(s) ==> tally.errors == 0
    ensures fresh(conn) && conn.lossy == lossy && conn.Recorded(s) && |conn.asked| <= |srcWalk|
    ensures conn.finished == if ok then Some(tally) else None
    ensures Harmless(s, d) && (ok ==> Requested(s, conn.asked, |s.es|))
    ensures (!ok ==> d.cancelled || conn.faulted) && (conn.faulted ==> conn.lossy)
    ensures early ==> d.faulted
    ensures ok && Agreeable(s) && Polite(s) && !early && !conn.faulted ==> tally.errors == 0
    ensures ok ==> tally.Handled() == |srcWalk| && tally.deleted <= if s.o.delete then |Strays(s, dstWalk)| else 0
    ensures KeepsPinned(d.pinned, s.dst, d.tree) && (PinnedStray(s, d.pinned) ==> d.tree.Keys != s.src.Keys)
    ensures ok && tally.errors == 0 && Agreeable(s) ==> Mirrored(s, d, tally, |Strays(s, dstWalk)|)
    ensures ok && tally.errors == 0 && Agreeable(s) ==> Tallied(s, tally, |s.es|)
  {
    WalkIsListing(s.src, srcWalk);
    var inbox := StreamList(srcWalk);
    ListRoundTrip(s.es, []);
    assert inbox + [] == inbox;
    conn := new Conversation(lossy);
    ok, tally, early := RunReceiver(s, d, conn, inbox, dstWalk);
  }
}
