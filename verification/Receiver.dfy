/**
 The receiving end's own file operations and the fetch of one file's bytes, which meets the sending
 end's answer to one request.
 */
module Receiver {
  import opened Bytes
  import opened Trees
  import opened Steps
  import opened Jobs
  import opened Destination
  import opened Net
  import opened Report
  import Engine = DeltaEngine
  import Proofs = DeltaProofs

  const MIN_BLOCK := 700
  const MAX_BLOCK := 131072

  type Hasher = Buffer -> Buffer

  /** Both trees as the session finds them, the list that was sent, and what the engines compute. */
  datatype Session = Session(
    src: Tree, dst: Tree, es: seq<NetEntry>, o: NetOptions,
    h: Hasher, blockSize: nat -> nat, pack: Buffer -> Option<Buffer>, unpack: Buffer -> Option<Buffer>)
  {
    ghost predicate Valid() {
      && Closed(src) && Closed(dst) && Listing(src, es)
      && forall n :: MIN_BLOCK <= blockSize(n) <= MAX_BLOCK
    }

    /** `Signature::compute` of `base` does not saturate. */
    predicate Signable(base: Buffer) {
      Engine.Fits(base, blockSize(|base|))
    }
  }

  function NetOf(p: Path, o: Obj): NetEntry {
    var e := EntryOf(p, o);
    NetEntry(e.rel, e.kind, e.len, e.mtime, e.mode)
  }

  ghost predicate Names(es: seq<NetEntry>, p: Path) {
    exists i :: 0 <= i < |es| && es[i].rel == p
  }

  ghost predicate Fitting(t: Tree, es: seq<NetEntry>, i: nat)
    requires i < |es|
  {
    es[i].rel in t && es[i] == NetOf(es[i].rel, t[es[i].rel])
  }

  ghost predicate NotAbove(es: seq<NetEntry>, i: nat, j: nat)
    requires i < j < |es|
  {
    !(es[j].rel <= es[i].rel)
  }

  /** `es` lists exactly the nodes of `t`, parents first. */
  ghost predicate Listing(t: Tree, es: seq<NetEntry>) {
    && (forall i {:trigger Fitting(t, es, i)} :: 0 <= i < |es| ==> Fitting(t, es, i))
    && (forall p {:trigger Names(es, p)} :: p in t ==> Names(es, p))
    && (forall i, j {:trigger NotAbove(es, i, j)} :: 0 <= i < j < |es| ==> NotAbove(es, i, j))
  }

  // ---------- the sending end ----------

  /** `whole_data`: packed if that was agreed on and worked. */
  function WholeData(s: Session, raw: Buffer): Data {
    if s.o.compress && s.pack(raw).Some? then Whole(s.pack(raw).value, true) else Whole(raw, false)
  }

  /** What the sending end may say to a request: the file as asked for, or that it cannot be read. */
  ghost predicate Answers(s: Session, q: Request, data: Data) {
    q.rel in s.src && s.src[q.rel].node.File? &&
    (!data.NotFound? ==>
       match q
       case WantWhole(p) => data == WholeData(s, s.src[p].node.content)
       case WantDelta(p, sig) =>
         && data.Patch?
         && (sig.blockSize > 0 && |sig.blocks| <= U32_MAX ==>
               data.delta == Engine.Delta(sig.blockSize, Engine.Greedy(s.h, sig, s.src[p].node.content, 0, 0))))
  }

  /** The answer to one request; the file may have become unreadable since it was listed. */
  method Serve(s: Session, q: Request, conn: Conversation) returns (data: Data)
    requires q.rel in s.src && s.src[q.rel].node.File?
    requires q.WantDelta? ==> q.sig.blockSize > 0 && |q.sig.blocks| <= U32_MAX
    modifies conn`faulted
    ensures (conn.faulted <==> old(conn.faulted) || data.NotFound?) && (data.NotFound? ==> conn.lossy)
    ensures Answers(s, q, data)
    ensures q.WantWhole? && !data.NotFound? ==>
              var raw, packed := s.src[q.rel].node.content, s.pack(s.src[q.rel].node.content);
              data == if s.o.compress && packed.Some? then Whole(packed.value, true) else Whole(raw, false)
    ensures data.NotFound? ||
            data == match q
              case WantWhole(p) => WholeData(s, s.src[p].node.content)
              case WantDelta(p, sig) =>
                Patch(Engine.Delta(sig.blockSize, Engine.Greedy(s.h, sig, s.src[p].node.content, 0, 0)))
  {
    var gone: bool := *;
    if gone && conn.lossy {
      conn.faulted := true;
      return NotFound;
    }
    var bytes := s.src[q.rel].node.content;
    match q
    case WantWhole(_) => data := WholeData(s, bytes);
    case WantDelta(_, sig) =>
      var delta := Engine.EncodeWithSignature(s.h, sig, bytes);
      data := Patch(delta);
  }

  // ---------- the receiving end's conversation ----------

  /** What was said: the requests and their answers in order, and the tally the receiver closed with. */
  class Conversation {
    var asked: seq<Request>
    var answered: seq<Data>
    var finished: Option<Stats>
    const lossy: bool        // the connection can break, and the sending end can fail to read a file
    ghost var faulted: bool  // it did

    constructor (lossy: bool)
      ensures asked == [] && answered == [] && finished == None && !faulted && this.lossy == lossy
    {
      asked, answered, finished, faulted, this.lossy := [], [], None, false, lossy;
    }

    /** Every request has had an answer in kind. */
    ghost predicate Recorded(s: Session)
      reads this`asked, this`answered
    {
      |answered| == |asked| && forall k :: 0 <= k < |asked| ==> Answers(s, asked[k], answered[k])
    }

    method Note(s: Session, q: Request, data: Data)
      requires Recorded(s) && Answers(s, q, data)
      modifies this`asked, this`answered
      ensures Recorded(s) && asked == old(asked) + [q] && answered == old(answered) + [data]
    {
      asked, answered := asked + [q], answered + [data];
    }
  }

  datatype Fetched = Arrived(bytes: Buffer) | Unavailable | Lost

  function Unpack(s: Session, bytes: Buffer, zstd: bool): Fetched {
    if !zstd then Arrived(bytes)
    else match s.unpack(bytes)
      case Some(b) => Arrived(b)
      case None => Unavailable
  }

  ghost predicate ZstdInverts(s: Session) {
    forall b :: s.pack(b).Some? ==> s.unpack(s.pack(b).value) == Some(b)
  }

  /** The delta path brings over exactly the source's bytes. */
  ghost predicate DeltaFaithful(s: Session, base: Buffer, content: Buffer) {
    s.Signable(base) && Proofs.CollisionFree(s.h, base, s.blockSize(|base|), content)
  }

  /** One request was made, for `p`, against the receiver's own copy or for the whole file. */
  ghost predicate Asks(before: seq<Request>, after: seq<Request>, p: Path, byDelta: bool) {
    && |after| == |before| + 1 && after[..|before|] == before
    && after[|before|].rel == p && (after[|before|].WantDelta? <==> byDelta)
  }

  /**
   `fetch_bytes`: one request, one answer. Whatever path was taken, bytes that arrive are the
   source's, unless a strong hash collided.
   */
  method Fetch(s: Session, conn: Conversation, p: Path, base: Buffer, useDelta: bool) returns (r: Fetched)
    requires p in s.src && s.src[p].node.File? && forall n :: MIN_BLOCK <= s.blockSize(n) <= MAX_BLOCK
    requires conn.Recorded(s)
    modifies conn`asked, conn`answered, conn`faulted
    ensures conn.Recorded(s)
    ensures |conn.asked| <= |old(conn.asked)| + 1 && (old(conn.faulted) ==> conn.faulted) && (r.Lost? ==> conn.faulted)
    ensures conn.faulted && !old(conn.faulted) ==> conn.lossy
    ensures if r.Lost? then conn.asked == old(conn.asked) else Asks(old(conn.asked), conn.asked, p, useDelta)
    ensures !r.Arrived? && ZstdInverts(s) && (useDelta ==> DeltaFaithful(s, base, s.src[p].node.content)) ==>
              conn.faulted
    ensures r.Arrived? && ZstdInverts(s) && (useDelta ==> DeltaFaithful(s, base, s.src[p].node.content)) ==>
              r.bytes == s.src[p].node.content
  {
    var broken: bool := *;
    if broken && conn.lossy {
      conn.faulted := true;
      return Lost;
    }
    if useDelta {
      r := FetchDelta(s, conn, p, base);
    } else {
      var data := Serve(s, WantWhole(p), conn);
      conn.Note(s, WantWhole(p), data);
      r := if data.Whole? then Unpack(s, data.bytes, data.zstd) else Unavailable;
    }
  }

  method FetchDelta(s: Session, conn: Conversation, p: Path, base: Buffer) returns (r: Fetched)
    requires p in s.src && s.src[p].node.File? && forall n :: MIN_BLOCK <= s.blockSize(n) <= MAX_BLOCK
    requires conn.Recorded(s)
    modifies conn`asked, conn`answered, conn`faulted
    ensures conn.Recorded(s)
    ensures |conn.asked| <= |old(conn.asked)| + 1 && (old(conn.faulted) ==> conn.faulted) && !r.Lost?
    ensures conn.faulted && !old(conn.faulted) ==> conn.lossy
    ensures Asks(old(conn.asked), conn.asked, p, true)
    ensures r.Unavailable? && DeltaFaithful(s, base, s.src[p].node.content) ==> conn.faulted
    ensures r.Arrived? && DeltaFaithful(s, base, s.src[p].node.content) ==> r.bytes == s.src[p].node.content
  {
    var block := s.blockSize(|base|);
    var sig := Engine.ComputeSignature(s.h, base, block);
    var data := NotFound;
    if s.Signable(base) {
      data := Serve(s, WantDelta(p, sig), conn);
    } else {
      var delta: Engine.Delta := *;  // more blocks than the format can number
      data := Patch(delta);
    }
    conn.Note(s, WantDelta(p, sig), data);
    if data.NotFound? {
      return Unavailable;
    }
    var built := Engine.Apply(base, data.delta);
    if DeltaFaithful(s, base, s.src[p].node.content) {
      Proofs.RoundTrip(s.h, base, block, s.src[p].node.content);
    }
    r := match built case Ok(bytes) => Arrived(bytes) case Err(_) => Unavailable;
  }

  // ---------- the receiving end's file operations ----------

  lemma {:induction false} StillMadeDir(t: Tree, u: Tree, v: Tree, p: Path, o: Obj)
    requires DirAt(u, p) && MadeDir(t, u, p, u[p].node.mode) && o.node.Dir? && v == u[p := o]
    ensures MadeDir(t, v, p, o.node.mode)
  {
  }

  /** `create_dir_all`, then mode and time as far as they can be set. */
  method EnsureDir(d: Destination, e: NetEntry, o: NetOptions) returns (done: bool)
    requires Closed(d.tree)
    modifies d`tree, d`escaped, d`silent, d`faulted
    ensures (old(d.escaped) ==> d.escaped) && (!d.escaped ==> OnlyAt(old(d.tree), d.tree, e.rel))
    ensures KeepsPinned(d.pinned, old(d.tree), d.tree)
    ensures Closed(d.tree) && (old(d.silent) ==> d.silent) && (old(d.faulted) ==> d.faulted)
    ensures (d.silent && !old(d.silent) ==> d.faulted) && (d.faulted && !old(d.faulted) ==> d.CanFail())
    ensures Ready(old(d.tree), e.rel) && (e.rel in old(d.tree) ==> DirAt(old(d.tree), e.rel)) && !done ==> d.faulted
    ensures var t := old(d.tree);
            Ready(t, e.rel) && !(e.rel in t && t[e.rel].node.Symlink?) ==>
              && d.escaped == old(d.escaped)
              && (done ==> DirAt(d.tree, e.rel) && MadeDir(t, d.tree, e.rel, d.tree[e.rel].node.mode)
                           && (o.preserveMode && !d.silent ==> d.tree[e.rel].node.mode == Strip(e.mode))
                           && (o.preserveMtime && !d.silent ==> d.tree[e.rel].node.mtime == e.mtime))
  {
    var p := e.rel;
    ghost var t := d.tree;
    if !Ready(d.tree, p) || (p in d.tree && d.tree[p].node.Symlink?) {
      done := d.Stray();
      return;
    }
    if p !in d.tree {
      done := d.Mkdir(p);
      if !done {
        return;
      }
    } else if !DirAt(d.tree, p) {
      return false;
    }
    ApplyDirMeta(d, e, o, t);
    return true;
  }

  /** `apply_meta` on a directory: failures are ignored. */
  method ApplyDirMeta(d: Destination, e: NetEntry, o: NetOptions, ghost t: Tree)
    requires Closed(d.tree) && DirAt(d.tree, e.rel) && MadeDir(t, d.tree, e.rel, d.tree[e.rel].node.mode)
    modifies d`tree, d`escaped, d`silent, d`faulted
    ensures KeepsPinned(d.pinned, old(d.tree), d.tree)
    ensures Closed(d.tree) && (old(d.silent) ==> d.silent) && (old(d.faulted) ==> d.faulted)
    ensures (d.silent && !old(d.silent) ==> d.faulted) && (d.faulted && !old(d.faulted) ==> d.CanFail())
    ensures d.escaped == old(d.escaped)
    ensures DirAt(d.tree, e.rel) && MadeDir(t, d.tree, e.rel, d.tree[e.rel].node.mode)
    ensures o.preserveMode && !d.silent ==> d.tree[e.rel].node.mode == Strip(e.mode)
    ensures o.preserveMtime && !d.silent ==> d.tree[e.rel].node.mtime == e.mtime
  {
    if o.preserveMode {
      ghost var u := d.tree;
      var ok := d.SetMode(e.rel, e.mode);
      if ok {
        StillMadeDir(t, u, d.tree, e.rel, d.tree[e.rel]);
      } else {
        d.silent := true;
      }
    }
    if o.preserveMtime {
      ghost var u := d.tree;
      d.SetMtime(e.rel, e.mtime);
      if d.tree != u {
        StillMadeDir(t, u, d.tree, e.rel, d.tree[e.rel]);
      }
    }
  }

  /** A `..` component, or an absolute target. */
  predicate Climbs(target: string) {
    (|target| > 0 && target[0] == '/') || exists i :: 0 <= i < |target| - 1 && UpAt(target, i)
  }

  /** A component `..` at `i`. */
  predicate UpAt(target: string, i: nat)
    requires i < |target| - 1
  {
    && target[i] == '.' && target[i + 1] == '.'
    && (i == 0 || target[i - 1] == '/') && (i + 2 == |target| || target[i + 2] == '/')
  }

  /** The components of a target, cut at every slash. */
  function Components(s: string): (r: seq<string>)
    ensures |r| > 0
  {
    if s == [] then [""]
    else if s[0] == '/' then [""] + Components(s[1..])
    else
      var rest := Components(s[1..]);
      [[s[0]] + rest[0]] + rest[1..]
  }

  /** `name` begins at `i` and ends before a slash or at the end. */
  ghost predicate EndsThere(s: string, i: nat, name: string) {
    i + |name| <= |s| && s[i..i + |name|] == name && (i + |name| == |s| || s[i + |name|] == '/')
  }

  lemma {:induction false} FirstComponent(s: string, name: string)
    requires '/' !in name
    ensures Components(s)[0] == name <==> EndsThere(s, 0, name)
  {
    if s != [] && s[0] != '/' {
      var rest := Components(s[1..]);
      if name == [] {
        assert Components(s)[0] != [];
      } else {
        FirstComponent(s[1..], name[1..]);
        assert name == [name[0]] + name[1..];
        assert |name| <= |s| ==> s[..|name|] == [s[0]] + s[1..][..|name| - 1];
      }
    } else if s != [] && |name| > 0 {
      assert name[0] in name;
    }
  }

  ghost predicate LaterAt(s: string, i: nat, name: string) {
    0 < i <= |s| && s[i - 1] == '/' && EndsThere(s, i, name)
  }

  lemma {:induction false} LaterShifts(s: string, i: nat, name: string)
    requires s != []
    ensures LaterAt(s, i + 1, name) <==>
            if i == 0 then s[0] == '/' && EndsThere(s[1..], 0, name) else LaterAt(s[1..], i, name)
  {
    if i <= |s| - 1 && i + 1 + |name| <= |s| {
      assert s[1..][i..i + |name|] == s[i + 1..i + 1 + |name|];
    }
  }

  /** A later component begins after a slash. */
  lemma {:induction false} LaterComponents(s: string, name: string)
    requires '/' !in name
    ensures name in Components(s)[1..] <==> exists i: nat :: LaterAt(s, i, name)
  {
    if s != [] {
      var t := s[1..];
      FirstComponent(t, name);
      LaterComponents(t, name);
      assert Components(t) == [Components(t)[0]] + Components(t)[1..];
      assert Components(s)[1..] == if s[0] == '/' then Components(t) else Components(t)[1..];
      LaterShifts(s, 0, name);
      if i: nat :| LaterAt(t, i, name) {
        LaterShifts(s, i, name);
      }
      if i: nat :| LaterAt(s, i, name) {
        LaterShifts(s, i - 1, name);
      }
    }
  }

  lemma {:induction false} DotsAt(s: string, i: nat)
    ensures EndsThere(s, i, "..") <==>
              && i < |s| - 1 && s[i] == '.' && s[i + 1] == '.' && (i + 2 == |s| || s[i + 2] == '/')
  {
    if i + 2 <= |s| {
      assert s[i..i + 2] == [s[i], s[i + 1]];
      assert ".." == ['.', '.'];
    }
  }

  /** A target climbs if and only if it is absolute or `..` is one of its components. */
  lemma {:induction false} ClimbsByComponents(target: string)
    ensures Climbs(target) <==> "/" <= target || ".." in Components(target)
  {
    FirstComponent(target, "..");
    LaterComponents(target, "..");
    assert Components(target) == [Components(target)[0]] + Components(target)[1..];
    DotsAt(target, 0);
    if EndsThere(target, 0, "..") {
      assert UpAt(target, 0);
    }
    if i: nat :| LaterAt(target, i, "..") {
      DotsAt(target, i);
      assert UpAt(target, i);
    }
    if i: nat :| i < |target| - 1 && UpAt(target, i) {
      DotsAt(target, i);
      assert i > 0 ==> LaterAt(target, i, "..");
    }
  }

  /**
   The link branch: what is in the way goes first, then the target is checked, then the link is made.
   A refused target therefore still costs the destination what it had there.
   */
  method WriteLink(d: Destination, e: NetEntry, target: string, o: NetOptions) returns (done: bool, ghost link: Obj)
    requires Closed(d.tree)
    modifies d`tree, d`escaped, d`silent, d`faulted
    ensures (old(d.escaped) ==> d.escaped) && (!d.escaped ==> Outside(old(d.tree), d.tree, e.rel))
    ensures KeepsPinned(d.pinned, old(d.tree), d.tree)
    ensures Closed(d.tree) && (old(d.silent) ==> d.silent) && (old(d.faulted) ==> d.faulted)
    ensures (d.silent && !old(d.silent) ==> d.faulted) && (d.faulted && !old(d.faulted) ==> d.CanFail())
    ensures Ready(old(d.tree), e.rel) && !Climbs(target) && !done ==> d.faulted
    ensures link.node.Symlink? && link.node.target == target
    ensures o.preserveMtime && !d.silent ==> link.node.mtime == e.mtime
    ensures Climbs(target) && Ready(old(d.tree), e.rel) ==> !done && (e.rel in d.tree ==> d.faulted)
    ensures Ready(old(d.tree), e.rel) ==>
              d.escaped == old(d.escaped) && (done ==> Placed(old(d.tree), d.tree, e.rel, link))
  {
    var p := e.rel;
    ghost var t := d.tree;
    var time: Time := *;
    var ino := d.FreshIno();
    var refused: bool := *;
    if o.preserveMtime {
      if refused && d.fallible {
        d.silent, d.faulted := true, true;
      } else {
        time := e.mtime;
      }
    }
    var made := Obj(ino, Symlink(target, time));
    link := made;
    if !Ready(d.tree, p) {
      done := d.Stray();
      return;
    }
    ClearForLink(d, p);
    ReadyOutside(t, d.tree, p);
    if Climbs(target) || p in d.tree {
      return false, made;
    }
    ghost var u := d.tree;
    done := d.Rename(p, made);  // symlink(2): nothing is there any more
    if done {
      RemovedThenPlaced(t, u, d.tree, p, made);
    }
  }

  method ClearForLink(d: Destination, p: Path)
    requires Closed(d.tree) && |p| > 0
    modifies d`tree, d`faulted
    ensures KeepsPinned(d.pinned, old(d.tree), d.tree)
    ensures Closed(d.tree) && Outside(old(d.tree), d.tree, p) && (old(d.faulted) ==> d.faulted)
    ensures d.faulted && !old(d.faulted) ==> d.CanFail()
    ensures p in d.tree ==> d.faulted
  {
    if DirAt(d.tree, p) {
      var _ := d.RemoveDirAll(p);
    } else if p in d.tree {
      var _ := d.Unlink(p);
    }
  }

  /** `write_atomic`: a finished temporary renamed over what is there, a directory removed first. */
  method WriteAtomic(d: Destination, e: NetEntry, bytes: Buffer, o: NetOptions) returns (done: bool, ghost file: Obj)
    requires Closed(d.tree)
    modifies d`tree, d`escaped, d`silent, d`faulted
    ensures (old(d.escaped) ==> d.escaped) && (!d.escaped ==> Outside(old(d.tree), d.tree, e.rel))
    ensures KeepsPinned(d.pinned, old(d.tree), d.tree)
    ensures Closed(d.tree) && (old(d.silent) ==> d.silent) && (old(d.faulted) ==> d.faulted)
    ensures (d.silent && !old(d.silent) ==> d.faulted) && (d.faulted && !old(d.faulted) ==> d.CanFail())
    ensures Ready(old(d.tree), e.rel) && !done ==> d.faulted
    ensures file.node.File? && file.node.content == bytes
    ensures forall q :: q in old(d.tree) ==> old(d.tree)[q].ino != file.ino
    ensures o.preserveMode && !d.silent ==> file.node.mode == Strip(e.mode)
    ensures o.preserveMtime && !d.silent ==> file.node.mtime == e.mtime
    ensures Ready(old(d.tree), e.rel) ==>
              d.escaped == old(d.escaped) && (done ==> Placed(old(d.tree), d.tree, e.rel, file))
  {
    var mode: Mode, time: Time := *, *;
    var ino := d.FreshIno();
    if o.preserveMode {
      mode := Strip(e.mode);
    }
    if o.preserveMtime {
      time := e.mtime;
    }
    var refused: bool, full: bool := *, *;
    if refused && d.fallible && (o.preserveMode || o.preserveMtime) {
      d.silent, d.faulted, mode, time := true, true, *, *;
    }
    var made := Obj(ino, File(bytes, mode, time));
    file := made;
    if !Ready(d.tree, e.rel) {
      done := d.Stray();
    } else if full && d.fallible {
      done, d.faulted := false, true;
    } else {
      done := d.Replace(e.rel, made, false);
    }
  }

  /** One victim of the delete loop; there is no guard against links here. */
  method RemoveVictim(d: Destination, p: Path, isDir: bool) returns (removed: bool)
    requires Closed(d.tree) && |p| > 0
    modifies d`tree, d`escaped, d`faulted
    ensures (old(d.escaped) ==> d.escaped) && (!d.escaped ==> Outside(old(d.tree), d.tree, p))
    ensures KeepsPinned(d.pinned, old(d.tree), d.tree)
    ensures Closed(d.tree) && (old(d.faulted) ==> d.faulted)
    ensures d.faulted && !old(d.faulted) ==> d.CanFail()
    ensures p in old(d.tree) && (isDir <==> DirAt(old(d.tree), p)) && !removed ==> d.faulted
    ensures p in old(d.tree) ==> d.escaped == old(d.escaped) && Shrunk(old(d.tree), d.tree, p)
    ensures p in old(d.tree) && removed ==> Removed(old(d.tree), d.tree, p)
    ensures p !in old(d.tree) && !BehindLink(old(d.tree), p) ==>
              !removed && d.escaped == old(d.escaped) && d.tree == old(d.tree)
  {
    if p !in d.tree {
      if BehindLink(d.tree, p) {
        removed := d.Stray();
      } else {
        removed := false;
      }
    } else if isDir && DirAt(d.tree, p) {
      removed := d.RemoveDir(p);
      if !removed {
        removed := d.RemoveDirAll(p);
      }
    } else if !DirAt(d.tree, p) && (!isDir || d.tree[p].node.Symlink?) {
      removed := d.Unlink(p);
    } else {
      removed := false;
    }
  }
}
