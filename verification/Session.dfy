/**
 File work and channel protocol together: the exchange a finished transfer has recorded, played over the
 two channels in any interleaving, ends with both peers holding the tally of that very transfer.
 */
module Sessions {
  import opened Bytes
  import opened Trees
  import opened Destination
  import opened Net
  import opened Receiver
  import opened Report
  import opened Remote
  import Protocol

  /** How the two peers meet: who sends, their versions, and the room in their channels. */
  datatype Meeting = Meeting(role: Role, root: string, ours: u32, theirs: u32, room: nat)

  /** The answer on record for request `n`, or none for a request that was never made. */
  function AnswerOnRecord(asked: seq<Request>, answered: seq<Data>, n: nat, q: Request): Data {
    if n < |asked| && n < |answered| && q == asked[n] then answered[n] else NotFound
  }

  function NextOnRecord(asked: seq<Request>, tally: Stats, es: seq<NetEntry>, ds: seq<Data>): Protocol.Move {
    if |ds| < |asked| && |ds| < |es| then Protocol.Want(asked[|ds|]) else Protocol.Stop(tally)
  }

  /** The peers of a finished transfer: the list it sent, its requests, their answers, its tally. */
  function Replay(m: Meeting, s: Session, asked: seq<Request>, answered: seq<Data>, tally: Stats): Protocol.Config {
    Protocol.Config(
      m.role, m.root, s.o, m.ours, m.theirs, m.room, s.es,
      (o: NetOptions, n: nat, q: Request) => AnswerOnRecord(asked, answered, n, q),
      (o: NetOptions, es: seq<NetEntry>, ds: seq<Data>) => NextOnRecord(asked, tally, es, ds))
  }

  lemma {:induction false} ReplayIsSensible(m: Meeting, s: Session, conn: Conversation, tally: Stats)
    requires m.room > 0 && conn.Recorded(s)
    ensures Protocol.Sensible(Replay(m, s, conn.asked, conn.answered, tally))
  {
    var c := Replay(m, s, conn.asked, conn.answered, tally);
    forall o, n: nat, q: Request | q.WantWhole?
      ensures !c.answer(o, n, q).Patch?
    {
      if n < |conn.asked| && q == conn.asked[n] {
        assert Answers(s, conn.asked[n], conn.answered[n]);
      }
    }
  }

  /** From any point of the record the outcome is the recorded tally. */
  lemma {:induction false} OutcomeOnRecord(c: Protocol.Config, m: Meeting, s: Session, asked: seq<Request>,
                                           answered: seq<Data>, tally: Stats, ds: seq<Data>)
    requires c == Replay(m, s, asked, answered, tally) && Protocol.Sensible(c)
    ensures Protocol.Outcome(c, ds) == tally
    decreases |s.es| - |ds|
  {
    var move := c.decide(c.options, c.entries, ds);
    if move.Want? {
      OutcomeOnRecord(c, m, s, asked, answered, tally, ds + [c.answer(c.options, |ds|, move.request)]);
    }
  }

  // ---------- what goes over the channels ----------

  /** A receiving peer has had the recorded answers so far, and waits for the recorded request's. */
  ghost predicate Follows(st: Protocol.Stage, asked: seq<Request>, answered: seq<Data>) {
    match Protocol.Was(st)
    case Deciding(_, _, ds) => ds <= answered
    case Awaiting(_, _, ds, q) => ds <= answered && |ds| < |asked| && q == asked[|ds|]
    case _ => true
  }

  lemma {:induction false} AnswerExtends(ds: seq<Data>, answered: seq<Data>)
    requires ds <= answered && |ds| < |answered|
    ensures ds + [answered[|ds|]] <= answered
  {
  }

  /** One move of a peer whose inbox holds at most the answer on record. */
  lemma {:induction false} ActFollows(c: Protocol.Config, st: Protocol.Stage, inbox: seq<Msg>, outbox: seq<Msg>,
                                      peer: Protocol.Stage, st': Protocol.Stage, inbox': seq<Msg>, outbox': seq<Msg>,
                                      m: Meeting, s: Session, asked: seq<Request>, answered: seq<Data>, tally: Stats)
    requires c == Replay(m, s, asked, answered, tally) && |asked| == |answered|
    requires Protocol.Acts(c, st, inbox, outbox, peer, st', inbox', outbox')
    requires Follows(st, asked, answered)
    requires st.Awaiting? && inbox != [] && inbox[0].Answer? ==> inbox[0].data == c.answer(st.o, |st.ds|, st.request)
    ensures Follows(st', asked, answered)
  {
    if st.Awaiting? && inbox != [] && inbox[0].Answer? {
      AnswerExtends(st.ds, answered);
    }
  }

  /** What the invariant says of the answer under way. */
  lemma {:induction false} AnswerUnderWay(c: Protocol.Config, u: Protocol.State)
    requires Protocol.Sensible(c) && Protocol.Inv(c, u)
    ensures u.ini.Awaiting? && u.toIni != [] && u.toIni[0].Answer? ==>
              u.toIni[0].data == c.answer(u.ini.o, |u.ini.ds|, u.ini.request)
    ensures u.res.Awaiting? && u.toRes != [] && u.toRes[0].Answer? ==>
              u.toRes[0].data == c.answer(u.res.o, |u.res.ds|, u.res.request)
  {
  }

  lemma {:induction false} StepFollows(c: Protocol.Config, u: Protocol.State, v: Protocol.State, m: Meeting, s: Session,
                                       asked: seq<Request>, answered: seq<Data>, tally: Stats)
    requires c == Replay(m, s, asked, answered, tally) && |asked| == |answered|
    requires Protocol.Sensible(c) && Protocol.Inv(c, u) && Protocol.Step(c, u, v)
    requires Follows(u.ini, asked, answered) && Follows(u.res, asked, answered)
    ensures Follows(v.ini, asked, answered) && Follows(v.res, asked, answered)
  {
    AnswerUnderWay(c, u);
    if Protocol.IniActs(c, u, v) {
      ActFollows(c, u.ini, u.toIni, u.toRes, u.res, v.ini, v.toIni, v.toRes, m, s, asked, answered, tally);
    } else if Protocol.ResActs(c, u, v) {
      ActFollows(c, u.res, u.toRes, u.toIni, u.ini, v.res, v.toRes, v.toIni, m, s, asked, answered, tally);
    }
  }

  /** At every moment of every run the receiving end is where the record says. */
  lemma {:induction false} RunFollows(c: Protocol.Config, run: seq<Protocol.State>, k: nat, m: Meeting, s: Session,
                                      asked: seq<Request>, answered: seq<Data>, tally: Stats)
    requires c == Replay(m, s, asked, answered, tally) && |asked| == |answered|
    requires Protocol.Sensible(c) && Protocol.IsRun(c, run) && k < |run|
    ensures Follows(run[k].ini, asked, answered) && Follows(run[k].res, asked, answered)
  {
    if k > 0 {
      RunFollows(c, run, k - 1, m, s, asked, answered, tally);
      Protocol.RunKeepsInv(c, run, k - 1);
      StepFollows(c, run[k - 1], run[k], m, s, asked, answered, tally);
    }
  }

  // ---------- the whole ----------

  /** What every run of the two peers over the record comes to. */
  ghost predicate Settled(c: Protocol.Config, run: seq<Protocol.State>, asked: seq<Request>, answered: seq<Data>,
                          tally: Stats) {
    && |run| > 0 && |run| <= 10 * |c.entries| + 15
    && (forall k :: 0 <= k < |run| ==> Follows(run[k].ini, asked, answered) && Follows(run[k].res, asked, answered))
    && var last := run[|run| - 1];
       && !last.ini.Confused? && !last.res.Confused?
       && (Protocol.Stuck(c, last) && !last.ini.Failed? && !last.res.Failed? ==>
             if c.ours == c.theirs then last.ini == last.res == Protocol.Done(tally)
             else last.ini == last.res == Protocol.Refused)
  }

  lemma {:induction false} RecordSettles(c: Protocol.Config, run: seq<Protocol.State>, m: Meeting, s: Session,
                                         asked: seq<Request>, answered: seq<Data>, tally: Stats)
    requires c == Replay(m, s, asked, answered, tally) && |asked| == |answered|
    requires Protocol.Sensible(c) && Protocol.IsRun(c, run)
    ensures Settled(c, run, asked, answered, tally)
  {
    Protocol.SessionIsSafe(c, run);
    OutcomeOnRecord(c, m, s, asked, answered, tally, []);
    forall k | 0 <= k < |run| {
      RunFollows(c, run, k, m, s, asked, answered, tally);
    }
  }

  /**
   A whole session. If the transfer comes to its end, then over any channels, whichever peer sends and
   however their moves interleave, the peers exchange exactly what it recorded, and unless one of them is
   cut off both end with its tally, while the destination is the mirror that tally stands for.
   */
  method Converse(m: Meeting, s: Session, srcWalk: seq<Entry>, dstWalk: seq<Entry>, d: Destination, lossy: bool)
    returns (ok: bool, tally: Stats, conn: Conversation)
    requires m.room > 0
    requires Closed(s.src) && Closed(s.dst) && forall n :: MIN_BLOCK <= s.blockSize(n) <= MAX_BLOCK
    requires IsWalk(s.src, srcWalk) && s.es == WiredAll(srcWalk)
    requires d.tree == s.dst && IsWalk(s.dst, dstWalk) && Unused(d)
    modifies d
    ensures conn.Recorded(s)
    ensures ok ==> tally.Handled() == |srcWalk| && conn.finished == Some(tally)
    ensures ok && tally.errors == 0 && Agreeable(s) ==>
              Mirrored(s, d, tally, |Strays(s, dstWalk)|) && Tallied(s, tally, |s.es|)
    ensures Harmless(s, d) && (ok ==> Requested(s, conn.asked, |s.es|))
    ensures (!ok ==> d.cancelled || conn.faulted) && (conn.faulted ==> lossy)
    ensures ok ==>
              var c := Replay(m, s, conn.asked, conn.answered, tally);
              && Protocol.Sensible(c)
              && forall run :: Protocol.IsRun(c, run) ==> Settled(c, run, conn.asked, conn.answered, tally)
  {
    ghost var early;
    ok, tally, early, conn := Transfer(s, srcWalk, dstWalk, d, lossy);
    ghost var c := Replay(m, s, conn.asked, conn.answered, tally);
    ReplayIsSensible(m, s, conn, tally);
    forall run | Protocol.IsRun(c, run)
      ensures Settled(c, run, conn.asked, conn.answered, tally)
    {
      RecordSettles(c, run, m, s, conn.asked, conn.answered, tally);
    }
  }

  // ---------- a second session ----------

  /**
   A session into what an earlier one over the same list has left: if that one kept times, and neither
   reported an error nor failed silently, this one asks for nothing, unless for checksums' sake.
   */
  method AsksNothing(s: Session, srcWalk: seq<Entry>, d: Destination, o: NetOptions, walkAgain: seq<Entry>, lossy: bool)
    returns (ok: bool, tally: Stats, conn: Conversation)
    requires Closed(s.src) && forall n :: MIN_BLOCK <= s.blockSize(n) <= MAX_BLOCK
    requires IsWalk(s.src, srcWalk) && s.es == WiredAll(srcWalk)
    requires Received(s, d.tree, true) && s.o.preserveMtime && !o.checksum
    requires Closed(d.tree) && IsWalk(d.tree, walkAgain) && Unused(d)
    modifies d
    ensures conn.asked == []
  {
    var again := s.(dst := d.tree, o := o);
    ghost var early;
    WalkIsListing(s.src, srcWalk);
    AtRestAfterwards(s, again, d.tree);
    ok, tally, early, conn := Transfer(again, srcWalk, walkAgain, d, lossy);
  }

  // ---------- strays ----------

  /** A stray that cannot be unlinked survives every session, whatever the tally says. */
  method StraySurvives(s: Session, srcWalk: seq<Entry>, dstWalk: seq<Entry>, d: Destination, lossy: bool,
                       ghost stray: Path)
    returns (ok: bool, tally: Stats, ghost early: bool, conn: Conversation)
    requires Closed(s.src) && Closed(s.dst) && forall n :: MIN_BLOCK <= s.blockSize(n) <= MAX_BLOCK
    requires IsWalk(s.src, srcWalk) && s.es == WiredAll(srcWalk)
    requires d.tree == s.dst && IsWalk(s.dst, dstWalk) && Unused(d)
    requires stray in d.pinned && stray in s.dst && stray !in s.src
    modifies d
    ensures stray in d.tree && d.tree.Keys != s.src.Keys
    ensures ok && Agreeable(s) && Polite(s) && !early && !conn.faulted ==> tally.errors == 0
    ensures ok && AllLeftAlone(s) ==> tally.errors == 0
  {
    ok, tally, early, conn := Transfer(s, srcWalk, dstWalk, d, lossy);
  }

  lemma {:induction false} StrayCase(s: Session, p: Path, q: Path, a: Obj, b: Obj, srcWalk: seq<Entry>,
                                     dstWalk: seq<Entry>)
    requires a.node.File? && b.node.File? && p == ["a"] && q == ["b"] && !s.o.checksum
    requires s.src == map[p := a] && s.dst == map[p := a, q := b] && s.es == WiredAll(srcWalk)
    requires srcWalk == [EntryOf(p, a)] && dstWalk == [EntryOf(p, a), EntryOf(q, b)]
    ensures Closed(s.src) && Closed(s.dst) && IsWalk(s.src, srcWalk) && IsWalk(s.dst, dstWalk)
    ensures q in s.dst && q !in s.src && AllLeftAlone(s)
  {
    assert p[0] == "a" && q[0] == "b" && "a"[0] != "b"[0] && |p[0]| == 1 && |".."| == 2;
    assert srcWalk[0].rel == p && dstWalk[0].rel == p && dstWalk[1].rel == q;
    assert |s.es| == 1 && s.es[0] == Wired(srcWalk[0]);
  }

  /**
   One file that is the same on both sides and one such stray: every session that comes to its end
   reports no error, although deletions were asked for and the stray is still there.
   */
  method StrayGoesUnreported(h: Hasher, o: NetOptions, a: Obj, b: Obj, lossy: bool)
    returns (ok: bool, errors: nat, left: bool)
    requires a.node.File? && b.node.File? && o.delete && !o.checksum
    ensures left && (ok ==> errors == 0)
  {
    var p, q: Path := ["a"], ["b"];
    var src, dst: Tree := map[p := a], map[p := a, q := b];
    var srcWalk, dstWalk := [EntryOf(p, a)], [EntryOf(p, a), EntryOf(q, b)];
    var s := Session(src, dst, WiredAll(srcWalk), o, h, (n: nat) => MIN_BLOCK, (x: Buffer) => None,
                     (x: Buffer) => None);
    StrayCase(s, p, q, a, b, srcWalk, dstWalk);
    var d := new Destination(dst, {q}, "1");
    var tally, conn;
    ghost var early;
    ok, tally, early, conn := StraySurvives(s, srcWalk, dstWalk, d, lossy, q);
    errors, left := tally.errors, q in d.tree;
  }
}
