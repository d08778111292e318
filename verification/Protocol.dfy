/**
 The two peers as a transition system over two bounded first-in-first-out channels: handshake, list
 streaming, receiver-driven requests, and the end of the session. Either peer may be cancelled at any
 moment; a peer that waits on one that is gone fails.

 What the receiver decides and what the sender answers are parameters, so the theorems hold for every
 receiver that asks at most once per listed entry and every sender that answers in kind.
 */
module Protocol {
  import opened Bytes
  import opened Net
  import opened Report

  /** The receiver's next move, given the list and the answers so far. */
  datatype Move = Want(request: Request) | Stop(tally: Stats)

  datatype Config = Config(
    role: Role, root: string, options: NetOptions,
    ours: u32, theirs: u32, room: nat,
    entries: seq<NetEntry>,
    answer: (NetOptions, nat, Request) -> Data,
    decide: (NetOptions, seq<NetEntry>, seq<Data>) -> Move)

  /** Where a peer stands. `Failed` remembers the stage it failed in. */
  datatype Stage =
    // initiator
    | Starting | AwaitHello | Proposing | AwaitAck
    // responder
    | AwaitGreeting | Greeted(ok: bool) | AwaitInit | Acking(role: Role, o: NetOptions)
    // sender
    | Listing(o: NetOptions, k: nat) | Serving(o: NetOptions, n: nat) | Replying(o: NetOptions, n: nat, data: Data)
    // receiver
    | Collecting(o: NetOptions, es: seq<NetEntry>)
    | Deciding(o: NetOptions, es: seq<NetEntry>, ds: seq<Data>)
    | Awaiting(o: NetOptions, es: seq<NetEntry>, ds: seq<Data>, request: Request)
    // over
    | Done(tally: Stats) | Refused | Confused | Failed(was: Stage)

  datatype State = State(ini: Stage, res: Stage, toRes: seq<Msg>, toIni: seq<Msg>)

  /** The receiver asks at most once per entry; a request for a whole file is not answered with a patch. */
  ghost predicate Sensible(c: Config) {
    && c.room > 0
    && (forall o, es, ds :: |ds| >= |es| ==> c.decide(o, es, ds).Stop?)
    && (forall o, n, q: Request :: q.WantWhole? ==> !c.answer(o, n, q).Patch?)
  }

  /** `run_sender` or `run_receiver`, from the beginning. */
  function Play(sends: bool, o: NetOptions): Stage {
    if sends then Listing(o, 0) else Collecting(o, [])
  }

  datatype Turn = Sends(msg: Msg, next: Stage) | Waits | Over

  function Doing(c: Config, st: Stage): Turn {
    match st
    case Starting => Sends(Greeting(GreetingBytes(c.ours)), AwaitHello)
    case Proposing => Sends(Init(c.role, c.root, c.options), AwaitAck)
    case Greeted(ok) => Sends(ServerHello(c.theirs, ok), if ok then AwaitInit else Refused)
    case Acking(role, o) => Sends(InitAck, Play(role == Pull, o))
    case Listing(o, k) =>
      if k < |c.entries| then Sends(Listed(c.entries[k]), Listing(o, k + 1)) else Sends(ListDone, Serving(o, 0))
    case Replying(o, n, d) => Sends(Answer(d), Serving(o, n + 1))
    case Deciding(o, es, ds) =>
      (match c.decide(o, es, ds)
       case Want(q) => Sends(Ask(q), Awaiting(o, es, ds, q))
       case Stop(t) => Sends(Finished(t), Done(t)))
    case Done(_) => Over
    case Refused => Over
    case Confused => Over
    case Failed(_) => Over
    case _ => Waits
  }

  /** What a waiting peer makes of a message; anything it did not expect confuses it. */
  function On(c: Config, st: Stage, m: Msg): Stage {
    match (st, m)
    case (AwaitHello, ServerHello(v, ok)) => if ok && v == c.ours then Proposing else Refused
    case (AwaitAck, InitAck) => Play(c.role == Push, c.options)
    case (AwaitGreeting, Greeting(bytes)) => Greeted(Greets(bytes, c.theirs))
    case (AwaitInit, Init(role, _, o)) => Acking(role, o)
    case (Collecting(o, es), Listed(e)) => Collecting(o, es + [e])
    case (Collecting(o, es), ListDone) => Deciding(o, es, [])
    case (Collecting(o, es), Fatal(_)) => Failed(st)
    case (Serving(o, n), Ask(q)) => Replying(o, n, c.answer(o, n, q))
    case (Serving(o, n), Finished(t)) => Done(t)
    case (Serving(o, n), Fatal(_)) => Failed(st)
    case (Awaiting(o, es, ds, q), Answer(d)) => if q.WantWhole? && d.Patch? then Confused else Deciding(o, es, ds + [d])
    case (Awaiting(o, es, ds, q), Fatal(_)) => Failed(st)
    case _ => Confused
  }

  /** One move of a peer that is not cancelled, with its channels before and after. */
  ghost predicate Acts(c: Config, st: Stage, inbox: seq<Msg>, outbox: seq<Msg>, peer: Stage, st': Stage,
                       inbox': seq<Msg>, outbox': seq<Msg>) {
    match Doing(c, st)
    case Sends(m, next) =>
      || (|outbox| < c.room && st' == next && inbox' == inbox && outbox' == outbox + [m])
      || (Doing(c, peer).Over? && st' == Failed(st) && inbox' == inbox && outbox' == outbox)
    case Waits =>
      if inbox != [] then st' == On(c, st, inbox[0]) && inbox' == inbox[1..] && outbox' == outbox
      else Doing(c, peer).Over? && st' == Failed(st) && inbox' == inbox && outbox' == outbox
    case Over => false
  }

  ghost predicate Cancels(c: Config, st: Stage, inbox: seq<Msg>, outbox: seq<Msg>, st': Stage, inbox': seq<Msg>,
                          outbox': seq<Msg>) {
    !Doing(c, st).Over? && st' == Failed(st) && inbox' == inbox && outbox' == outbox
  }

  ghost predicate IniActs(c: Config, s: State, u: State) {
    u.res == s.res && Acts(c, s.ini, s.toIni, s.toRes, s.res, u.ini, u.toIni, u.toRes)
  }

  ghost predicate ResActs(c: Config, s: State, u: State) {
    u.ini == s.ini && Acts(c, s.res, s.toRes, s.toIni, s.ini, u.res, u.toRes, u.toIni)
  }

  ghost predicate SomeoneCancels(c: Config, s: State, u: State) {
    || (u.res == s.res && Cancels(c, s.ini, s.toIni, s.toRes, u.ini, u.toIni, u.toRes))
    || (u.ini == s.ini && Cancels(c, s.res, s.toRes, s.toIni, u.res, u.toRes, u.toIni))
  }

  ghost predicate Step(c: Config, s: State, u: State) {
    IniActs(c, s, u) || ResActs(c, s, u) || SomeoneCancels(c, s, u)
  }

  const INITIAL := State(Starting, AwaitGreeting, [], [])

  // ---------- the session as a function ----------

  /** What the receiver will report, having had the answers `ds`. */
  ghost function Outcome(c: Config, ds: seq<Data>): Stats
    requires Sensible(c)
    decreases |c.entries| - |ds|
  {
    match c.decide(c.options, c.entries, ds)
    case Stop(t) => t
    case Want(q) => Outcome(c, ds + [c.answer(c.options, |ds|, q)])
  }

  /** The answers so far are those of the one possible session. */
  ghost predicate Genuine(c: Config, ds: seq<Data>)
    requires Sensible(c)
  {
    |ds| <= |c.entries| && Outcome(c, ds) == Outcome(c, [])
  }

  // ---------- the invariant ----------

  /** Sender and receiver once both play: their stages and what is under way between them. */
  ghost predicate Playing(c: Config, snd: Stage, rcv: Stage, toRcv: seq<Msg>, toSnd: seq<Msg>)
    requires Sensible(c)
  {
    var all, o := c.entries, c.options;
    match rcv
    case Collecting(o', es) =>
      && o' == o && toSnd == [] && |es| <= |all| && es == all[..|es|]
      && (|| (snd.Listing? && snd.o == o && |es| <= snd.k <= |all| && toRcv == ListMsgs(all[|es|..snd.k]))
          || (snd == Serving(o, 0) && toRcv == ListMsgs(all[|es|..]) + [ListDone]))
    case Deciding(o', es, ds) =>
      o' == o && es == all && Genuine(c, ds) && snd == Serving(o, |ds|) && toRcv == [] && toSnd == []
    case Awaiting(o', es, ds, q) =>
      && o' == o && es == all && Genuine(c, ds) && c.decide(o, all, ds) == Want(q)
      && (|| (snd == Serving(o, |ds|) && toSnd == [Ask(q)] && toRcv == [])
          || (snd == Replying(o, |ds|, c.answer(o, |ds|, q)) && toSnd == [] && toRcv == [])
          || (snd == Serving(o, |ds| + 1) && toSnd == [] && toRcv == [Answer(c.answer(o, |ds|, q))]))
    case Done(t) =>
      && t == Outcome(c, []) && toRcv == []
      && ((snd.Serving? && snd.o == o && snd.n <= |all| && toSnd == [Finished(t)]) || (snd == Done(t) && toSnd == []))
    case _ => false
  }

  /** Initiator and responder playing the roles the initiator chose. */
  ghost predicate Paired(c: Config, i: Stage, r: Stage, toRes: seq<Msg>, toIni: seq<Msg>)
    requires Sensible(c)
  {
    if c.role == Push then Playing(c, i, r, toRes, toIni) else Playing(c, r, i, toIni, toRes)
  }

  ghost predicate Shaking(c: Config, i: Stage, r: Stage, toRes: seq<Msg>, toIni: seq<Msg>) {
    var ok := c.ours == c.theirs;
    match i
    case Starting => r == AwaitGreeting && toRes == [] && toIni == []
    case AwaitHello =>
      || (r == AwaitGreeting && toRes == [Greeting(GreetingBytes(c.ours))] && toIni == [])
      || (r == Greeted(ok) && toRes == [] && toIni == [])
      || (r == (if ok then AwaitInit else Refused) && toRes == [] && toIni == [ServerHello(c.theirs, ok)])
    case Refused => !ok && r == Refused && toRes == [] && toIni == []
    case Proposing => ok && r == AwaitInit && toRes == [] && toIni == []
    case AwaitAck =>
      ok && toIni == [] &&
      ((r == AwaitInit && toRes == [Init(c.role, c.root, c.options)]) ||
       (r == Acking(c.role, c.options) && toRes == []))
    case _ => false
  }

  /** The acknowledgement is still under way; behind it the responder already plays. */
  ghost predicate Acked(c: Config, i: Stage, r: Stage, toRes: seq<Msg>, toIni: seq<Msg>)
    requires Sensible(c)
  {
    i == AwaitAck && toIni != [] && toIni[0] == InitAck &&
    Paired(c, Play(c.role == Push, c.options), r, toRes, toIni[1..])
  }

  ghost predicate Compatible(c: Config, i: Stage, r: Stage, toRes: seq<Msg>, toIni: seq<Msg>)
    requires Sensible(c)
  {
    Shaking(c, i, r, toRes, toIni) ||
    (c.ours == c.theirs && (Acked(c, i, r, toRes, toIni) || Paired(c, i, r, toRes, toIni)))
  }

  function Was(st: Stage): Stage {
    if st.Failed? then st.was else st
  }

  ghost predicate Inv(c: Config, s: State)
    requires Sensible(c)
  {
    Compatible(c, Was(s.ini), Was(s.res), s.toRes, s.toIni)
  }

  // ---------- every step keeps it ----------

  lemma {:induction false} SenderActs(c: Config, snd: Stage, rcv: Stage, toRcv: seq<Msg>, toSnd: seq<Msg>, peer: Stage,
                                      snd': Stage, toSnd': seq<Msg>, toRcv': seq<Msg>)
    requires Sensible(c) && Playing(c, snd, rcv, toRcv, toSnd)
    requires Acts(c, snd, toSnd, toRcv, peer, snd', toSnd', toRcv')
    ensures Playing(c, Was(snd'), rcv, toRcv', toSnd')
  {
    if snd.Listing? && snd' != Failed(snd) {
      var all, n, k := c.entries, |rcv.es|, snd.k;
      if k < |all| {
        assert all[n..k + 1] == all[n..k] + [all[k]];
        assert ListMsgs(all[n..k + 1]) == ListMsgs(all[n..k]) + [Listed(all[k])];
      } else {
        assert k == |all| && all[n..k] == all[n..];
      }
    }
  }

  lemma {:induction false} ReceiverActs(c: Config, snd: Stage, rcv: Stage, toRcv: seq<Msg>, toSnd: seq<Msg>,
                                        peer: Stage, rcv': Stage, toRcv': seq<Msg>, toSnd': seq<Msg>)
    requires Sensible(c) && Playing(c, snd, rcv, toRcv, toSnd)
    requires Acts(c, rcv, toRcv, toSnd, peer, rcv', toRcv', toSnd')
    ensures Playing(c, snd, Was(rcv'), toRcv', toSnd')
  {
    if rcv.Collecting? && toRcv != [] {
      var all, n := c.entries, |rcv.es|;
      if snd.Listing? {
        ListMsgsSplit(all[n..snd.k]);
        assert all[n..snd.k][1..] == all[n + 1..snd.k];
      } else if n < |all| {
        ListMsgsSplit(all[n..]);
        assert all[n..][1..] == all[n + 1..];
        assert ([Listed(all[n])] + ListMsgs(all[n + 1..]) + [ListDone])[1..] == ListMsgs(all[n + 1..]) + [ListDone];
      }
      assert n < |all| ==> all[..n + 1] == all[..n] + [all[n]];
    }
  }

  lemma {:induction false} HandshakeActs(c: Config, s: State, u: State)
    requires Sensible(c) && Shaking(c, Was(s.ini), Was(s.res), s.toRes, s.toIni)
    requires IniActs(c, s, u) || ResActs(c, s, u)
    ensures Inv(c, u)
  {
    GreetsSameVersion(c.ours, c.theirs);
    if Was(s.res).Acking? && ResActs(c, s, u) && !u.res.Failed? {
      assert [InitAck][1..] == [];
      assert c.entries[0..0] == [] && ListMsgs([]) == [];
    }
  }

  lemma {:induction false} AckedActs(c: Config, s: State, u: State)
    requires Sensible(c) && c.ours == c.theirs && Acked(c, Was(s.ini), Was(s.res), s.toRes, s.toIni)
    requires IniActs(c, s, u) || ResActs(c, s, u)
    ensures Inv(c, u)
  {
    var i := Play(c.role == Push, c.options);
    if ResActs(c, s, u) {
      var rest := u.toIni[1..];
      assert Acts(c, s.res, s.toRes, s.toIni[1..], s.ini, u.res, u.toRes, rest) by {
        assert forall m :: (s.toIni + [m])[1..] == s.toIni[1..] + [m];
      }
      if c.role == Push {
        ReceiverActs(c, i, s.res, s.toRes, s.toIni[1..], s.ini, u.res, u.toRes, rest);
      } else {
        SenderActs(c, s.res, i, s.toIni[1..], s.toRes, s.ini, u.res, u.toRes, rest);
      }
    }
  }

  lemma {:induction false} PairedActs(c: Config, s: State, u: State)
    requires Sensible(c) && c.ours == c.theirs && Paired(c, Was(s.ini), Was(s.res), s.toRes, s.toIni)
    requires IniActs(c, s, u) || ResActs(c, s, u)
    ensures Inv(c, u)
  {
    if IniActs(c, s, u) {
      if c.role == Push {
        SenderActs(c, s.ini, Was(s.res), s.toRes, s.toIni, s.res, u.ini, u.toIni, u.toRes);
      } else {
        ReceiverActs(c, Was(s.res), s.ini, s.toIni, s.toRes, s.res, u.ini, u.toIni, u.toRes);
      }
    } else {
      if c.role == Push {
        ReceiverActs(c, Was(s.ini), s.res, s.toRes, s.toIni, s.ini, u.res, u.toRes, u.toIni);
      } else {
        SenderActs(c, s.res, Was(s.ini), s.toIni, s.toRes, s.ini, u.res, u.toRes, u.toIni);
      }
    }
  }

  lemma {:induction false} StepKeepsInv(c: Config, s: State, u: State)
    requires Sensible(c) && Inv(c, s) && Step(c, s, u)
    ensures Inv(c, u)
  {
    if IniActs(c, s, u) || ResActs(c, s, u) {
      if Shaking(c, Was(s.ini), Was(s.res), s.toRes, s.toIni) {
        HandshakeActs(c, s, u);
      } else if Acked(c, Was(s.ini), Was(s.res), s.toRes, s.toIni) {
        AckedActs(c, s, u);
      } else {
        PairedActs(c, s, u);
      }
    }
  }

  // ---------- safety ----------

  predicate IsSender(st: Stage) {
    st.Listing? || st.Serving? || st.Replying?
  }

  predicate IsReceiver(st: Stage) {
    st.Collecting? || st.Deciding? || st.Awaiting?
  }

  /** No peer ever meets a message it did not expect. */
  lemma {:induction false} NoConfusion(c: Config, s: State)
    requires Sensible(c) && Reachable(c, s)
    ensures !Was(s.ini).Confused? && !Was(s.res).Confused?
  {
    ReachableInv(c, s);
  }

  /** The peers play opposite roles, those the initiator chose, under the options it chose. */
  lemma {:induction false} RolesAreComplementary(c: Config, s: State)
    requires Sensible(c) && Reachable(c, s)
    ensures IsSender(Was(s.ini)) ==> c.role == Push && Was(s.ini).o == c.options && !IsSender(Was(s.res))
    ensures IsReceiver(Was(s.ini)) ==> c.role == Pull && Was(s.ini).o == c.options && !IsReceiver(Was(s.res))
    ensures IsSender(Was(s.res)) ==> c.role == Pull && Was(s.res).o == c.options
    ensures IsReceiver(Was(s.res)) ==> c.role == Push && Was(s.res).o == c.options
  {
    ReachableInv(c, s);
  }

  predicate PastList(st: Stage) {
    st.Deciding? || st.Awaiting? || st.Done?
  }

  function Held(st: Stage): nat {
    if st.Replying? then 1 else 0
  }

  lemma {:induction false} OneExchangePaired(c: Config, snd: Stage, rcv: Stage, toRcv: seq<Msg>, toSnd: seq<Msg>)
    requires Sensible(c) && Playing(c, snd, rcv, toRcv, toSnd) && (PastList(snd) || PastList(rcv))
    ensures |toRcv| + |toSnd| + Held(snd) + Held(rcv) <= 1
  {
  }

  /** Once the list is complete, at most one message is under way or being answered. */
  lemma {:induction false} OneExchangeAtATime(c: Config, s: State)
    requires Sensible(c) && Reachable(c, s) && (PastList(Was(s.ini)) || PastList(Was(s.res)))
    ensures |s.toRes| + |s.toIni| + Held(Was(s.ini)) + Held(Was(s.res)) <= 1
  {
    ReachableInv(c, s);
    var i, r := Was(s.ini), Was(s.res);
    assert Paired(c, i, r, s.toRes, s.toIni);
    if c.role == Push {
      OneExchangePaired(c, i, r, s.toRes, s.toIni);
    } else {
      OneExchangePaired(c, r, i, s.toIni, s.toRes);
    }
  }

  /** A peer that ends with a tally ends with that of the one possible session, whatever befell the other. */
  lemma {:induction false} TallyIsOutcome(c: Config, s: State)
    requires Sensible(c) && Reachable(c, s)
    ensures s.ini.Done? ==> c.ours == c.theirs && s.ini.tally == Outcome(c, [])
    ensures s.res.Done? ==> c.ours == c.theirs && s.res.tally == Outcome(c, [])
  {
    ReachableInv(c, s);
  }

  // ---------- progress ----------

  ghost predicate CanAct(c: Config, st: Stage, inbox: seq<Msg>, outbox: seq<Msg>, peer: Stage) {
    match Doing(c, st)
    case Sends(_, _) => |outbox| < c.room || Doing(c, peer).Over?
    case Waits => inbox != [] || Doing(c, peer).Over?
    case Over => false
  }

  ghost predicate Stuck(c: Config, s: State) {
    forall u :: !IniActs(c, s, u) && !ResActs(c, s, u)
  }

  /** Never deadlocked: some peer can move until both are over, whatever room the channels have. */
  lemma {:induction false} SomeoneCanAct(c: Config, s: State)
    requires Sensible(c) && Inv(c, s)
    ensures || (Doing(c, s.ini).Over? && Doing(c, s.res).Over?)
            || CanAct(c, s.ini, s.toIni, s.toRes, s.res) || CanAct(c, s.res, s.toRes, s.toIni, s.ini)
  {
  }

  lemma {:induction false} NeverBothWaiting(c: Config, s: State)
    requires Sensible(c) && Reachable(c, s) && s.toRes == [] && s.toIni == []
    ensures !(Doing(c, s.ini).Waits? && Doing(c, s.res).Waits?)
  {
    ReachableInv(c, s);
    SomeoneCanAct(c, s);
  }

  lemma {:induction false} CanActMeans(c: Config, st: Stage, inbox: seq<Msg>, outbox: seq<Msg>, peer: Stage)
    requires CanAct(c, st, inbox, outbox, peer)
    ensures exists st', inbox', outbox' :: Acts(c, st, inbox, outbox, peer, st', inbox', outbox')
  {
    match Doing(c, st)
    case Sends(m, next) =>
      if |outbox| < c.room {
        assert Acts(c, st, inbox, outbox, peer, next, inbox, outbox + [m]);
      } else {
        assert Acts(c, st, inbox, outbox, peer, Failed(st), inbox, outbox);
      }
    case Waits =>
      if inbox != [] {
        assert Acts(c, st, inbox, outbox, peer, On(c, st, inbox[0]), inbox[1..], outbox);
      } else {
        assert Acts(c, st, inbox, outbox, peer, Failed(st), inbox, outbox);
      }
  }

  /**
   Where sessions end: when nobody can move both peers are over, and if nobody failed they agree:
   both have the session's tally, or both refused because their versions differ.
   */
  lemma {:induction false} StuckMeansOver(c: Config, s: State)
    requires Sensible(c) && Inv(c, s) && Stuck(c, s)
    ensures Doing(c, s.ini).Over? && Doing(c, s.res).Over?
    ensures !s.ini.Failed? && !s.res.Failed? ==>
              if c.ours == c.theirs then s.ini == s.res == Done(Outcome(c, [])) else s.ini == s.res == Refused
  {
    SomeoneCanAct(c, s);
    if CanAct(c, s.ini, s.toIni, s.toRes, s.res) {
      CanActMeans(c, s.ini, s.toIni, s.toRes, s.res);
      var st, inbox, outbox :| Acts(c, s.ini, s.toIni, s.toRes, s.res, st, inbox, outbox);
      assert IniActs(c, s, State(st, s.res, outbox, inbox));
    }
    if CanAct(c, s.res, s.toRes, s.toIni, s.ini) {
      CanActMeans(c, s.res, s.toRes, s.toIni, s.ini);
      var st, inbox, outbox :| Acts(c, s.res, s.toRes, s.toIni, s.ini, st, inbox, outbox);
      assert ResActs(c, s, State(s.ini, st, inbox, outbox));
    }
  }

  // ---------- termination ----------

  function Minus(n: nat, k: nat): nat {
    if k <= n then n - k else 0
  }

  /** What a peer still has to do, in messages sent and received, generously counted. */
  function Weight(n: nat, st: Stage): nat {
    match st
    case Starting => 5 * n + 7
    case AwaitHello => 5 * n + 5
    case Proposing => 5 * n + 5
    case AwaitAck => 5 * n + 3
    case AwaitGreeting => 5 * n + 7
    case Greeted(_) => 5 * n + 7
    case AwaitInit => 5 * n + 5
    case Acking(_, _) => 5 * n + 5
    case Listing(_, k) => 2 * Minus(n, k) + 3 * n + 3
    case Serving(_, k) => 3 * Minus(n, k) + 1
    case Replying(_, k, _) => 3 * Minus(n, k) + 1
    case Collecting(_, _) => 3 * n + 3
    case Deciding(_, _, ds) => 3 * Minus(n, |ds|) + 3
    case Awaiting(_, _, ds, _) => 3 * Minus(n, |ds|) + 1
    case _ => 0
  }

  function Measure(c: Config, s: State): nat {
    Weight(|c.entries|, s.ini) + Weight(|c.entries|, s.res) + |s.toRes| + |s.toIni|
  }

  /** Facts about one stage that the weights rely on; the invariant gives them. */
  ghost predicate Bounded(c: Config, st: Stage) {
    && (st.Listing? ==> st.k <= |c.entries|)
    && (st.Replying? ==> st.n < |c.entries|)
    && (st.Deciding? ==> st.es == c.entries && |st.ds| <= |c.entries|)
    && (st.Awaiting? ==> |st.ds| < |c.entries|)
  }

  lemma {:induction false} PlayingIsBounded(c: Config, snd: Stage, rcv: Stage, toRcv: seq<Msg>, toSnd: seq<Msg>)
    requires Sensible(c) && Playing(c, snd, rcv, toRcv, toSnd)
    ensures Bounded(c, snd) && Bounded(c, rcv)
  {
  }

  lemma {:induction false} InvIsBounded(c: Config, s: State)
    requires Sensible(c) && Inv(c, s)
    ensures Bounded(c, Was(s.ini)) && Bounded(c, Was(s.res))
  {
    var i, r, rest := Was(s.ini), Was(s.res), if s.toIni == [] then [] else s.toIni[1..];
    var played := Play(c.role == Push, c.options);
    if Acked(c, i, r, s.toRes, s.toIni) {
      if c.role == Push {
        PlayingIsBounded(c, played, r, s.toRes, rest);
      } else {
        PlayingIsBounded(c, r, played, rest, s.toRes);
      }
    } else if Paired(c, i, r, s.toRes, s.toIni) {
      if c.role == Push {
        PlayingIsBounded(c, i, r, s.toRes, s.toIni);
      } else {
        PlayingIsBounded(c, r, i, s.toIni, s.toRes);
      }
    }
  }

  lemma {:induction false} SendingLightens(c: Config, st: Stage)
    requires Bounded(c, st) && Doing(c, st).Sends?
    ensures Weight(|c.entries|, Doing(c, st).next) + 1 < Weight(|c.entries|, st)
  {
  }

  lemma {:induction false} ReceivingDoesNotWeigh(c: Config, st: Stage, m: Msg)
    requires Bounded(c, st) && Doing(c, st).Waits?
    ensures 0 < Weight(|c.entries|, st) && Weight(|c.entries|, On(c, st, m)) <= Weight(|c.entries|, st)
  {
  }

  lemma {:induction false} ActLightens(c: Config, st: Stage, inbox: seq<Msg>, outbox: seq<Msg>, peer: Stage, st': Stage,
                                       inbox': seq<Msg>, outbox': seq<Msg>)
    requires Sensible(c) && Bounded(c, st) && Acts(c, st, inbox, outbox, peer, st', inbox', outbox')
    ensures Weight(|c.entries|, st') + |inbox'| + |outbox'| < Weight(|c.entries|, st) + |inbox| + |outbox|
  {
    match Doing(c, st)
    case Sends(m, next) => SendingLightens(c, st);
    case Waits => ReceivingDoesNotWeigh(c, st, if inbox != [] then inbox[0] else InitAck);
  }

  lemma {:induction false} CancelLightens(c: Config, st: Stage)
    requires !Doing(c, st).Over?
    ensures Weight(|c.entries|, st) > Weight(|c.entries|, Failed(st))
  {
  }

  /** Every step brings the session nearer its end. */
  lemma {:induction false} StepLightens(c: Config, s: State, u: State)
    requires Sensible(c) && Inv(c, s) && Step(c, s, u)
    ensures Measure(c, u) < Measure(c, s)
  {
    InvIsBounded(c, s);
    if IniActs(c, s, u) {
      ActLightens(c, s.ini, s.toIni, s.toRes, s.res, u.ini, u.toIni, u.toRes);
    } else if ResActs(c, s, u) {
      ActLightens(c, s.res, s.toRes, s.toIni, s.ini, u.res, u.toRes, u.toIni);
    } else if Cancels(c, s.ini, s.toIni, s.toRes, u.ini, u.toIni, u.toRes) {
      CancelLightens(c, s.ini);
    } else {
      CancelLightens(c, s.res);
    }
  }

  // ---------- whole runs ----------

  ghost predicate IsRun(c: Config, run: seq<State>) {
    && |run| > 0 && run[0] == INITIAL
    && forall k :: 0 < k < |run| ==> Step(c, run[k - 1], run[k])
  }

  lemma {:induction false} InitialInv(c: Config)
    requires Sensible(c)
    ensures Inv(c, INITIAL) && Measure(c, INITIAL) == 10 * |c.entries| + 14
  {
  }

  lemma {:induction false} OneStep(c: Config, s: State, u: State, k: nat)
    requires Sensible(c) && Inv(c, s) && Step(c, s, u) && Measure(c, s) + k <= 10 * |c.entries| + 14
    ensures Inv(c, u) && Measure(c, u) + k + 1 <= 10 * |c.entries| + 14
  {
    StepKeepsInv(c, s, u);
    StepLightens(c, s, u);
  }

  lemma {:induction false} RunKeepsInv(c: Config, run: seq<State>, k: nat)
    requires Sensible(c) && IsRun(c, run) && k < |run|
    ensures Inv(c, run[k]) && Measure(c, run[k]) + k <= 10 * |c.entries| + 14
  {
    if k == 0 {
      InitialInv(c);
    } else {
      RunKeepsInv(c, run, k - 1);
      OneStep(c, run[k - 1], run[k], k - 1);
    }
  }

  /** States some run can lead to. */
  ghost predicate Reachable(c: Config, s: State) {
    exists run :: IsRun(c, run) && run[|run| - 1] == s
  }

  lemma {:induction false} ReachableInv(c: Config, s: State)
    requires Sensible(c) && Reachable(c, s)
    ensures Inv(c, s)
  {
    var run :| IsRun(c, run) && run[|run| - 1] == s;
    RunKeepsInv(c, run, |run| - 1);
  }

  /**
   Every run is finite, never confuses a peer and never deadlocks; one that nobody cuts short ends
   with both peers holding the same tally, or both refusing.
   */
  lemma {:induction false} SessionIsSafe(c: Config, run: seq<State>)
    requires Sensible(c) && IsRun(c, run)
    ensures |run| <= 10 * |c.entries| + 15
    ensures var s := run[|run| - 1];
            && !s.ini.Confused? && !s.res.Confused?
            && (Stuck(c, s) ==> Doing(c, s.ini).Over? && Doing(c, s.res).Over?)
            && (Stuck(c, s) && !s.ini.Failed? && !s.res.Failed? ==>
                  if c.ours == c.theirs then s.ini == s.res == Done(Outcome(c, [])) else s.ini == s.res == Refused)
  {
    var s := run[|run| - 1];
    RunKeepsInv(c, run, |run| - 1);
    assert Reachable(c, s);
    NoConfusion(c, s);
    if Stuck(c, s) {
      StuckMeansOver(c, s);
    }
  }
}
