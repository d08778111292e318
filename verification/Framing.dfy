/**
 Framing over a byte stream: eight little-endian length bytes, then the payload. The writer may be
 cut off after any byte and the reader sees the stream in arbitrary pieces at arbitrary moments; what
 it makes of them is a function of the bytes alone.
 */
module Framing {
  import opened Bytes

  const MAX_FRAME := 268435456
  const HEADER := 8

  /** The serializer, known only by what is assumed of it. */
  datatype Wire<!M> = Wire(encode: M -> Buffer, decode: Buffer -> Option<M>)

  ghost predicate Faithful<M(!new)>(w: Wire<M>) {
    forall m: M :: w.decode(w.encode(m)) == Some(m)
  }

  predicate FitsFrame<M>(w: Wire<M>, m: M) {
    |w.encode(m)| <= MAX_FRAME
  }

  function Frame<M>(w: Wire<M>, m: M): Buffer {
    ToLe(|w.encode(m)|, HEADER) + w.encode(m)
  }

  function Frames<M>(w: Wire<M>, ms: seq<M>): Buffer {
    if ms == [] then [] else Frame(w, ms[0]) + Frames(w, ms[1..])
  }

  ghost predicate AllFit<M(!new)>(w: Wire<M>, ms: seq<M>) {
    forall i :: 0 <= i < |ms| ==> FitsFrame(w, ms[i])
  }

  /** On the wire: four length bytes, the low one first, four zeros, the payload. Above 256 MiB nothing is sent. */
  lemma {:induction false} FrameBytes<M>(w: Wire<M>, m: M)
    ensures FitsFrame(w, m) <==> |w.encode(m)| <= 256 * 1024 * 1024
    ensures FitsFrame(w, m) ==>
              var n := |w.encode(m)|;
              Frame(w, m) ==
                [n % 256, n / 256 % 256, n / 256 / 256 % 256, n / 256 / 256 / 256] + [0, 0, 0, 0] + w.encode(m)
  {
    LeDigits(|w.encode(m)|);
    LeDigits(0);
  }

  // ---------- the writing end ----------

  datatype Sent = Delivered | Refused | Broken

  /** A stream that takes `room` more bytes before it breaks. */
  class Writer {
    var written: Buffer
    var room: nat

    constructor (room: nat)
      ensures written == [] && this.room == room
    {
      this.written, this.room := [], room;
    }

    /** `write_all`: every byte, or as many as there is room for and an error. */
    method WriteAll(bytes: Buffer) returns (ok: bool, ghost n: nat)
      modifies this
      ensures n <= |bytes| && written == old(written) + bytes[..n]
      ensures ok <==> n == |bytes|
      ensures n + room == old(room) && (!ok ==> room == 0)
    {
      var i := 0;
      while i < |bytes|
        invariant i <= |bytes| && written == old(written) + bytes[..i] && i + room == old(room)
      {
        if room == 0 {
          return false, i;
        }
        written, room := written + [bytes[i]], room - 1;
        i := i + 1;
      }
      return true, i;
    }

    /** `send_msg`: a payload above the cap is refused before anything is written. */
    method SendMsg<M>(w: Wire<M>, m: M) returns (r: Sent, ghost n: nat)
      modifies this
      ensures r.Refused? <==> !FitsFrame(w, m)
      ensures n <= |Frame(w, m)| && written == old(written) + Frame(w, m)[..n]
      ensures r.Delivered? ==> n == |Frame(w, m)|
      ensures r.Broken? ==> n < |Frame(w, m)|
      ensures r.Refused? ==> n == 0
      ensures n + room == old(room) && (r.Broken? ==> room == 0)
    {
      var payload := w.encode(m);
      if |payload| > MAX_FRAME {
        return Refused, 0;
      }
      ghost var before, f := written, Frame(w, m);
      var head := ToLe(|payload|, HEADER);
      var ok;
      ok, n := WriteAll(head);
      assert head[..n] == f[..n];
      if !ok {
        return Broken, n;
      }
      ghost var k;
      ok, k := WriteAll(payload);
      n := HEADER + k;
      assert before + head[..HEADER] + payload[..k] == before + f[..n];
      r := if ok then Delivered else Broken;
    }

    /** A sequence of sends, up to the first that does not go through. */
    method SendAll<M>(w: Wire<M>, ms: seq<M>) returns (r: Sent, sent: nat, ghost tail: Buffer)
      modifies this
      ensures sent <= |ms| && AllSent(w, ms, sent) && (r.Delivered? <==> sent == |ms|)
      ensures written == old(written) + Frames(w, ms[..sent]) + tail
      ensures r.Refused? ==> !FitsFrame(w, ms[sent])
      ensures if r.Broken? then FitsFrame(w, ms[sent]) && tail < Frame(w, ms[sent]) && room == 0 else tail == []
      ensures |written| + room == |old(written)| + old(room)
    {
      tail := [];
      sent := 0;
      while sent < |ms|
        invariant sent <= |ms| && AllSent(w, ms, sent)
        invariant written == old(written) + Frames(w, ms[..sent])
        invariant |written| + room == |old(written)| + old(room)
      {
        ghost var before, n := written, 0;
        r, n := SendMsg(w, ms[sent]);
        assert Frame(w, ms[sent])[..|Frame(w, ms[sent])|] == Frame(w, ms[sent]);
        if !r.Delivered? {
          tail := Frame(w, ms[sent])[..n];
          return;
        }
        OneMoreFrame(w, old(written), ms, sent);
        sent := sent + 1;
      }
      assert ms[..sent] == ms;
      r := Delivered;
    }
  }

  lemma {:induction false} OneMoreFrame<M>(w: Wire<M>, before: Buffer, ms: seq<M>, n: nat)
    requires n < |ms|
    ensures before + Frames(w, ms[..n]) + Frame(w, ms[n]) == before + Frames(w, ms[..n + 1])
  {
    FramesSnoc(w, ms[..n], ms[n]);
    assert ms[..n] + [ms[n]] == ms[..n + 1];
  }

  ghost predicate AllSent<M>(w: Wire<M>, ms: seq<M>, n: nat) {
    forall i :: 0 <= i < n && i < |ms| ==> FitsFrame(w, ms[i])
  }

  // ---------- the reading end ----------

  function Concat(chunks: seq<Buffer>): Buffer {
    if chunks == [] then [] else chunks[0] + Concat(chunks[1..])
  }

  /** What receiving makes of a stream. */
  datatype Received<M> = Got(msg: M, rest: Buffer) | TooLarge | CutShort | Garbled

  function ParseFrame<M>(w: Wire<M>, s: Buffer): Received<M> {
    if |s| < HEADER then CutShort
    else
      var length := FromLe(s[..HEADER]);
      if length > MAX_FRAME then TooLarge
      else if |s| < HEADER + length then CutShort
      else match w.decode(s[HEADER..HEADER + length])
        case None => Garbled
        case Some(m) => Got(m, s[HEADER + length..])
  }

  /** A pipe as its reader meets it: bytes at hand, and pieces that will arrive before it is closed. */
  class Reader {
    var buf: Buffer
    var incoming: seq<Buffer>

    constructor (incoming: seq<Buffer>)
      ensures this.buf == [] && this.incoming == incoming
    {
      this.buf, this.incoming := [], incoming;
    }

    ghost function Stream(): Buffer
      reads this
    {
      buf + Concat(incoming)
    }

    method Arrive()
      requires incoming != []
      modifies this
      ensures Stream() == old(Stream()) && |incoming| == |old(incoming)| - 1
    {
      assert buf + (incoming[0] + Concat(incoming[1..])) == buf + incoming[0] + Concat(incoming[1..]);
      buf, incoming := buf + incoming[0], incoming[1..];
    }

    /**
     `read`: pieces may arrive at any moment; an empty pipe is waited on until one does or the writer
     is gone. Takes as many bytes as are at hand, up to `want`.
     */
    method Read(want: nat) returns (got: Buffer)
      modifies this
      ensures |got| <= want && old(Stream()) == got + Stream()
      ensures got == [] <==> want == 0 || old(Stream()) == []
    {
      if want == 0 {
        return [];
      }
      var more: bool := *;
      while incoming != [] && (more || buf == [])
        invariant Stream() == old(Stream())
        decreases |incoming|
      {
        Arrive();
        more := *;
      }
      var n := if |buf| <= want then |buf| else want;
      got := buf[..n];
      assert buf == got + buf[n..];
      assert got + (buf[n..] + Concat(incoming)) == buf + Concat(incoming);
      buf := buf[n..];
    }

    /** `read_exact`: all `want` bytes, or an error once the stream ends. */
    method ReadExact(want: nat) returns (ok: bool, got: Buffer)
      modifies this
      ensures ok <==> want <= |old(Stream())|
      ensures ok ==> got == old(Stream())[..want] && Stream() == old(Stream())[want..]
    {
      got := [];
      while |got| < want
        invariant |got| <= want && old(Stream()) == got + Stream()
        decreases want - |got|
      {
        var piece := Read(want - |got|);
        assert old(Stream()) == got + piece + Stream();
        got := got + piece;
        if piece == [] {
          return false, got;
        }
      }
      return true, got;
    }

    /** `recv_msg`. */
    method RecvMsg<M>(w: Wire<M>) returns (r: Received<M>)
      modifies this
      ensures r == ParseFrame(w, old(Stream()))
      ensures r.Got? ==> Stream() == r.rest
    {
      ghost var s := Stream();
      var ok, head := ReadExact(HEADER);
      if !ok {
        return CutShort;
      }
      var length := FromLe(head);
      if length > MAX_FRAME {
        return TooLarge;
      }
      var payload;
      ok, payload := ReadExact(length);
      if !ok {
        return CutShort;
      }
      assert s[HEADER..][..length] == s[HEADER..HEADER + length] && s[HEADER..][length..] == s[HEADER + length..];
      var decoded := w.decode(payload);
      if decoded.None? {
        return Garbled;
      }
      r := Got(decoded.value, buf + Concat(incoming));
    }

    /** Receive until something other than a message comes. */
    method RecvAll<M>(w: Wire<M>) returns (ms: seq<M>, last: Received<M>)
      modifies this
      ensures ms == Messages(w, old(Stream())) && last == Ending(w, old(Stream()))
    {
      ghost var s := Stream();
      ms := [];
      while true
        invariant Messages(w, s) == ms + Messages(w, Stream()) && Ending(w, s) == Ending(w, Stream())
        decreases |Stream()|
      {
        last := RecvMsg(w);
        if !last.Got? {
          return;
        }
        ms := ms + [last.msg];
      }
    }
  }

  /** The messages of a stream, up to the first thing that is none. */
  function Messages<M>(w: Wire<M>, s: Buffer): seq<M>
    decreases |s|
  {
    match ParseFrame(w, s)
    case Got(m, rest) => [m] + Messages(w, rest)
    case _ => []
  }

  function Ending<M>(w: Wire<M>, s: Buffer): Received<M>
    decreases |s|
  {
    match ParseFrame(w, s)
    case Got(_, rest) => Ending(w, rest)
    case r => r
  }

  // ---------- what was sent is what is received ----------

  lemma {:induction false} FramesSnoc<M>(w: Wire<M>, ms: seq<M>, m: M)
    ensures Frames(w, ms + [m]) == Frames(w, ms) + Frame(w, m)
  {
    if ms == [] {
      assert ms + [m] == [m] && [m][1..] == [];
      assert Frames(w, [m]) == Frame(w, m) + [];
    } else {
      assert (ms + [m])[1..] == ms[1..] + [m];
      FramesSnoc(w, ms[1..], m);
    }
  }

  lemma {:induction false} HeaderFits()
    ensures MAX_FRAME < Pow256(HEADER)
  {
    assert Pow256(4) == 0x1_0000_0000;
    assert Pow256(8) == 256 * (256 * (256 * (256 * Pow256(4))));
  }

  lemma {:induction false} ParseSent<M(!new)>(w: Wire<M>, m: M, tail: Buffer)
    requires Faithful(w) && FitsFrame(w, m)
    ensures ParseFrame(w, Frame(w, m) + tail) == Got(m, tail)
  {
    var payload := w.encode(m);
    var s := Frame(w, m) + tail;
    HeaderFits();
    LeRoundTrip(|payload|, HEADER);
    assert s[..HEADER] == ToLe(|payload|, HEADER);
    assert s[HEADER..HEADER + |payload|] == payload;
    assert s[HEADER + |payload|..] == tail;
  }

  /** A frame cut short anywhere ends the stream with an error, never with a message. */
  lemma {:induction false} ParseCut<M>(w: Wire<M>, m: M, part: Buffer)
    requires FitsFrame(w, m) && part < Frame(w, m)
    ensures ParseFrame(w, part) == CutShort
  {
    if |part| >= HEADER {
      HeaderFits();
      LeRoundTrip(|w.encode(m)|, HEADER);
      assert part[..HEADER] == ToLe(|w.encode(m)|, HEADER);
    }
  }

  /** The reading end refuses exactly the payload lengths the sending end refuses. */
  lemma {:induction false} CapIsShared<M>(w: Wire<M>, m: M, tail: Buffer)
    requires |w.encode(m)| < Pow256(HEADER)
    ensures ParseFrame(w, Frame(w, m) + tail) == TooLarge <==> !FitsFrame(w, m)
  {
    LeRoundTrip(|w.encode(m)|, HEADER);
    assert (Frame(w, m) + tail)[..HEADER] == ToLe(|w.encode(m)|, HEADER);
  }

  /** Any number of whole frames and a cut one: exactly those messages, then an error. */
  lemma {:induction false} MessagesOf<M(!new)>(w: Wire<M>, ms: seq<M>, tail: Buffer)
    requires Faithful(w) && AllFit(w, ms) && !ParseFrame(w, tail).Got?
    ensures Messages(w, Frames(w, ms) + tail) == ms
    ensures Ending(w, Frames(w, ms) + tail) == ParseFrame(w, tail)
  {
    if ms == [] {
      assert Frames(w, ms) + tail == tail;
    } else {
      assert Frames(w, ms) + tail == Frame(w, ms[0]) + (Frames(w, ms[1..]) + tail);
      ParseSent(w, ms[0], Frames(w, ms[1..]) + tail);
      MessagesOf(w, ms[1..], tail);
    }
  }

  lemma {:induction false} WholeMessages<M(!new)>(w: Wire<M>, ms: seq<M>, sent: nat, tail: Buffer)
    requires Faithful(w) && sent <= |ms| && AllSent(w, ms, sent)
    requires tail == [] || (sent < |ms| && FitsFrame(w, ms[sent]) && tail < Frame(w, ms[sent]))
    ensures Messages(w, Frames(w, ms[..sent]) + tail) == ms[..sent]
    ensures Ending(w, Frames(w, ms[..sent]) + tail) == CutShort
  {
    if tail != [] {
      ParseCut(w, ms[sent], tail);
    }
    MessagesOf(w, ms[..sent], tail);
  }

  lemma {:induction false} BrokeInside<M>(w: Wire<M>, ms: seq<M>, sent: nat, tail: Buffer)
    requires sent < |ms| && tail < Frame(w, ms[sent])
    ensures |Frames(w, ms[..sent]) + tail| < |Frames(w, ms[..sent + 1])|
  {
    FramesSnoc(w, ms[..sent], ms[sent]);
    assert ms[..sent] + [ms[sent]] == ms[..sent + 1];
  }

  /** What a writer with `room` bytes leaves on the stream carries exactly the messages sent whole. */
  method Transmit<M(!new)>(w: Wire<M>, ms: seq<M>, room: nat) returns (sent: nat, stream: Buffer)
    requires Faithful(w)
    ensures sent <= |ms| && Messages(w, stream) == ms[..sent] && Ending(w, stream) == CutShort
    ensures sent < |ms| ==> !FitsFrame(w, ms[sent]) || room < |Frames(w, ms[..sent + 1])|
  {
    var out := new Writer(room);
    var r;
    ghost var tail;
    r, sent, tail := out.SendAll(w, ms);
    stream := out.written;
    assert stream == Frames(w, ms[..sent]) + tail;
    WholeMessages(w, ms, sent, tail);
    if r.Broken? {
      BrokeInside(w, ms, sent, tail);
    }
  }

  /**
   End to end: whatever the messages, wherever the writer breaks off, and however the bytes are cut
   into pieces, the reader gets exactly the messages that were sent whole, in order, and then an error.
   */
  method Exchange<M(!new)>(w: Wire<M>, ms: seq<M>, room: nat, chunks: seq<nat>)
    returns (sent: nat, got: seq<M>, last: Received<M>)
    requires Faithful(w)
    ensures sent <= |ms| && got == ms[..sent] && last == CutShort
    ensures sent < |ms| ==> !FitsFrame(w, ms[sent]) || room < |Frames(w, ms[..sent + 1])|
  {
    var stream;
    sent, stream := Transmit(w, ms, room);
    var end := new Reader(Split(stream, chunks));
    assert end.Stream() == stream;
    got, last := end.RecvAll(w);
  }

  /** Cut `s` into pieces of the given sizes, the rest last. */
  function Split(s: Buffer, sizes: seq<nat>): (pieces: seq<Buffer>)
    ensures Concat(pieces) == s
    decreases |sizes|
  {
    if sizes == [] || sizes[0] > |s| then [s] else [s[..sizes[0]]] + Split(s[sizes[0]..], sizes[1..])
  }
}
