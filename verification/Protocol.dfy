/**
  The server's half of the framing protocol (server/src/protocol.cpp).

  JSON is a codec passed in as functions: `parse` turns a frame body into a value or fails.
  The kernel's answers are passed in as well: one `Drain` is what the recv() loop of one
  call sees, one `SendEvent` is what one send() answers.
*/
module Protocol {
  import opened Framing
  import opened Wrappers

  const READ_CHUNK: nat := 4096
  const MAX_RECV_BUF_SIZE: nat := 32 * 1024 * 1024
  const MAX_PARSE_FAILURES: nat := 3

  // ---------------------------------------------------------------- receiving: meaning

  datatype End = WouldBlock | PeerClosed | Failed

  /** The chunks recv() hands over before it answers `end`. */
  datatype Drain = Drain(chunks: seq<seq<Byte>>, end: End)

  ghost predicate KernelDrain(d: Drain) {
    forall i :: 0 <= i < |d.chunks| ==> 1 <= |d.chunks[i]| <= READ_CHUNK
  }

  function Join(chunks: seq<seq<Byte>>): seq<Byte> {
    if chunks == [] then [] else chunks[0] + Join(chunks[1..])
  }

  /** The receive half of a session between two calls. */
  datatype Rx = Rx(buf: seq<Byte>, fails: nat)

  /** What becomes of a list of frame bodies: the values parsed, the failure counter, how
      many frames were looked at and whether the third failure in a row was among them. */
  datatype Verdict<J> = Verdict(msgs: seq<J>, fails: nat, used: nat, dead: bool)

  function Judge<J>(parse: seq<Byte> -> Option<J>, bodies: seq<seq<Byte>>, fails: nat): (v: Verdict<J>)
    ensures v.used <= |bodies|
    ensures !v.dead ==> v.used == |bodies|
    ensures fails < MAX_PARSE_FAILURES ==> (v.dead <==> v.fails >= MAX_PARSE_FAILURES)
  {
    if bodies == [] then Verdict([], fails, 0, false)
    else
      match parse(bodies[0])
      case Some(j) =>
        var v := Judge(parse, bodies[1..], 0);
        Verdict([j] + v.msgs, v.fails, v.used + 1, v.dead)
      case None =>
        if fails + 1 >= MAX_PARSE_FAILURES then Verdict([], fails + 1, 1, true)
        else
          var v := Judge(parse, bodies[1..], fails + 1);
          v.(used := v.used + 1)
  }

  /** What the extraction loop makes of a buffer, without its recursion: cut the whole
      buffer, then judge the bodies. */
  datatype Digested<J> = Digested(ok: bool, msgs: seq<J>, cut: seq<seq<Byte>>, rx: Rx)

  function Digest<J>(parse: seq<Byte> -> Option<J>, rx: Rx): Digested<J> {
    var c := Split(rx.buf);
    var v := Judge(parse, c.bodies, rx.fails);
    Digested(!v.dead && !c.bad, v.msgs, c.bodies[..v.used],
             Rx(if v.dead then Encode(c.bodies[v.used..]) + c.rest else if c.bad then [] else c.rest, v.fails))
  }

  /** The buffer when the recv() loop stops reading: it checks the size before every read. */
  function Fill(buf: seq<Byte>, chunks: seq<seq<Byte>>): seq<Byte>
    decreases |chunks|
  {
    if |buf| >= MAX_RECV_BUF_SIZE || chunks == [] then buf else Fill(buf + chunks[0], chunks[1..])
  }

  /** One call of recv_msgs: its result, the frame bodies it cut out of the buffer, and what
      the session holds afterwards. */
  datatype Received<J> = Received(msgs: Option<seq<J>>, cut: seq<seq<Byte>>, rx: Rx)

  function Receive<J>(parse: seq<Byte> -> Option<J>, rx: Rx, d: Drain): Received<J> {
    var s := Fill(rx.buf, d.chunks);
    if |s| >= MAX_RECV_BUF_SIZE || d.end == Failed then Received(None, [], Rx(s, rx.fails))
    else
      var g := Digest(parse, Rx(s, rx.fails));
      Received(if !g.ok || (d.end == PeerClosed && g.msgs == []) then None else Some(g.msgs), g.cut, g.rx)
  }

  // ---------------------------------------------------------------- receiving: the loops

  class ClientSession {
    var recvBuf: seq<Byte>
    var consecutiveParseFailures: nat
    /** The largest size the buffer ever had. */
    ghost var peak: nat
    /** Every frame body cut out of the buffer so far. */
    ghost var cut: seq<seq<Byte>>

    ghost predicate Valid()
      reads this
    {
      |recvBuf| <= peak <= MAX_RECV_BUF_SIZE + READ_CHUNK - 1
    }

    ghost function View(): Rx
      reads this
    {
      Rx(recvBuf, consecutiveParseFailures)
    }

    constructor ()
      ensures Valid() && View() == Rx([], 0) && cut == []
    {
      recvBuf, consecutiveParseFailures, peak, cut := [], 0, 0, [];
    }
  }

  method DrainSocket(session: ClientSession, d: Drain) returns (full: bool)
    requires session.Valid() && KernelDrain(d)
    modifies session`recvBuf, session`peak
    ensures session.Valid()
    ensures session.recvBuf == Fill(old(session.recvBuf), d.chunks)
    ensures full <==> |session.recvBuf| >= MAX_RECV_BUF_SIZE
  {
    var i := 0;
    while i < |d.chunks|
      invariant 0 <= i <= |d.chunks|
      invariant session.Valid()
      invariant Fill(session.recvBuf, d.chunks[i..]) == Fill(old(session.recvBuf), d.chunks)
    {
      if |session.recvBuf| >= MAX_RECV_BUF_SIZE {
        return true;
      }
      session.recvBuf := session.recvBuf + d.chunks[i];
      session.peak := if |session.recvBuf| > session.peak then |session.recvBuf| else session.peak;
      assert d.chunks[i..][1..] == d.chunks[i + 1..];
      i := i + 1;
    }
    full := |session.recvBuf| >= MAX_RECV_BUF_SIZE;
  }

  datatype Taken = Body(body: seq<Byte>) | Incomplete | Rejected

  /** One turn of the extraction loop, up to the JSON parse. */
  method TakeFrame(session: ClientSession) returns (t: Taken)
    requires session.Valid()
    modifies session`recvBuf
    ensures session.Valid()
    ensures t.Incomplete? <==> Unfinished(old(session.recvBuf))
    ensures t.Rejected? <==> Poisoned(old(session.recvBuf))
    ensures t.Incomplete? ==> session.recvBuf == old(session.recvBuf)
    ensures t.Rejected? ==> session.recvBuf == []
    ensures t.Body? ==> old(session.recvBuf) == Frame(t.body) + session.recvBuf && LegalBody(t.body)
  {
    if |session.recvBuf| < 4 {
      return Incomplete;
    }
    var bodyLen := Be32(session.recvBuf);
    if bodyLen == 0 {
      session.recvBuf := [];
      return Rejected;
    }
    if bodyLen > MAX_BODY_LEN {
      session.recvBuf := [];
      return Rejected;
    }
    if |session.recvBuf| < 4 + bodyLen {
      return Incomplete;
    }
    t := Body(session.recvBuf[4..4 + bodyLen]);
    FrameOf(session.recvBuf);
    session.recvBuf := session.recvBuf[4 + bodyLen..];
  }

  lemma DigestEnd<J>(parse: seq<Byte> -> Option<J>, rx: Rx)
    ensures Unfinished(rx.buf) ==> Digest(parse, rx) == Digested(true, [], [], rx)
    ensures Poisoned(rx.buf) ==> Digest(parse, rx) == Digested(false, [], [], Rx([], rx.fails))
  {
  }

  /** Judging a frame first and the others after it. */
  lemma JudgeCons<J>(parse: seq<Byte> -> Option<J>, body: seq<Byte>, bodies: seq<seq<Byte>>, fails: nat)
    ensures var v := Judge(parse, [body] + bodies, fails);
      match parse(body)
      case Some(j) => var w := Judge(parse, bodies, 0); v == Verdict([j] + w.msgs, w.fails, w.used + 1, w.dead)
      case None =>
        if fails + 1 >= MAX_PARSE_FAILURES then v == Verdict([], fails + 1, 1, true)
        else var w := Judge(parse, bodies, fails + 1); v == w.(used := w.used + 1)
  {
    assert ([body] + bodies)[0] == body && ([body] + bodies)[1..] == bodies;
  }

  lemma SplitFrame(body: seq<Byte>, tail: seq<Byte>)
    requires LegalBody(body)
    ensures var d := Split(tail); Split(Frame(body) + tail) == Cut([body] + d.bodies, d.rest, d.bad)
  {
    FrameHead(body, tail);
    hide Be32, Header, Frame;
  }

  lemma UsedCons(body: seq<Byte>, bodies: seq<seq<Byte>>, n: nat)
    requires n <= |bodies|
    ensures ([body] + bodies)[..n + 1] == [body] + bodies[..n] && ([body] + bodies)[n + 1..] == bodies[n..]
  {
  }

  lemma DigestParsed<J>(parse: seq<Byte> -> Option<J>, body: seq<Byte>, s: seq<Byte>, tail: seq<Byte>, fails: nat)
    requires var d := Split(tail); Split(s) == Cut([body] + d.bodies, d.rest, d.bad)
    requires parse(body).Some?
    ensures var e := Digest(parse, Rx(tail, 0));
      Digest(parse, Rx(s, fails)) == e.(msgs := [parse(body).value] + e.msgs, cut := [body] + e.cut)
  {
    var bodies := Split(tail).bodies;
    JudgeCons(parse, body, bodies, fails);
    hide Split, Judge, Encode;
    UsedCons(body, bodies, Judge(parse, bodies, 0).used);
  }

  lemma DigestFailed<J>(parse: seq<Byte> -> Option<J>, body: seq<Byte>, s: seq<Byte>, tail: seq<Byte>, fails: nat)
    requires var d := Split(tail); Split(s) == Cut([body] + d.bodies, d.rest, d.bad)
    requires parse(body).None? && fails + 1 < MAX_PARSE_FAILURES
    ensures var e := Digest(parse, Rx(tail, fails + 1)); Digest(parse, Rx(s, fails)) == e.(cut := [body] + e.cut)
  {
    var bodies := Split(tail).bodies;
    JudgeCons(parse, body, bodies, fails);
    hide Split, Judge, Encode;
    UsedCons(body, bodies, Judge(parse, bodies, fails + 1).used);
  }

  lemma DigestThird<J>(parse: seq<Byte> -> Option<J>, body: seq<Byte>, s: seq<Byte>, tail: seq<Byte>, fails: nat)
    requires var d := Split(tail); Split(s) == Cut([body] + d.bodies, d.rest, d.bad)
    requires parse(body).None? && fails + 1 >= MAX_PARSE_FAILURES
    ensures Digest(parse, Rx(s, fails)) == Digested(false, [], [body], Rx(tail, fails + 1))
  {
    var bodies := Split(tail).bodies;
    JudgeCons(parse, body, bodies, fails);
    Reassembles(tail);
    hide Split, Judge, Encode;
    UsedCons(body, bodies, 0);
    assert bodies[0..] == bodies && [body] + bodies[..0] == [body];
  }

  /** Digesting a frame first and the remainder after it. */
  lemma DigestStep<J>(parse: seq<Byte> -> Option<J>, body: seq<Byte>, tail: seq<Byte>, fails: nat)
    requires LegalBody(body)
    ensures var d := Digest(parse, Rx(Frame(body) + tail, fails));
      match parse(body)
      case Some(j) => var e := Digest(parse, Rx(tail, 0)); d == e.(msgs := [j] + e.msgs, cut := [body] + e.cut)
      case None =>
        if fails + 1 >= MAX_PARSE_FAILURES then d == Digested(false, [], [body], Rx(tail, fails + 1))
        else var e := Digest(parse, Rx(tail, fails + 1)); d == e.(cut := [body] + e.cut)
  {
    SplitFrame(body, tail);
    hide Split, Digest, Frame, LegalBody;
    if parse(body).Some? {
      DigestParsed(parse, body, Frame(body) + tail, tail, fails);
    } else if fails + 1 < MAX_PARSE_FAILURES {
      DigestFailed(parse, body, Frame(body) + tail, tail, fails);
    } else {
      DigestThird(parse, body, Frame(body) + tail, tail, fails);
    }
  }

  /** A digest of what is still in the buffer, seen from the start of the loop. */
  ghost function After<J>(messages: seq<J>, cut: seq<seq<Byte>>, d: Digested<J>): Digested<J> {
    d.(msgs := messages + d.msgs, cut := cut + d.cut)
  }

  lemma AfterOne<J>(messages: seq<J>, cut: seq<seq<Byte>>, parsed: Option<J>, body: seq<Byte>, d: Digested<J>)
    ensures parsed.Some? ==>
      After(messages, cut, d.(msgs := [parsed.value] + d.msgs, cut := [body] + d.cut))
        == After(messages + [parsed.value], cut + [body], d)
    ensures After(messages, cut, d.(cut := [body] + d.cut)) == After(messages, cut + [body], d)
  {
    assert cut + ([body] + d.cut) == (cut + [body]) + d.cut;
    if parsed.Some? {
      assert messages + ([parsed.value] + d.msgs) == (messages + [parsed.value]) + d.msgs;
    }
  }

  method ParseFrames<J>(session: ClientSession, parse: seq<Byte> -> Option<J>) returns (ok: bool, messages: seq<J>)
    requires session.Valid()
    modifies session`recvBuf, session`consecutiveParseFailures, session`cut
    ensures session.Valid()
    ensures session.cut == old(session.cut) + Digest(parse, old(session.View())).cut
    ensures var g := Digest(parse, old(session.View())); ok == g.ok && messages == g.msgs && session.View() == g.rx
  {
    hide Digest, Judge, Split, Unfinished, Poisoned, Be32;
    messages := [];
    ghost var cut: seq<seq<Byte>> := [];
    while true
      invariant session.Valid()
      invariant session.cut == old(session.cut) + cut
      invariant Digest(parse, old(session.View())) == After(messages, cut, Digest(parse, session.View()))
      decreases |session.recvBuf|
    {
      ghost var rx := session.View();
      var t := TakeFrame(session);
      if !t.Body? {
        DigestEnd(parse, rx);
        return t.Incomplete?, messages;
      }
      DigestStep(parse, t.body, session.recvBuf, rx.fails);
      session.cut := session.cut + [t.body];
      var parsed := parse(t.body);
      ghost var fails := if parsed.Some? then 0 else rx.fails + 1;
      AfterOne(messages, cut, parsed, t.body, Digest(parse, Rx(session.recvBuf, fails)));
      cut := cut + [t.body];
      if parsed.Some? {
        messages := messages + [parsed.value];
        session.consecutiveParseFailures := 0;
      } else {
        session.consecutiveParseFailures := session.consecutiveParseFailures + 1;
        if session.consecutiveParseFailures >= MAX_PARSE_FAILURES {
          return false, messages;
        }
      }
    }
  }

  method RecvMsgs<J>(session: ClientSession, parse: seq<Byte> -> Option<J>, d: Drain)
    returns (r: Option<seq<J>>)
    requires session.Valid() && KernelDrain(d)
    modifies session
    ensures session.Valid()
    ensures var q := Receive(parse, old(session.View()), d);
      r == q.msgs && session.View() == q.rx && session.cut == old(session.cut) + q.cut
  {
    var full := DrainSocket(session, d);
    if full || d.end == Failed {
      return None;
    }
    var ok, messages := ParseFrames(session, parse);
    if !ok {
      return None;
    }
    r := if d.end == PeerClosed && messages == [] then None else Some(messages);
  }
}
