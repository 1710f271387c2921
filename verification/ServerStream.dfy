/**
  What a sequence of recv_msgs calls does to a byte stream, however the kernel cut the
  stream into reads and the event loop into calls.
*/
module ServerStream {
  import opened Framing
  import opened Protocol
  import opened Wrappers

  // ---------------------------------------------------------------- judging in pieces

  /** One verdict after another, when the first has not ended the connection. */
  function Then<J>(v: Verdict<J>, u: Verdict<J>): Verdict<J> {
    if v.dead then v else Verdict(v.msgs + u.msgs, u.fails, v.used + u.used, u.dead)
  }

  /** The verdict with one frame more in front. */
  function Before<J>(parsed: Option<J>, v: Verdict<J>): Verdict<J> {
    Verdict(if parsed.Some? then [parsed.value] + v.msgs else v.msgs, v.fails, v.used + 1, v.dead)
  }

  lemma ThenBefore<J>(parsed: Option<J>, v: Verdict<J>, u: Verdict<J>)
    ensures Then(Before(parsed, v), u) == Before(parsed, Then(v, u))
  {
    if parsed.Some? {
      assert ([parsed.value] + v.msgs) + u.msgs == [parsed.value] + (v.msgs + u.msgs);
    }
  }

  lemma JudgeBefore<J>(parse: seq<Byte> -> Option<J>, body: seq<Byte>, bodies: seq<seq<Byte>>, fails: nat)
    ensures Judge(parse, [body] + bodies, fails) ==
      if parse(body).Some? then Before(parse(body), Judge(parse, bodies, 0))
      else if fails + 1 >= MAX_PARSE_FAILURES then Verdict([], fails + 1, 1, true)
      else Before(None, Judge(parse, bodies, fails + 1))
  {
    JudgeCons(parse, body, bodies, fails);
    hide Judge;
  }

  lemma {:induction false} JudgeAppend<J>(parse: seq<Byte> -> Option<J>, a: seq<seq<Byte>>, b: seq<seq<Byte>>,
                                          fails: nat)
    ensures var v := Judge(parse, a, fails);
      Judge(parse, a + b, fails) == Then(v, Judge(parse, b, v.fails))
    decreases |a|
  {
    if a == [] {
      assert a + b == b;
      assert forall u: Verdict<J> :: [] + u.msgs == u.msgs;
    } else {
      var body, rest := a[0], a[1..];
      JudgeBefore(parse, body, rest, fails);
      JudgeBefore(parse, body, rest + b, fails);
      assert a == [body] + rest && a + b == [body] + (rest + b);
      hide Judge;
      if parse(body).Some? || fails + 1 < MAX_PARSE_FAILURES {
        var next := if parse(body).Some? then 0 else fails + 1;
        JudgeAppend(parse, rest, b, next);
        var v := Judge(parse, rest, next);
        hide Then, Before;
        ThenBefore(parse(body), v, Judge(parse, b, v.fails));
      }
    }
  }

  /** Three unparsable frames in a row, starting at frame `i`. */
  ghost predicate Strikes<J>(parse: seq<Byte> -> Option<J>, bodies: seq<seq<Byte>>, i: nat) {
    i + 2 < |bodies| && parse(bodies[i]).None? && parse(bodies[i + 1]).None? && parse(bodies[i + 2]).None?
  }

  ghost predicate StruckOut<J>(parse: seq<Byte> -> Option<J>, bodies: seq<seq<Byte>>) {
    exists i: nat :: Strikes(parse, bodies, i)
  }

  /** The number of unparsable frames since the last parsable one. */
  function TrailingFailures<J>(parse: seq<Byte> -> Option<J>, bodies: seq<seq<Byte>>): (n: nat)
    ensures n <= |bodies|
    ensures forall i :: |bodies| - n <= i < |bodies| ==> parse(bodies[i]).None?
    ensures n < |bodies| ==> parse(bodies[|bodies| - n - 1]).Some?
  {
    if bodies == [] || parse(bodies[|bodies| - 1]).Some? then 0
    else 1 + TrailingFailures(parse, bodies[..|bodies| - 1])
  }

  function Parsed<J>(parse: seq<Byte> -> Option<J>, bodies: seq<seq<Byte>>): seq<J> {
    if bodies == [] then []
    else
      var front := Parsed(parse, bodies[..|bodies| - 1]);
      match parse(bodies[|bodies| - 1]) case Some(j) => front + [j] case None => front
  }

  lemma JudgeOne<J>(parse: seq<Byte> -> Option<J>, body: seq<Byte>, fails: nat)
    ensures Judge(parse, [body], fails) ==
      match parse(body)
      case Some(j) => Verdict([j], 0, 1, false)
      case None => Verdict([], fails + 1, 1, fails + 1 >= MAX_PARSE_FAILURES)
  {
    JudgeCons(parse, body, [], fails);
    assert [body] + [] == [body];
  }

  /** One more frame strikes out when the two before it failed as well. */
  lemma StruckSnoc<J>(parse: seq<Byte> -> Option<J>, bodies: seq<seq<Byte>>)
    requires bodies != []
    ensures var n := |bodies| - 1;
      StruckOut(parse, bodies) <==>
        StruckOut(parse, bodies[..n]) || (n >= 2 && Strikes(parse, bodies, n - 2))
  {
    var n := |bodies| - 1;
    forall i: nat
      ensures Strikes(parse, bodies, i) <==> (i + 2 == n && Strikes(parse, bodies, i)) || Strikes(parse, bodies[..n], i)
    {
    }
  }

  /** The failure counter is the trailing run of unparsable frames, and the connection dies
      exactly at three in a row. */
  lemma {:induction false} JudgeMeaning<J>(parse: seq<Byte> -> Option<J>, bodies: seq<seq<Byte>>)
    ensures var v := Judge(parse, bodies, 0);
      && (v.dead <==> StruckOut(parse, bodies))
      && (!v.dead ==> v.fails == TrailingFailures(parse, bodies) < MAX_PARSE_FAILURES)
      && (!v.dead ==> v.msgs == Parsed(parse, bodies))
    decreases |bodies|
  {
    if bodies != [] {
      var n := |bodies| - 1;
      var front, last := bodies[..n], bodies[n];
      assert bodies == front + [last];
      JudgeMeaning(parse, front);
      JudgeAppend(parse, front, [last], 0);
      JudgeOne(parse, last, Judge(parse, front, 0).fails);
      StruckSnoc(parse, bodies);
      hide Judge, StruckOut;
      var v := Judge(parse, front, 0);
      assert !v.dead ==> (v.fails == 2 <==> n >= 2 && parse(bodies[n - 1]).None? && parse(bodies[n - 2]).None?);
    }
  }

  // ---------------------------------------------------------------- many calls

  /** Successive calls on one session until one of them returns nullopt. */
  function RunCalls<J>(parse: seq<Byte> -> Option<J>, rx: Rx, calls: seq<Drain>): Received<J>
    decreases |calls|
  {
    if calls == [] then Received(Some([]), [], rx)
    else
      var r := Receive(parse, rx, calls[0]);
      if r.msgs.None? then r
      else
        var more := RunCalls(parse, r.rx, calls[1..]);
        Received(if more.msgs.None? then None else Some(r.msgs.value + more.msgs.value), r.cut + more.cut, more.rx)
  }

  function Bytes(calls: seq<Drain>): seq<Byte> {
    if calls == [] then [] else Join(calls[0].chunks) + Bytes(calls[1..])
  }

  /** No call fills the buffer to 32 MiB and every drain ends with EAGAIN. */
  predicate Calm<J>(parse: seq<Byte> -> Option<J>, rx: Rx, calls: seq<Drain>)
    decreases |calls|
  {
    calls == [] ||
    (calls[0].end == WouldBlock
     && |rx.buf| + |Join(calls[0].chunks)| < MAX_RECV_BUF_SIZE
     && var r := Receive(parse, rx, calls[0]); r.msgs.Some? ==> Calm(parse, r.rx, calls[1..]))
  }

  lemma {:induction false} FillIsJoin(buf: seq<Byte>, chunks: seq<seq<Byte>>)
    ensures |Fill(buf, chunks)| < MAX_RECV_BUF_SIZE <==> |buf| + |Join(chunks)| < MAX_RECV_BUF_SIZE
    ensures |buf| + |Join(chunks)| < MAX_RECV_BUF_SIZE ==> Fill(buf, chunks) == buf + Join(chunks)
    decreases |chunks|
  {
    if chunks == [] {
      assert buf + [] == buf;
    } else if |buf| < MAX_RECV_BUF_SIZE {
      FillIsJoin(buf + chunks[0], chunks[1..]);
      Assoc(buf, chunks[0], Join(chunks[1..]));
    }
  }

  /** The verdict on a stream and its continuation, in the three cases the first part can
      end in: three failures, an unacceptable length, or neither. */
  lemma DigestDead<J>(parse: seq<Byte> -> Option<J>, rx: Rx, more: seq<Byte>)
    requires Judge(parse, Split(rx.buf).bodies, rx.fails).dead
    ensures var d, e := Digest(parse, rx), Digest(parse, Rx(rx.buf + more, rx.fails));
      !d.ok && !e.ok && e.cut == d.cut
  {
    hide Split, Judge;
    var c, later := Split(rx.buf), Split(Split(rx.buf).rest + more);
    SplitAppend(rx.buf, more);
    JudgeAppend(parse, c.bodies, later.bodies, rx.fails);
    var v := Judge(parse, c.bodies, rx.fails);
    assert (c.bodies + later.bodies)[..v.used] == c.bodies[..v.used];
  }

  lemma DigestBad<J>(parse: seq<Byte> -> Option<J>, rx: Rx, more: seq<Byte>)
    requires Split(rx.buf).bad
    ensures var d, e := Digest(parse, rx), Digest(parse, Rx(rx.buf + more, rx.fails));
      !d.ok && !e.ok && e.cut == d.cut
  {
    hide Split, Judge;
    BadStaysBad(rx.buf, more);
  }

  lemma DigestAlive<J>(parse: seq<Byte> -> Option<J>, rx: Rx, more: seq<Byte>)
    requires Digest(parse, rx).ok
    ensures var d, e := Digest(parse, rx), Digest(parse, Rx(rx.buf + more, rx.fails));
      var f := Digest(parse, Rx(d.rx.buf + more, d.rx.fails));
      e.ok == f.ok && e.cut == d.cut + f.cut && e.msgs == d.msgs + f.msgs && (f.ok ==> e.rx == f.rx)
  {
    hide Split, Judge, Encode;
    var c := Split(rx.buf);
    var v := Judge(parse, c.bodies, rx.fails);
    assert Digest(parse, rx) == Digested(true, v.msgs, c.bodies, Rx(c.rest, v.fails)) by {
      assert c.bodies[..v.used] == c.bodies;
    }
    var later := Split(c.rest + more);
    var u := Judge(parse, later.bodies, v.fails);
    var f, e := Digest(parse, Rx(c.rest + more, v.fails)), Digest(parse, Rx(rx.buf + more, rx.fails));
    assert e.ok == f.ok && e.cut == c.bodies + f.cut && e.msgs == v.msgs + f.msgs && (f.ok ==> e.rx == f.rx) by {
      SplitAppend(rx.buf, more);
      JudgeAppend(parse, c.bodies, later.bodies, rx.fails);
      assert (c.bodies + later.bodies)[..v.used + u.used] == c.bodies + later.bodies[..u.used];
    }
  }

  /** One digest of `buf + more` is a digest of `buf` followed by one of the leftover. */
  lemma DigestAppend<J>(parse: seq<Byte> -> Option<J>, rx: Rx, more: seq<Byte>)
    ensures var d, e := Digest(parse, rx), Digest(parse, Rx(rx.buf + more, rx.fails));
      && (!d.ok ==> !e.ok && e.cut == d.cut)
      && (d.ok ==> var f := Digest(parse, Rx(d.rx.buf + more, d.rx.fails));
            e.ok == f.ok && e.cut == d.cut + f.cut && e.msgs == d.msgs + f.msgs && (f.ok ==> e.rx == f.rx))
  {
    if Digest(parse, rx).ok {
      DigestAlive(parse, rx, more);
    } else if Split(rx.buf).bad {
      DigestBad(parse, rx, more);
    } else {
      DigestDead(parse, rx, more);
    }
  }

  /** What a run of calm calls delivers is the digest of the whole stream at once; a call
      returns nullopt exactly when the whole stream is rejected. */
  lemma {:induction false} RunIsDigest<J>(parse: seq<Byte> -> Option<J>, rx: Rx, calls: seq<Drain>)
    requires Calm(parse, rx, calls)
    requires Split(rx.buf) == Cut([], rx.buf, false)
    ensures var r, d := RunCalls(parse, rx, calls), Digest(parse, Rx(rx.buf + Bytes(calls), rx.fails));
      && (r.msgs.Some? <==> d.ok)
      && r.cut == d.cut
      && (d.ok ==> r == Received(Some(d.msgs), d.cut, d.rx))
    decreases |calls|
  {
    if calls == [] {
      assert rx.buf + [] == rx.buf;
    } else {
      var chunk, later := Join(calls[0].chunks), Bytes(calls[1..]);
      FillIsJoin(rx.buf, calls[0].chunks);
      var whole := Rx(rx.buf + chunk, rx.fails);
      var d := Digest(parse, whole);
      Assoc(rx.buf, chunk, later);
      DigestAppend(parse, whole, later);
      var r := Receive(parse, rx, calls[0]);
      assert r.msgs.Some? <==> d.ok;
      if d.ok {
        RestIsShort(whole.buf);
        RunIsDigest(parse, d.rx, calls[1..]);
      }
    }
  }

  /** Chunk independence: two ways of cutting the same bytes into reads and calls agree on
      whether the connection survives and, if it does, on everything delivered and kept. */
  lemma ChunkIndependence<J>(parse: seq<Byte> -> Option<J>, a: seq<Drain>, b: seq<Drain>)
    requires Calm(parse, Rx([], 0), a) && Calm(parse, Rx([], 0), b)
    requires Bytes(a) == Bytes(b)
    ensures var r, q := RunCalls(parse, Rx([], 0), a), RunCalls(parse, Rx([], 0), b);
      && r.msgs.Some? == q.msgs.Some?
      && r.cut == q.cut
      && (r.msgs.Some? ==> r == q)
  {
    RunIsDigest(parse, Rx([], 0), a);
    RunIsDigest(parse, Rx([], 0), b);
  }

  /** The same, against the whole stream alone: a connection survives exactly when every
      length field is acceptable and no three frames in a row are unparsable. */
  lemma StreamMeaning<J>(parse: seq<Byte> -> Option<J>, calls: seq<Drain>)
    requires Calm(parse, Rx([], 0), calls)
    ensures var r, c := RunCalls(parse, Rx([], 0), calls), Split(Bytes(calls));
      && (r.msgs.Some? <==> !c.bad && !StruckOut(parse, c.bodies))
      && (r.msgs.Some? ==>
            r == Received(Some(Parsed(parse, c.bodies)), c.bodies, Rx(c.rest, TrailingFailures(parse, c.bodies))))
  {
    assert [] + Bytes(calls) == Bytes(calls);
    RunIsDigest(parse, Rx([], 0), calls);
    JudgeMeaning(parse, Split(Bytes(calls)).bodies);
  }

  /** A call on a session whose earlier calls succeeded is calm if it brings less than
      16 MiB - 3 bytes, whatever came before. */
  lemma SmallDrainsAreCalm<J>(parse: seq<Byte> -> Option<J>, rx: Rx, calls: seq<Drain>)
    requires |rx.buf| <= MAX_BODY_LEN + 3
    requires forall i :: 0 <= i < |calls| ==> calls[i].end == WouldBlock && |Join(calls[i].chunks)| < MAX_BODY_LEN - 3
    ensures Calm(parse, rx, calls)
    decreases |calls|
  {
    if calls != [] {
      var r := Receive(parse, rx, calls[0]);
      if r.msgs.Some? {
        FillIsJoin(rx.buf, calls[0].chunks);
        RestIsShort(rx.buf + Join(calls[0].chunks));
        forall i | 0 <= i < |calls[1..]|
          ensures calls[1..][i].end == WouldBlock && |Join(calls[1..][i].chunks)| < MAX_BODY_LEN - 3
        {
          assert calls[1..][i] == calls[i + 1];
        }
        SmallDrainsAreCalm(parse, r.rx, calls[1..]);
      }
    }
  }

  // ---------------------------------------------------------------- bounds and close

  /** After a successful call the buffer holds less than one frame, and the counter is
      below three. */
  lemma KeptIsShort<J>(parse: seq<Byte> -> Option<J>, rx: Rx, d: Drain)
    requires rx.fails < MAX_PARSE_FAILURES
    ensures var r := Receive(parse, rx, d);
      r.msgs.Some? ==>
        && |r.rx.buf| <= MAX_BODY_LEN + 3
        && Split(r.rx.buf) == Cut([], r.rx.buf, false)
        && r.rx.fails < MAX_PARSE_FAILURES
  {
    RestIsShort(Fill(rx.buf, d.chunks));
  }

  /** The peer has closed: everything complete was delivered by this call, and the call
      after it finds nothing and ends the connection. */
  lemma CloseEndsSession<J>(parse: seq<Byte> -> Option<J>, rx: Rx, d: Drain)
    requires d.end == PeerClosed
    ensures var r := Receive(parse, rx, d);
      && (r.msgs.Some? ==> r.msgs.value == Judge(parse, Split(Fill(rx.buf, d.chunks)).bodies, rx.fails).msgs)
      && (r.msgs.Some? ==> Receive(parse, r.rx, Drain([], PeerClosed)).msgs.None?)
  {
    RestIsShort(Fill(rx.buf, d.chunks));
  }

  /** Exactly when a call returns nullopt. */
  lemma NulloptExactly<J>(parse: seq<Byte> -> Option<J>, rx: Rx, d: Drain)
    ensures var all := Digest(parse, Rx(rx.buf + Join(d.chunks), rx.fails));
      Receive(parse, rx, d).msgs.None? <==>
        || |rx.buf| + |Join(d.chunks)| >= MAX_RECV_BUF_SIZE
        || d.end == Failed
        || !all.ok
        || (d.end == PeerClosed && all.msgs == [])
  {
    FillIsJoin(rx.buf, d.chunks);
  }
}
