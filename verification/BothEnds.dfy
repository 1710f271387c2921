/**
  The two ends of one connection: what the client makes of a stream in arbitrary pieces,
  agreement of the two frame splitters, and round trips in both directions.
*/
module BothEnds {
  import opened Framing
  import opened Wrappers
  import opened Protocol
  import opened ServerStream
  import opened ChatClient

  // ---------------------------------------------------------------- the client, in pieces

  /** Successive readyRead slots; after a rejection the socket is aborted and none fires. */
  function Feed<J>(reader: JsonReader<J>, rx: ClientRx<J>, pieces: seq<seq<Byte>>): ClientRx<J>
    decreases |pieces|
  {
    if pieces == [] || !rx.connected then rx
    else Feed(reader, Process(reader, rx.(buf := rx.buf + pieces[0])), pieces[1..])
  }

  lemma {:induction false} ObjectsAppend<J>(reader: JsonReader<J>, a: seq<seq<Byte>>, b: seq<seq<Byte>>)
    ensures Objects(reader, a + b) == Objects(reader, a) + Objects(reader, b)
    decreases |a|
  {
    if a == [] {
      assert a + b == b;
    } else {
      assert (a + b)[1..] == a[1..] + b;
      ObjectsAppend(reader, a[1..], b);
    }
  }

  /** One more frame adds its value to what is dispatched when it parses to an object, and
      nothing when it does not parse or is some other value. */
  lemma ObjectsGrow<J>(reader: JsonReader<J>, bodies: seq<seq<Byte>>, body: seq<Byte>)
    ensures Objects(reader, []) == []
    ensures Objects(reader, bodies + [body]) ==
      if reader.fromJson(body).Some? && reader.isObject(reader.fromJson(body).value) then
        Objects(reader, bodies) + [reader.fromJson(body).value]
      else Objects(reader, bodies)
  {
    ObjectsAppend(reader, bodies, [body]);
    assert [body][1..] == [];
    assert Objects(reader, bodies) + [] == Objects(reader, bodies);
  }

  /** A stream of legal frames, processed from the beginning. */
  lemma ProcessFramed<J>(reader: JsonReader<J>, bodies: seq<seq<Byte>>)
    requires AllLegal(bodies)
    ensures Process(reader, ClientRx(true, Encode(bodies), [], [])) ==
      ClientRx(true, [], Objects(reader, bodies), bodies)
  {
    SplitUnique(bodies, []);
    assert Encode(bodies) + [] == Encode(bodies);
    assert [] + Objects(reader, bodies) == Objects(reader, bodies) && [] + bodies == bodies;
  }

  /** A frame that is not JSON, or JSON but no object, leaves no trace: it neither disconnects
      the client nor changes what is dispatched before or after it. */
  lemma SkippedLeavesNoTrace<J>(reader: JsonReader<J>, before: seq<seq<Byte>>, body: seq<Byte>, after: seq<seq<Byte>>)
    requires AllLegal(before) && LegalBody(body) && AllLegal(after)
    requires reader.fromJson(body).None? || !reader.isObject(reader.fromJson(body).value)
    ensures var with := Process(reader, ClientRx(true, Encode(before + [body] + after), [], []));
      var without := Process(reader, ClientRx(true, Encode(before + after), [], []));
      with.connected && without.connected && with.dispatched == without.dispatched && with.buf == without.buf == []
  {
    LegalAppend(before, after);
    LegalAppend(before, [body]);
    LegalAppend(before + [body], after);
    assert LegalBody([body][0]);
    ProcessFramed(reader, before + [body] + after);
    ProcessFramed(reader, before + after);
    ObjectsAppend(reader, before + [body], after);
    ObjectsAppend(reader, before, [body]);
    ObjectsAppend(reader, before, after);
    assert Objects(reader, [body]) == [];
    assert Objects(reader, before) + [] == Objects(reader, before);
  }

  /** Processing a buffer and later its leftover with more bytes is processing everything
      at once; after a rejection more bytes would have changed nothing. */
  lemma ProcessAppend<J>(reader: JsonReader<J>, rx: ClientRx<J>, more: seq<Byte>)
    ensures var p := Process(reader, rx);
      Process(reader, rx.(buf := rx.buf + more)) == if p.connected then Process(reader, p.(buf := p.buf + more)) else p
  {
    hide Split, Objects;
    var c := Split(rx.buf);
    if c.bad {
      BadStaysBad(rx.buf, more);
    } else {
      var d := Split(c.rest + more);
      SplitAppend(rx.buf, more);
      ObjectsAppend(reader, c.bodies, d.bodies);
      var a, b := Objects(reader, c.bodies), Objects(reader, d.bodies);
      assert rx.dispatched + (a + b) == (rx.dispatched + a) + b;
      assert rx.cut + (c.bodies + d.bodies) == (rx.cut + c.bodies) + d.bodies;
    }
  }

  /** Whatever the pieces, the client dispatches the objects among the frames of the stream,
      in order, and drops the connection exactly at an unacceptable length. */
  lemma {:induction false} ClientMeaning<J>(reader: JsonReader<J>, rx: ClientRx<J>, pieces: seq<seq<Byte>>)
    requires rx.connected && Split(rx.buf) == Cut([], rx.buf, false)
    ensures Feed(reader, rx, pieces) == Process(reader, rx.(buf := rx.buf + Join(pieces)))
    decreases |pieces|
  {
    if pieces == [] {
      assert rx.buf + [] == rx.buf;
      assert rx.dispatched + [] == rx.dispatched && rx.cut + [] == rx.cut;
    } else {
      var p := Process(reader, rx.(buf := rx.buf + pieces[0]));
      Assoc(rx.buf, pieces[0], Join(pieces[1..]));
      ProcessAppend(reader, rx.(buf := rx.buf + pieces[0]), Join(pieces[1..]));
      if p.connected {
        RestIsShort(rx.buf + pieces[0]);
        ClientMeaning(reader, p, pieces[1..]);
      }
    }
  }

  // ---------------------------------------------------------------- the two splitters

  /** The frames looked at before the third failure already contain it. */
  lemma {:induction false} DeadPrefix<J>(parse: seq<Byte> -> Option<J>, bodies: seq<seq<Byte>>, fails: nat)
    requires Judge(parse, bodies, fails).dead
    ensures Judge(parse, bodies[..Judge(parse, bodies, fails).used], fails).dead
    decreases |bodies|
  {
    var v := Judge(parse, bodies, fails);
    assert bodies[..v.used][1..] == bodies[1..][..v.used - 1];
    if parse(bodies[0]).Some? {
      DeadPrefix(parse, bodies[1..], 0);
    } else if fails + 1 < MAX_PARSE_FAILURES {
      DeadPrefix(parse, bodies[1..], fails + 1);
    }
  }

  /** On one stream, each end reading it in its own pieces: the server cuts a prefix of the
      frames the client cuts, all of them while the server accepts; and if the client
      rejects a length, the server has rejected at that frame or an earlier one. */
  lemma SplittersAgree<J, K>(parse: seq<Byte> -> Option<J>, calls: seq<Drain>,
                             reader: JsonReader<K>, pieces: seq<seq<Byte>>)
    requires Calm(parse, Rx([], 0), calls)
    requires Bytes(calls) == Join(pieces)
    ensures var server, client := RunCalls(parse, Rx([], 0), calls), Feed(reader, ClientRx(true, [], [], []), pieces);
      && |server.cut| <= |client.cut| && server.cut == client.cut[..|server.cut|]
      && (server.msgs.Some? ==> server.cut == client.cut && client.connected && client.buf == server.rx.buf)
      && (!client.connected ==> server.msgs.None?)
      && (server.msgs.None? && client.connected ==> StruckOut(parse, server.cut))
  {
    hide Split, Judge, RunCalls, Feed, Join, Encode;
    var stream := Join(pieces);
    assert [] + stream == stream;
    SplitNothing();
    RunIsDigest(parse, Rx([], 0), calls);
    ClientMeaning(reader, ClientRx(true, [], [], []), pieces);
    var frames := Split(stream).bodies;
    var v := Judge(parse, frames, 0);
    if v.dead {
      DeadPrefix(parse, frames, 0);
      JudgeMeaning(parse, frames[..v.used]);
    }
  }

  // ---------------------------------------------------------------- server to client

  function Bodies<J>(dump: J -> Option<seq<Byte>>, msgs: seq<J>): seq<seq<Byte>>
    requires forall m <- msgs :: dump(m).Some?
  {
    if msgs == [] then [] else [dump(msgs[0]).value] + Bodies(dump, msgs[1..])
  }

  /** What the client reads back from what the server dumps is the same object. */
  ghost predicate ServerToClient<J(!new)>(dump: J -> Option<seq<Byte>>, reader: JsonReader<J>) {
    forall m :: dump(m).Some? ==> dump(m).value != [] && reader.Message(dump(m).value) == Some(m)
  }

  /** The messages send_msg puts on the wire: they serialize, to at most 16 MiB. */
  ghost predicate Sendable<J>(dump: J -> Option<seq<Byte>>, msgs: seq<J>) {
    forall m <- msgs :: dump(m).Some? && |dump(m).value| <= MAX_BODY_LEN
  }

  lemma {:induction false} BodiesReadBack<J(!new)>(dump: J -> Option<seq<Byte>>, reader: JsonReader<J>, msgs: seq<J>)
    requires ServerToClient(dump, reader) && Sendable(dump, msgs)
    ensures AllLegal(Bodies(dump, msgs))
    ensures Objects(reader, Bodies(dump, msgs)) == msgs
    ensures |Bodies(dump, msgs)| == |msgs|
    decreases |msgs|
  {
    if msgs != [] {
      var b, bs := dump(msgs[0]).value, Bodies(dump, msgs[1..]);
      assert msgs[0] in msgs;
      BodiesReadBack(dump, reader, msgs[1..]);
      LegalAppend([b], bs);
      assert ([b] + bs)[1..] == bs;
    }
  }

  /** Round trip, server to client: the frames of any list of sendable messages, delivered
      in any pieces, make the client dispatch exactly those messages in order and keep
      nothing. */
  lemma ServerMessagesArrive<J(!new)>(dump: J -> Option<seq<Byte>>, reader: JsonReader<J>, msgs: seq<J>,
                               pieces: seq<seq<Byte>>)
    requires ServerToClient(dump, reader) && Sendable(dump, msgs)
    requires Join(pieces) == Encode(Bodies(dump, msgs))
    ensures Feed(reader, ClientRx(true, [], [], []), pieces) == ClientRx(true, [], msgs, Bodies(dump, msgs))
  {
    hide Split, Objects, Feed, Join;
    var bodies := Bodies(dump, msgs);
    SplitNothing();
    assert Encode(bodies) + [] == Encode(bodies) && [] + Encode(bodies) == Encode(bodies);
    BodiesReadBack(dump, reader, msgs);
    SplitUnique(bodies, []);
    ClientMeaning(reader, ClientRx(true, [], [], []), pieces);
  }

  // ---------------------------------------------------------------- client to server

  function ClientBodies<J>(toJson: J -> seq<Byte>, msgs: seq<J>): seq<seq<Byte>> {
    if msgs == [] then [] else [toJson(msgs[0])] + ClientBodies(toJson, msgs[1..])
  }

  ghost predicate ClientToServer<J(!new)>(toJson: J -> seq<Byte>, parse: seq<Byte> -> Option<J>) {
    forall m :: toJson(m) != [] && parse(toJson(m)) == Some(m)
  }

  lemma {:induction false} ClientBodiesParse<J(!new)>(toJson: J -> seq<Byte>, parse: seq<Byte> -> Option<J>,
                                               msgs: seq<J>)
    requires ClientToServer(toJson, parse)
    ensures Judge(parse, ClientBodies(toJson, msgs), 0) == Verdict(msgs, 0, |msgs|, false)
    ensures |ClientBodies(toJson, msgs)| == |msgs|
    ensures forall i :: 0 <= i < |msgs| ==> ClientBodies(toJson, msgs)[i] == toJson(msgs[i])
    decreases |msgs|
  {
    if msgs != [] {
      var bodies := ClientBodies(toJson, msgs);
      assert bodies[1..] == ClientBodies(toJson, msgs[1..]);
      ClientBodiesParse(toJson, parse, msgs[1..]);
    }
  }

  /** Round trip, client to server: the server hands over exactly the messages the client
      sent, in order, keeps nothing and counts no failure. */
  lemma ClientMessagesArrive<J(!new)>(toJson: J -> seq<Byte>, parse: seq<Byte> -> Option<J>, msgs: seq<J>,
                               calls: seq<Drain>)
    requires ClientToServer(toJson, parse)
    requires forall m <- msgs :: |toJson(m)| <= MAX_BODY_LEN
    requires Calm(parse, Rx([], 0), calls)
    requires Bytes(calls) == Encode(ClientBodies(toJson, msgs))
    ensures var r := RunCalls(parse, Rx([], 0), calls);
      r.msgs == Some(msgs) && r.rx == Rx([], 0)
  {
    hide Split, RunCalls, Encode;
    var bodies := ClientBodies(toJson, msgs);
    SplitNothing();
    assert Encode(bodies) + [] == Encode(bodies) && [] + Encode(bodies) == Encode(bodies);
    ClientBodiesParse(toJson, parse, msgs);
    assert AllLegal(bodies) by {
      forall i | 0 <= i < |bodies| ensures LegalBody(bodies[i]) {
        assert bodies[i] == toJson(msgs[i]) && msgs[i] in msgs;
      }
    }
    SplitUnique(bodies, []);
    RunIsDigest(parse, Rx([], 0), calls);
  }
}
