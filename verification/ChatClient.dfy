/**
  The client's own framing code (client/src/chat_client.cpp): a second parser of the same
  format, which skips what it cannot parse, never counts failures and hands over one
  message at a time instead of a list per call.
*/
module ChatClient {
  import opened Framing
  import opened Wrappers

  /** QJsonDocument::fromJson followed by isObject(). */
  datatype JsonReader<!J> = JsonReader(fromJson: seq<Byte> -> Option<J>, isObject: J -> bool) {
    function Message(body: seq<Byte>): Option<J> {
      match fromJson(body)
      case Some(j) => if isObject(j) then Some(j) else None
      case None => None
    }
  }

  /** The messages dispatched for a list of frame bodies. */
  function Objects<J>(reader: JsonReader<J>, bodies: seq<seq<Byte>>): seq<J> {
    if bodies == [] then []
    else
      (match reader.Message(bodies[0]) case Some(j) => [j] case None => []) + Objects(reader, bodies[1..])
  }

  /** The client after it has looked at everything in its buffer: `dispatched` and `cut` list
      the messages and the frame bodies of the connection so far. */
  datatype ClientRx<!J> = ClientRx(connected: bool, buf: seq<Byte>, dispatched: seq<J>, cut: seq<seq<Byte>>)

  function Process<J>(reader: JsonReader<J>, rx: ClientRx<J>): ClientRx<J> {
    var c := Split(rx.buf);
    ClientRx(!c.bad, if c.bad then [] else c.rest, rx.dispatched + Objects(reader, c.bodies), rx.cut + c.bodies)
  }

  /** One turn of the loop leaves the outcome of the whole loop unchanged. */
  lemma ProcessStep<J>(reader: JsonReader<J>, rx: ClientRx<J>)
    requires rx.connected
    ensures Unfinished(rx.buf) ==> Process(reader, rx) == rx
    ensures Poisoned(rx.buf) ==> Process(reader, rx) == rx.(connected := false, buf := [])
    ensures !Unfinished(rx.buf) && !Poisoned(rx.buf) ==>
      var n := 4 + Be32(rx.buf);
      var body := rx.buf[4..n];
      var dispatched := match reader.Message(body) case Some(j) => rx.dispatched + [j] case None => rx.dispatched;
      Process(reader, rx) == Process(reader, ClientRx(true, rx.buf[n..], dispatched, rx.cut + [body]))
  {
    if !Unfinished(rx.buf) && !Poisoned(rx.buf) {
      var n := 4 + Be32(rx.buf);
      var body, c, d := rx.buf[4..n], Split(rx.buf), Split(rx.buf[n..]);
      assert c.bodies[0] == body && c.bodies[1..] == d.bodies;
      assert rx.cut + ([body] + d.bodies) == (rx.cut + [body]) + d.bodies;
      var tail := Objects(reader, d.bodies);
      if reader.Message(body).Some? {
        var j := reader.Message(body).value;
        assert rx.dispatched + ([j] + tail) == (rx.dispatched + [j]) + tail;
      } else {
        assert [] + tail == tail;
      }
    }
  }

  /** The client's four shift-and-mask bytes are the server's htonl() bytes. */
  lemma ShiftsAreHeader(n: nat)
    ensures var m := n % UINT32;
      Header(n) == [m / 0x100_0000 % 0x100, m / 0x1_0000 % 0x100, m / 0x100 % 0x100, m % 0x100]
  {
    var m := n % UINT32;
    assert m / 256 / 256 == m / 0x1_0000;
    assert m / 0x1_0000 / 256 == m / 0x100_0000;
  }

  class ChatClient<J> {
    const reader: JsonReader<J>
    var connected: bool
    var recvBuf: seq<Byte>
    /** Every message handed to dispatch_message so far. */
    var dispatched: seq<J>
    /** Every frame body cut out of the buffer so far. */
    ghost var cut: seq<seq<Byte>>
    /** Every byte accepted by the socket for sending. */
    var written: seq<Byte>

    constructor (reader: JsonReader<J>)
      ensures this.reader == reader
      ensures View() == ClientRx(true, [], [], []) && written == []
    {
      this.reader := reader;
      connected, recvBuf, dispatched, cut, written := true, [], [], [], [];
    }

    ghost function View(): ClientRx<J>
      reads this
    {
      ClientRx(connected, recvBuf, dispatched, cut)
    }

    method DisconnectFromServer()
      modifies this`connected
      ensures !connected
    {
      connected := false;
    }

    method OnReadyRead(data: seq<Byte>)
      requires connected
      modifies this`recvBuf, this`dispatched, this`connected, this`cut
      ensures View() == Process(reader, old(View()).(buf := old(recvBuf) + data))
    {
      recvBuf := recvBuf + data;
      ProcessFrames();
    }

    method ProcessFrames()
      requires connected
      modifies this`recvBuf, this`dispatched, this`connected, this`cut
      ensures View() == Process(reader, old(View()))
    {
      hide Process, Split;
      while |recvBuf| >= 4
        invariant connected
        invariant Process(reader, old(View())) == Process(reader, View())
        decreases |recvBuf|
      {
        ProcessStep(reader, View());
        var bodyLen := Be32(recvBuf);
        if bodyLen == 0 {
          recvBuf := [];
          DisconnectFromServer();
          return;
        }
        if bodyLen > MAX_BODY_LEN {
          recvBuf := [];
          DisconnectFromServer();
          return;
        }
        if |recvBuf| < 4 + bodyLen {
          break;
        }
        var jsonData := recvBuf[4..4 + bodyLen];
        recvBuf := recvBuf[4 + bodyLen..];
        cut := cut + [jsonData];
        var parsed := reader.fromJson(jsonData);
        if parsed.None? {
          continue;
        }
        if !reader.isObject(parsed.value) {
          continue;
        }
        dispatched := dispatched + [parsed.value];
      }
      ProcessStep(reader, View());
    }

    /** `body` is the compact serialization of the message; `accepted` is what the socket's
        write() answers, -1 or a number of bytes. */
    method SendJson(body: seq<Byte>, accepted: int) returns (ok: bool)
      requires -1 <= accepted <= 4 + |body|
      modifies this`written
      ensures !connected ==> !ok && written == old(written)
      ensures connected ==> (ok <==> accepted == |Frame(body)|)
      ensures connected ==> written == old(written) + Frame(body)[..if accepted < 0 then 0 else accepted]
    {
      if !connected {
        return false;
      }
      var bodyLen := |body| % UINT32;
      var frame: seq<Byte> := [];
      frame := frame + [bodyLen / 0x100_0000 % 0x100];
      frame := frame + [bodyLen / 0x1_0000 % 0x100];
      frame := frame + [bodyLen / 0x100 % 0x100];
      frame := frame + [bodyLen % 0x100];
      ShiftsAreHeader(|body|);
      frame := frame + body;
      written := written + frame[..if accepted < 0 then 0 else accepted];
      ok := accepted == |frame|;
    }
  }
}
