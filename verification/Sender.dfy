/**
  Writing frames to a socket (server/src/protocol.cpp: write_all and send_msg).

  The kernel is a script of answers to send().  A socket that failed or was shut down stays
  failed.  Script exhaustion stands for EAGAIN past the 5-second deadline.
*/
module Sender {
  import opened Framing
  import opened Wrappers

  /** The bytes the kernel has accepted for a connection, and whether it accepts more. */
  datatype Wire = Wire(bytes: seq<Byte>, open: bool)

  /** `Sent(0)` is the unexpected zero-byte send. */
  datatype SendEvent = Sent(n: nat) | TryLater(expired: bool) | Broken

  /** One turn of the send loop: still going with `sent` bytes written, or given up. */
  datatype Turn = Going(wire: Wire, sent: nat) | GaveUp(wire: Wire)

  function Push(w: Wire, data: seq<Byte>, sent: nat, ev: SendEvent): (t: Turn)
    requires sent < |data|
    ensures t.Going? ==> sent <= t.sent <= |data| && w.open && t.wire == Wire(w.bytes + data[sent..t.sent], true)
    ensures t.GaveUp? ==> t.wire.bytes == w.bytes && (t.wire.open ==> w.open && ev == Sent(0))
  {
    if !w.open then GaveUp(w)
    else
      match ev
      case TryLater(expired) =>
        if expired then GaveUp(w.(open := false)) else Going(Wire(w.bytes + data[sent..sent], true), sent)
      case Broken => GaveUp(w.(open := false))
      case Sent(n) =>
        if n == 0 then GaveUp(w)
        else
          var m := if n < |data| - sent then sent + n else |data|;
          Going(Wire(w.bytes + data[sent..m], true), m)
  }

  datatype Written = Written(wire: Wire, ok: bool, script: seq<SendEvent>)

  /** write_all from the point where `sent` bytes are out, with the answers left over. */
  function WriteRun(w: Wire, data: seq<Byte>, sent: nat, script: seq<SendEvent>): Written
    requires sent <= |data|
    decreases |script|
  {
    if sent == |data| then Written(w, true, script)
    else if script == [] then Written(w.(open := false), false, [])
    else
      match Push(w, data, sent, script[0])
      case GaveUp(w') => Written(w', false, script[1..])
      case Going(w', sent') => WriteRun(w', data, sent', script[1..])
  }

  class Socket {
    var bytes: seq<Byte>
    var open: bool

    ghost function View(): Wire
      reads this
    {
      Wire(bytes, open)
    }

    constructor ()
      ensures View() == Wire([], true)
    {
      bytes, open := [], true;
    }

    /** ::send(): how many bytes were taken, or -1 for an error, and whether that is EAGAIN. */
    method Send(data: seq<Byte>, ev: SendEvent) returns (n: int, again: bool)
      requires data != []
      modifies this
      ensures again ==> n == -1 && ev.TryLater? && old(open)
      ensures n >= 0 ==> old(open) && ev.Sent? && n == (if ev.n < |data| then ev.n else |data|)
      ensures -1 <= n
      ensures View() == if n >= 0 then Wire(old(bytes) + data[..n], true)
                        else if again then old(View()) else Wire(old(bytes), false)
      ensures n == -1 && !again ==> !old(open) || ev.Broken?
    {
      if !open {
        return -1, false;
      }
      match ev
      case TryLater(_) => return -1, true;
      case Broken =>
        open := false;
        return -1, false;
      case Sent(m) =>
        n := if m < |data| then m else |data|;
        bytes := bytes + data[..n];
        return n, false;
    }

    method Shutdown()
      modifies this`open
      ensures !open
    {
      open := false;
    }
  }

  method WriteAll(sock: Socket, data: seq<Byte>, script: seq<SendEvent>) returns (ok: bool, left: seq<SendEvent>)
    modifies sock
    ensures Written(sock.View(), ok, left) == WriteRun(old(sock.View()), data, 0, script)
  {
    var sent := 0;
    left := script;
    while sent < |data|
      invariant 0 <= sent <= |data|
      invariant WriteRun(old(sock.View()), data, 0, script) == WriteRun(sock.View(), data, sent, left)
      decreases |left|, |data| - sent
    {
      if left == [] {
        sock.Shutdown();
        return false, [];
      }
      var ev := left[0];
      ghost var before := sock.View();
      var n, again := sock.Send(data[sent..], ev);
      left := left[1..];
      if n < 0 {
        if again {
          if ev.expired {
            sock.Shutdown();
            return false, left;
          }
          assert before.bytes + data[sent..sent] == before.bytes;
          continue;
        }
        return false, left;
      }
      if n == 0 {
        return false, left;
      }
      assert data[sent..][..n] == data[sent..sent + n];
      sent := sent + n;
    }
    ok := true;
  }

  /** send_msg of a serialized body: the header, then the body, each by its own write_all. */
  function SendRun(w: Wire, body: seq<Byte>, script: seq<SendEvent>): Written {
    var h := WriteRun(w, Header(|body|), 0, script);
    if !h.ok then h else WriteRun(h.wire, body, 0, h.script)
  }

  /** `dumped` is what msg.dump() gives, None when it throws. */
  method SendMsg(sock: Socket, dumped: Option<seq<Byte>>, script: seq<SendEvent>) returns (ok: bool)
    modifies sock
    ensures dumped.None? || |dumped.value| > MAX_BODY_LEN ==> !ok && sock.View() == old(sock.View())
    ensures dumped.Some? && |dumped.value| <= MAX_BODY_LEN ==>
      var r := SendRun(old(sock.View()), dumped.value, script); sock.View() == r.wire && ok == r.ok
  {
    if dumped.None? {
      return false;
    }
    var body := dumped.value;
    if |body| > MAX_BODY_LEN {
      return false;
    }
    var left;
    ok, left := WriteAll(sock, Header(|body|), script);
    if !ok {
      return false;
    }
    ok, left := WriteAll(sock, body, left);
  }

  /** write_all puts out a prefix of its data: all of it exactly when it returns true.  If
      it fails and the socket still works, some send() took zero bytes. */
  lemma {:induction false} WriteRunMeaning(w: Wire, data: seq<Byte>, sent: nat, script: seq<SendEvent>)
    returns (upTo: nat)
    requires sent <= |data|
    ensures var r := WriteRun(w, data, sent, script);
      && sent <= upTo <= |data| && (r.ok <==> upTo == |data|)
      && r.wire.bytes == w.bytes + data[sent..upTo]
      && (r.ok ==> r.wire.open == w.open)
      && (!r.ok && r.wire.open ==> Sent(0) in script)
      && (forall ev <- r.script :: ev in script)
    decreases |script|
  {
    upTo := sent;
    if sent < |data| && script != [] {
      var t := Push(w, data, sent, script[0]);
      if t.Going? {
        upTo := WriteRunMeaning(t.wire, data, t.sent, script[1..]);
        assert data[sent..t.sent] + data[t.sent..upTo] == data[sent..upTo];
        Assoc(w.bytes, data[sent..t.sent], data[t.sent..upTo]);
      }
    }
  }

  /** send_msg puts out a prefix of one frame: the whole frame exactly when it returns
      true. */
  lemma SendRunMeaning(w: Wire, body: seq<Byte>, script: seq<SendEvent>) returns (upTo: nat)
    ensures var r := SendRun(w, body, script);
      && upTo <= |Frame(body)| && r.wire.bytes == w.bytes + Frame(body)[..upTo]
      && (body != [] ==> (r.ok <==> upTo == |Frame(body)|))
      && (!r.ok && r.wire.open ==> Sent(0) in script)
  {
    hide WriteRun;
    var head := Header(|body|);
    var h := WriteRun(w, head, 0, script);
    upTo := WriteRunMeaning(w, head, 0, script);
    assert Frame(body)[..upTo] == head[0..upTo];
    if h.ok {
      var n := WriteRunMeaning(h.wire, body, 0, h.script);
      upTo := 4 + n;
      assert Frame(body)[..upTo] == head[0..4] + body[0..n];
      Assoc(w.bytes, head[0..4], body[0..n]);
    }
  }

  // ---------------------------------------------------------------- one send() at a time

  /** One send() of send_msg when `k` bytes of the frame are out; no send() spans the end
      of the header. */
  function SendTurn(w: Wire, body: seq<Byte>, k: nat, ev: SendEvent): (t: Turn)
    requires k < 4 + |body|
    ensures t.Going? ==> k <= t.sent <= 4 + |body|
  {
    if k < 4 then Push(w, Header(|body|), k, ev)
    else match Push(w, body, k - 4, ev) case GaveUp(w') => GaveUp(w') case Going(w', j) => Going(w', 4 + j)
  }

  lemma HeaderSlice(body: seq<Byte>, i: nat, j: nat)
    requires i <= j <= 4
    ensures Frame(body)[i..j] == Header(|body|)[i..j]
  {
    hide Header;
  }

  lemma BodySlice(body: seq<Byte>, i: nat, j: nat)
    requires i <= j <= |body|
    ensures Frame(body)[4 + i..4 + j] == body[i..j]
  {
    hide Header;
  }

  /** A turn puts out the next bytes of the frame, or nothing. */
  lemma SendTurnMeaning(w: Wire, body: seq<Byte>, k: nat, ev: SendEvent)
    requires k < 4 + |body|
    ensures var t := SendTurn(w, body, k, ev);
      && (t.Going? ==> w.open && t.wire == Wire(w.bytes + Frame(body)[k..t.sent], true))
      && (t.GaveUp? ==> t.wire.bytes == w.bytes && (t.wire.open ==> w.open && ev == Sent(0)))
  {
    hide Header, Frame, Push;
    var t := SendTurn(w, body, k, ev);
    if t.Going? {
      if k < 4 {
        HeaderSlice(body, k, t.sent);
      } else {
        BodySlice(body, k - 4, t.sent - 4);
      }
    }
  }

  /** send_msg as a sequence of single sends. */
  function TurnRun(w: Wire, body: seq<Byte>, k: nat, script: seq<SendEvent>): Written
    requires k <= 4 + |body|
    decreases |script|
  {
    if k == 4 + |body| then Written(w, true, script)
    else if script == [] then Written(w.(open := false), false, [])
    else
      match SendTurn(w, body, k, script[0])
      case GaveUp(w') => Written(w', false, script[1..])
      case Going(w', k') => TurnRun(w', body, k', script[1..])
  }

  lemma {:induction false} BodyTurns(w: Wire, body: seq<Byte>, k: nat, script: seq<SendEvent>)
    requires 4 <= k <= 4 + |body|
    ensures TurnRun(w, body, k, script) == WriteRun(w, body, k - 4, script)
    decreases |script|
  {
    if k < 4 + |body| && script != [] {
      var t := SendTurn(w, body, k, script[0]);
      if t.Going? {
        BodyTurns(t.wire, body, t.sent, script[1..]);
      }
    }
  }

  /** Sending turn by turn is send_msg. */
  lemma {:induction false} TurnsAreSendMsg(w: Wire, body: seq<Byte>, k: nat, script: seq<SendEvent>)
    requires k <= 4
    ensures var h := WriteRun(w, Header(|body|), k, script);
      TurnRun(w, body, k, script) == if h.ok then WriteRun(h.wire, body, 0, h.script) else h
    decreases |script|
  {
    if k == 4 {
      BodyTurns(w, body, 4, script);
    } else if script != [] {
      var t := SendTurn(w, body, k, script[0]);
      if t.Going? {
        TurnsAreSendMsg(t.wire, body, t.sent, script[1..]);
      }
    }
  }

  /** How far a frame of `len` bytes gets from byte `k` on a working socket: each send() takes
      as much as the kernel grants of the header, then of the body.  EAGAIN within the deadline
      costs nothing; an error, an expired deadline or a send() of zero bytes ends it. */
  function Reach(k: nat, len: nat, script: seq<SendEvent>): (n: nat)
    requires k <= len && 4 <= len
    ensures k <= n <= len
    decreases |script|
  {
    if k == len || script == [] then k
    else
      match script[0]
      case Broken => k
      case TryLater(expired) => if expired then k else Reach(k, len, script[1..])
      case Sent(m) =>
        if m == 0 then k
        else
          var end := if k < 4 then 4 else len;
          Reach(if k + m < end then k + m else end, len, script[1..])
  }

  /** What one send() does to a working socket, said of `Reach`. */
  lemma TurnReaches(w: Wire, body: seq<Byte>, k: nat, script: seq<SendEvent>)
    requires k < 4 + |body| && w.open && script != []
    ensures var len, t := 4 + |body|, SendTurn(w, body, k, script[0]);
      Reach(k, len, script) == if t.Going? then Reach(t.sent, len, script[1..]) else k
  {
    hide Header;
  }

  lemma {:induction false} TurnsReach(w: Wire, body: seq<Byte>, k: nat, script: seq<SendEvent>)
    requires k <= 4 + |body| && w.open
    ensures var r, n := TurnRun(w, body, k, script), Reach(k, 4 + |body|, script);
      && k <= n <= 4 + |body|
      && (r.ok <==> n == 4 + |body|)
      && r.wire.bytes == w.bytes + Frame(body)[k..n]
    decreases |script|
  {
    hide Header, Frame, SendTurn;
    if k < 4 + |body| && script != [] {
      TurnReaches(w, body, k, script);
      SendTurnMeaning(w, body, k, script[0]);
      var t := SendTurn(w, body, k, script[0]);
      if t.Going? {
        var n := Reach(k, 4 + |body|, script);
        TurnsReach(t.wire, body, t.sent, script[1..]);
        assert Frame(body)[k..t.sent] + Frame(body)[t.sent..n] == Frame(body)[k..n];
        Assoc(w.bytes, Frame(body)[k..t.sent], Frame(body)[t.sent..n]);
      }
    }
  }

  lemma ClosedStays(w: Wire, data: seq<Byte>, script: seq<SendEvent>)
    requires !w.open && data != []
    ensures var r := WriteRun(w, data, 0, script); r.wire == w && !r.ok
  {
  }

  /** send_msg on a working socket puts out exactly what the kernel grants and is true exactly
      when that is the whole frame; on a socket that failed it puts out nothing and is false. */
  lemma SendRunExactly(w: Wire, body: seq<Byte>, script: seq<SendEvent>)
    ensures var r, n := SendRun(w, body, script), Reach(0, 4 + |body|, script);
      if w.open then r.wire.bytes == w.bytes + Frame(body)[..n] && (r.ok <==> n == 4 + |body|)
      else r.wire == w && !r.ok
  {
    hide Header, Frame, Reach, Push;
    TurnsAreSendMsg(w, body, 0, script);
    if w.open {
      TurnsReach(w, body, 0, script);
      var n := Reach(0, 4 + |body|, script);
      assert Frame(body)[0..n] == Frame(body)[..n];
    } else {
      ClosedStays(w, Header(|body|), script);
    }
  }
}
