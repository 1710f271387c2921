/**
  The session table and the sending operations over it (server/src/epoll_server.cpp:210-252,
  309-352, 363-408), one call at a time.  `Connected` is what the table means.
*/
module EpollServer {
  import opened Wrappers
  import opened ChatSpec

  /** The part of a ClientSession the handlers touch; its receive buffer is in module Protocol.
      `sent` is what has been given to send_msg for this connection. */
  class Session {
    const fd: Fd
    const ip: string
    var username: string
    var pendingLogin: string
    var sent: seq<Message>

    constructor (fd: Fd, ip: string)
      ensures this.fd == fd && this.ip == ip && View() == Peer(ip, "", []) && pendingLogin == ""
    {
      this.fd, this.ip := fd, ip;
      username, pendingLogin, sent := "", "", [];
    }

    function View(): Peer
      reads this
    {
      Peer(ip, username, sent)
    }

    method Send(m: Message)
      modifies this`sent
      ensures sent == old(sent) + [m]
    {
      sent := sent + [m];
    }
  }

  predicate Included(username: string, exclude: string) {
    username != "" && (exclude == "" || username != exclude)
  }

  class EpollServer {
    var sessions: map<Fd, Session>

    ghost predicate Valid()
      reads this
    {
      forall fd :: fd in sessions ==> sessions[fd].fd == fd
    }

    ghost predicate Has(session: Session)
      reads this
    {
      session.fd in sessions && sessions[session.fd] == session
    }

    ghost function Connected(): Peers
      reads this, sessions.Values
    {
      map fd | fd in sessions :: sessions[fd].View()
    }

    constructor ()
      ensures Valid() && sessions == map[]
    {
      sessions := map[];
    }

    /** The descriptor the kernel hands out is not open, so no session in the table has it. */
    method HandleNewConnection(fd: Fd, ip: string)
      requires Valid() && fd !in sessions
      modifies this`sessions
      ensures Valid()
      ensures fd in sessions && fresh(sessions[fd]) && sessions == old(sessions)[fd := sessions[fd]]
      ensures sessions[fd].pendingLogin == ""
      ensures Connected() == old(Connected())[fd := Peer(ip, "", [])]
    {
      var session := new Session(fd, ip);
      sessions := sessions[fd := session];
    }

    /** The locked region of remove_client. */
    method Unlink(fd: Fd) returns (removed: Option<Session>)
      requires Valid()
      modifies this`sessions
      ensures Valid()
      ensures removed == if fd in old(sessions) then Some(old(sessions)[fd]) else None
      ensures sessions == old(sessions) - {fd} && Connected() == old(Connected()) - {fd}
    {
      removed := None;
      if fd in sessions {
        removed := Some(sessions[fd]);
        sessions := sessions - {fd};
      }
    }

    /** Some session of that name, if there is one. */
    method FindSession(username: string) returns (found: Option<Session>)
      requires Valid()
      ensures found.None? <==> forall fd :: !Holds(Connected(), fd, username)
      ensures found.Some? ==> Has(found.value) && found.value.username == username
    {
      found := None;
      var left := sessions.Items;
      while left != {}
        invariant left <= sessions.Items
        invariant forall fd :: fd in sessions && (fd, sessions[fd]) !in left ==> sessions[fd].username != username
      {
        var item :| item in left;
        if item.1.username == username {
          assert Holds(Connected(), item.0, username);
          return Some(item.1);
        }
        left := left - {item};
      }
    }

    /** The sessions a broadcast is for, copied under the lock. */
    method Targets(exclude: string) returns (targets: seq<Session>)
      requires Valid()
      ensures forall s <- targets :: Has(s) && Included(s.username, exclude)
      ensures forall fd :: fd in sessions && Included(sessions[fd].username, exclude) ==> sessions[fd] in targets
      ensures forall i, j :: 0 <= i < j < |targets| ==> targets[i] != targets[j]
    {
      targets := [];
      var left := sessions.Items;
      while left != {}
        invariant left <= sessions.Items
        invariant forall s <- targets :: Has(s) && (s.fd, s) !in left && Included(s.username, exclude)
        invariant forall fd :: fd in sessions ==>
          (fd, sessions[fd]) in left || !Included(sessions[fd].username, exclude) || sessions[fd] in targets
        invariant forall i, j :: 0 <= i < j < |targets| ==> targets[i] != targets[j]
      {
        var item :| item in left;
        assert item.0 in sessions && item.1.fd == item.0;
        assert item.1 !in targets;
        left := left - {item};
        if Included(item.1.username, exclude) {
          targets := targets + [item.1];
        }
      }
    }

    /** Every authenticated session except the excluded name, once each. */
    method Broadcast(m: Message, exclude: string)
      requires Valid()
      modifies sessions.Values`sent
      ensures Connected() == Cast(old(Connected()), m, exclude)
    {
      var targets := Targets(exclude);
      for i := 0 to |targets|
        invariant forall s <- sessions.Values :: s.sent == old(s.sent) + if s in targets[..i] then [m] else []
      {
        assert Has(targets[i]) && sessions[targets[i].fd] in sessions.Values;
        assert targets[i] !in targets[..i];
        targets[i].Send(m);
      }
      assert targets[..|targets|] == targets;
      forall fd | fd in sessions ensures Connected()[fd] == Cast(old(Connected()), m, exclude)[fd] {
        assert sessions[fd] in sessions.Values;
        assert sessions[fd] in targets <==> Included(sessions[fd].username, exclude);
      }
    }

    /** Only the session under that descriptor now, if any. */
    method SendToFd(fd: Fd, m: Message) returns (ok: bool)
      requires Valid()
      modifies sessions.Values`sent
      ensures ok <==> fd in sessions
      ensures Connected() == if ok then Tell(old(Connected()), fd, m) else old(Connected())
    {
      if fd !in sessions {
        return false;
      }
      var session := sessions[fd];
      assert session in sessions.Values;
      session.Send(m);
      assert forall other :: other in sessions && other != fd ==> sessions[other] != session;
      ok := true;
    }
  }
}
