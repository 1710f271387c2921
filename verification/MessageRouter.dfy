/**
  The handlers (server/src/message_router.cpp:213-535) and the callbacks of server/main.cpp:91-106,
  run one at a time.  The code keeps an index of who is online, a set of names being logged
  in and a pending login per session; all three are shown here to be caches: what every
  handler does is what module ChatSpec says without them.
*/
module MessageRouter {
  import opened Wrappers
  import opened Passwords
  import opened ChatSpec
  import opened EpollServer
  import L = LoginProtocol
  import R = RateLimiter
  import D = Database

  // ---------------------------------------------------------------- what the sends amount to

  lemma EnterSends(peers: Peers, fd: Fd, name: string, history: seq<D.Item>, names: set<string>)
    requires fd in peers && peers[fd].username == "" && name != "" && name !in Names(peers)
    requires names == Names(peers) + {name}
    ensures var greeted := Tell(Rename(peers, fd, name), fd, LoginOk(name));
      var welcomed := Tell(greeted, fd, HistoryResp(D.ROOM, history));
      Cast(Cast(welcomed, UserList(names), ""), Notify(name, true), name) == Enter(peers, fd, name, history)
  {
    var list := UserList(names);
    var notify := Notify(name, true);
    var greeted := Tell(Rename(peers, fd, name), fd, LoginOk(name));
    var after := Cast(Cast(Tell(greeted, fd, HistoryResp(D.ROOM, history)), list, ""), notify, name);
    forall p | p in peers ensures after[p] == Enter(peers, fd, name, history)[p] {
      var sent := peers[p].sent;
      if p == fd {
        assert sent + [LoginOk(name)] + [HistoryResp(D.ROOM, history)] + [list] ==
          sent + [LoginOk(name), HistoryResp(D.ROOM, history), list];
      } else if peers[p].username != "" {
        assert Holds(peers, p, peers[p].username);
        assert sent + [list] + [notify] == sent + [list, notify];
      }
    }
  }

  function Introduced(peers: Peers, fd: Fd, name: string, history: seq<D.Item>, names: set<string>): Peers
    requires fd in peers
  {
    Cast(Cast(Tell(peers, fd, HistoryResp(D.ROOM, history)), UserList(names), ""), Notify(name, true), name)
  }

  /** finish_login as a chain of states. */
  lemma Entered(peers: Peers, renamed: Peers, greeted: Peers, after: Peers, fd: Fd, name: string,
                history: seq<D.Item>, names: set<string>)
    requires fd in peers && peers[fd].username == "" && name != "" && name !in Names(peers)
    requires names == Names(peers) + {name}
    requires renamed == Rename(peers, fd, name)
    requires fd in renamed && greeted == Tell(renamed, fd, LoginOk(name))
    requires fd in greeted && after == Introduced(greeted, fd, name, history, names)
    ensures after == Enter(peers, fd, name, history)
  {
    hide Names, Rename, Tell, Cast, Enter;
    EnterSends(peers, fd, name, history, names);
  }

  lemma LeaveSends(peers: Peers, fd: Fd, name: string, names: set<string>)
    requires fd in peers && peers[fd].username == name != "" && Unique(peers)
    requires names == Names(peers) - {name}
    ensures Cast(Cast(Rename(peers, fd, ""), UserList(names), ""), Notify(name, false), "") == Leave(peers, fd)
  {
    var list := UserList(names);
    var notify := Notify(name, false);
    forall p | p in peers ensures Cast(Cast(Rename(peers, fd, ""), list, ""), notify, "")[p] == Leave(peers, fd)[p] {
      assert peers[p].sent + [list] + [notify] == peers[p].sent + [list, notify];
    }
  }

  /** handle_logout as a chain of states. */
  lemma Left(peers: Peers, fd: Fd, name: string, names: set<string>, renamed: Peers, after: Peers)
    requires fd in peers && peers[fd].username == name != "" && Unique(peers)
    requires names == Names(peers) - {name}
    requires renamed == Rename(peers, fd, "")
    requires after == Cast(Cast(renamed, UserList(names), ""), Notify(name, false), "")
    ensures after == Leave(peers, fd) && names == Names(after)
  {
    hide Names, Unique, Rename, Cast, Leave;
    LeaveSends(peers, fd, name, names);
    LeaveNames(peers, fd);
  }

  lemma WhisperSends(peers: Peers, target: Fd, fd: Fd, to: string, m: Message)
    requires Unique(peers) && Holds(peers, target, to) && to != "" && fd in peers
    ensures Tell(Tell(peers, target, m), fd, m) == Whisper(peers, fd, to, m)
  {
    forall p | p in peers ensures Tell(Tell(peers, target, m), fd, m)[p] == Whisper(peers, fd, to, m)[p] {
      assert peers[p].username == to ==> Holds(peers, p, to);
    }
  }

  // ---------------------------------------------------------------- handlers in parts

  /** An unknown address has no history of failures. */
  function FailuresAdd(w: World, ip: string, log: seq<R.Time>): R.Logs {
    if ip == "" then w.failures else R.WithLog(w.failures, ip, log)
  }

  /** The history of the address after is_rate_limited. */
  function ChecksOut(w: World, ip: string, at: R.Time): World {
    w.(failures := FailuresAdd(w, ip, R.Checked(R.LogOf(w.failures, ip), at)))
  }

  predicate Settles(sha: Digest, w: World, r: Request) {
    r.from !in w.busy && r.from !in Names(w.peers) && Known(sha, w, r.from, r.content)
  }

  /** A LOGIN that is well-formed and not limited. */
  function Settled(sha: Digest, w: World, fd: Fd, r: Request, env: Env): World
    requires fd in w.peers
  {
    var ip := w.peers[fd].ip;
    if r.from in w.busy || r.from in Names(w.peers) then w.(peers := Tell(w.peers, fd, Error(ALREADY_LOGGED_IN)))
    else if Known(sha, w, r.from, r.content) then
      w.(peers := Enter(w.peers, fd, r.from, env.history), failures := FailuresAdd(w, ip, []))
    else
      w.(peers := Tell(w.peers, fd, Error(WRONG_PASSWORD)),
         failures := FailuresAdd(w, ip, R.LogOf(w.failures, ip) + [env.failedAt]))
  }

  lemma LoginCases(sha: Digest, w: World, fd: Fd, r: Request, env: Env)
    requires fd in w.peers
    ensures var ip := w.peers[fd].ip; var checked := ChecksOut(w, ip, env.checkedAt);
      if !L.Acceptable(r.from, r.content) then
        forall items :: Login(sha, w, fd, r, env.(history := items)) ==
          w.(peers := Tell(w.peers, fd, Error(INVALID_MSG)))
      else if Limited(w, ip, env.checkedAt) then
        forall items ::
          Login(sha, w, fd, r, env.(history := items)) == checked.(peers := Tell(w.peers, fd, Error(RATE_LIMITED)))
      else
        forall items :: Login(sha, w, fd, r, env.(history := items)) ==
          Settled(sha, checked, fd, r, env.(history := items))
    ensures var ip := w.peers[fd].ip;
      LoginVerdict(sha, w, ip, r, env.checkedAt).Granted? ==>
        && L.Acceptable(r.from, r.content) && !Limited(w, ip, env.checkedAt)
        && Settles(sha, ChecksOut(w, ip, env.checkedAt), r)
  {
    var ip := w.peers[fd].ip;
    var log := R.Checked(R.LogOf(w.failures, ip), env.checkedAt);
    R.WithLogTwice(w.failures, ip, log, []);
    R.WithLogTwice(w.failures, ip, log, log + [env.failedAt]);
    hide Names, Enter, Tell, R.Limited, R.Checked, R.WithLog, R.LogOf, L.Acceptable, VerifyPassword;
  }

  /** A REGISTER that is well-formed, of a name nobody has reserved. */
  function Enrolled(sha: Digest, w: World, fd: Fd, r: Request, env: Env): World
    requires fd in w.peers
  {
    if r.from in w.users then w.(peers := Tell(w.peers, fd, Error(USER_EXISTS)))
    else
      w.(users := w.users[r.from := HashPassword(sha, env.salt, r.content)],
         peers := Enter(w.peers, fd, r.from, env.history))
  }

  lemma RegisterCases(sha: Digest, w: World, fd: Fd, r: Request, env: Env)
    requires fd in w.peers
    ensures
      if !L.Acceptable(r.from, r.content) then
        forall items :: Register(sha, w, fd, r, env.(history := items)) ==
          w.(peers := Tell(w.peers, fd, Error(INVALID_MSG)))
      else if r.from in w.busy then
        forall items ::
          Register(sha, w, fd, r, env.(history := items)) == w.(peers := Tell(w.peers, fd, Error(ALREADY_LOGGED_IN)))
      else
        forall items :: Register(sha, w, fd, r, env.(history := items)) ==
          Enrolled(sha, w, fd, r, env.(history := items))
    ensures RegisterVerdict(w, r).Granted? ==>
      L.Acceptable(r.from, r.content) && r.from !in w.busy && r.from !in w.users
  {
    hide Names, Enter, Tell, L.Acceptable, HashPassword;
  }

  // ---------------------------------------------------------------- the router

  class MessageRouter {
    const sha: Digest
    const db: D.Database
    const server: EpollServer
    const limiter: R.RateLimiter
    var onlineUsers: set<string>
    var loginInProgress: set<string>

    constructor (sha: Digest, db: D.Database, server: EpollServer)
      requires server.Valid() && server.sessions == map[]
      ensures this.sha == sha && this.db == db && this.server == server && fresh(limiter)
      ensures Valid() && View() == World(map[], db.users, db.messages, map[], {})
    {
      this.sha, this.db, this.server := sha, db, server;
      limiter := new R.RateLimiter();
      onlineUsers, loginInProgress := {}, {};
    }

    ghost function View(): World
      reads this, db, server, server.sessions.Values, limiter
    {
      World(server.Connected(), db.users, db.messages, limiter.logs, loginInProgress)
    }

    /** One session per name, all names registered, the index agrees with the sessions. */
    ghost predicate Consistent()
      reads this, db, server, server.sessions.Values, limiter
    {
      && server.Valid()
      && limiter.Valid()
      && Sane(View())
      && onlineUsers == Names(server.Connected())
    }

    /** No pending login is left, except for this session. */
    ghost predicate IdleBut(session: Session)
      reads server, server.sessions.Values
    {
      forall s <- server.sessions.Values :: s != session ==> s.pendingLogin == ""
    }

    /** Between handlers. */
    ghost predicate Valid()
      reads this, db, server, server.sessions.Values, limiter
    {
      && Consistent()
      && forall s <- server.sessions.Values :: s.pendingLogin == ""
    }

    /** is_user_online asks the index, find_session the sessions: between handlers they agree. */
    method IsUserOnline(username: string) returns (online: bool)
      requires Valid()
      ensures online <==> username != "" && exists fd :: Holds(server.Connected(), fd, username)
    {
      online := username in onlineUsers;
    }

    /** send_error and send_ok write to the session's own descriptor. */
    method Reply(session: Session, m: Message)
      requires server.Valid() && server.Has(session)
      modifies session`sent
      ensures server.Connected() == Tell(old(server.Connected()), session.fd, m)
    {
      session.Send(m);
      assert forall fd :: fd in server.sessions && fd != session.fd ==> server.sessions[fd] != session;
    }

    method SetUsername(session: Session, username: string)
      requires server.Valid() && server.Has(session)
      modifies session`username
      ensures session.username == username
      ensures server.Connected() == Rename(old(server.Connected()), session.fd, username)
    {
      session.username := username;
      assert forall fd :: fd in server.sessions && fd != session.fd ==> server.sessions[fd] != session;
    }

    method PushHistory(fd: Fd, username: string) returns (ghost history: seq<D.Item>)
      requires server.Valid() && fd in server.sessions
      modifies server.sessions.Values`sent
      ensures server.Connected() == Tell(old(server.Connected()), fd, HistoryResp(D.ROOM, history))
      ensures Answers(db.messages, Some(Query(username, D.ROOM, WELCOME_HISTORY)), history)
    {
      var items := db.GetHistory(username, D.ROOM, WELCOME_HISTORY);
      history := items;
      var _ := server.SendToFd(fd, HistoryResp(D.ROOM, items));
    }

    method BroadcastUserList()
      requires server.Valid()
      modifies server.sessions.Values`sent
      ensures server.Connected() == Cast(old(server.Connected()), UserList(onlineUsers), "")
    {
      server.Broadcast(UserList(onlineUsers), "");
    }

    /** The second half of finish_login: history, user list, notice. */
    method Introduce(session: Session, username: string) returns (ghost history: seq<D.Item>)
      requires server.Valid() && server.Has(session)
      modifies server.sessions.Values`sent
      ensures server.Connected() == Introduced(old(server.Connected()), session.fd, username, history, onlineUsers)
      ensures Answers(db.messages, Some(Query(username, D.ROOM, WELCOME_HISTORY)), history)
    {
      ghost var greeted := server.Connected();
      assert session.fd in greeted;
      hide Tell, Cast, Answers;
      history := PushHistory(session.fd, username);
      ghost var welcomed := server.Connected();
      BroadcastUserList();
      ghost var listed := server.Connected();
      assert listed == Cast(welcomed, UserList(onlineUsers), "");
      server.Broadcast(Notify(username, true), username);
    }

    method FinishLogin(session: Session, username: string) returns (ghost history: seq<D.Item>)
      requires server.Valid() && server.Has(session) && session.username == ""
      requires username != "" && username !in Names(server.Connected()) && onlineUsers == Names(server.Connected())
      modifies this`onlineUsers, server.sessions.Values`sent, session`username
      ensures server.Connected() == Enter(old(server.Connected()), session.fd, username, history)
      ensures onlineUsers == old(onlineUsers) + {username}
      ensures Answers(db.messages, Some(Query(username, D.ROOM, WELCOME_HISTORY)), history)
    {
      ghost var peers := server.Connected();
      assert session in server.sessions.Values;
      assert session.fd in peers && peers[session.fd] == session.View();
      hide Tell, Cast, Enter, Rename, Names, Answers, Introduced;
      SetUsername(session, username);
      ghost var renamed := server.Connected();
      onlineUsers := onlineUsers + {username};
      Reply(session, LoginOk(username));
      ghost var greeted := server.Connected();
      assert greeted == Tell(renamed, session.fd, LoginOk(username));
      history := Introduce(session, username);
      Entered(peers, renamed, greeted, server.Connected(), session.fd, username, history, onlineUsers);
    }

    method CleanupLoginReservation(username: string)
      modifies this`loginInProgress
      ensures loginInProgress == if username == "" then old(loginInProgress) else old(loginInProgress) - {username}
    {
      if username == "" {
        return;
      }
      loginInProgress := loginInProgress - {username};
    }

    method Refuse(session: Session, code: Code)
      requires Valid() && server.Has(session)
      modifies session`sent
      ensures Valid()
      ensures View() == old(View()).(peers := Tell(old(server.Connected()), session.fd, Error(code)))
    {
      TellNames(server.Connected(), session.fd, Error(code));
      hide Names, Tell, Unique;
      Reply(session, Error(code));
    }

    /** The locked region that reserves the name, and set_pending_login. */
    method Reserve(session: Session, name: string)
      requires Valid() && server.Has(session)
      modifies this`loginInProgress, session`pendingLogin
      ensures Consistent() && IdleBut(session) && session.pendingLogin == name
      ensures View() == old(View()).(busy := old(View()).busy + {name})
    {
      loginInProgress := loginInProgress + {name};
      session.pendingLogin := name;
      hide Names, Unique;
      assert server.Connected() == old(server.Connected());
    }

    /** clear_pending_login and the locked region that erases the reservation. */
    method Release(session: Session, name: string)
      requires Consistent() && IdleBut(session) && server.Has(session)
      modifies this`loginInProgress, session`pendingLogin
      ensures Valid()
      ensures View() == old(View()).(busy := old(View()).busy - {name})
    {
      session.pendingLogin := "";
      loginInProgress := loginInProgress - {name};
      hide Names, Unique;
      assert server.Connected() == old(server.Connected());
    }

    /** The end both handlers share: finish_login, then the release. */
    method Admit(session: Session, name: string) returns (ghost history: seq<D.Item>)
      requires Consistent() && IdleBut(session) && server.Has(session) && session.username == ""
      requires name != "" && name !in Names(server.Connected()) && name in db.users
      modifies this`onlineUsers, this`loginInProgress, server.sessions.Values
      ensures Valid()
      ensures var w := old(View());
        View() == w.(peers := Enter(w.peers, session.fd, name, history), busy := w.busy - {name})
      ensures Answers(db.messages, Some(Query(name, D.ROOM, WELCOME_HISTORY)), history)
    {
      ghost var peers := server.Connected();
      history := FinishLogin(session, name);
      hide Names, Unique, Enter, Answers;
      EnterNames(peers, session.fd, name, history);
      Release(session, name);
    }

    /** The checks both handlers begin with, which differ only in the text of their error. */
    method FieldsPass(r: Request) returns (ok: bool)
      ensures ok <==> L.Acceptable(r.from, r.content)
      ensures ok ==> r.from != ""
    {
      if r.from == "" || r.content == "" {
        return false;
      }
      if |r.from| > L.MAX_USERNAME_LEN {
        return false;
      }
      ok := |r.content| <= L.MAX_PASSWORD_LEN;
    }

    method HandleRegister(session: Session, r: Request, env: Env) returns (ghost history: seq<D.Item>)
      requires Valid() && server.Has(session) && session.username == ""
      modifies this`onlineUsers, this`loginInProgress, db`users, server.sessions.Values
      ensures Valid()
      ensures View() == Register(sha, old(View()), session.fd, r, env.(history := history))
      ensures RegisterVerdict(old(View()), r).Granted? ==>
        Answers(db.messages, Some(Query(r.from, D.ROOM, WELCOME_HISTORY)), history)
    {
      ghost var w := View();
      history := [];
      RegisterCases(sha, w, session.fd, r, env);
      var fields := FieldsPass(r);
      hide Register, RegisterVerdict, Names, Enter, Tell, Answers, Unique, L.Acceptable, Enrolled;
      if !fields {
        Refuse(session, INVALID_MSG);
        return;
      }
      if r.from in loginInProgress {
        Refuse(session, ALREADY_LOGGED_IN);
        return;
      }
      history := Enroll(session, r, env);
    }

    method RegisterUser(username: string, hash: string) returns (added: bool)
      requires Consistent() && username != ""
      modifies db`users
      ensures Consistent() && added == (username !in old(db.users))
      ensures View() == if added then old(View()).(users := old(db.users)[username := hash]) else old(View())
    {
      hide Names, Unique;
      added := db.RegisterUser(username, hash);
      assert server.Connected() == old(server.Connected());
    }

    /** What follows in handle_register once the name is free to reserve. */
    method Enroll(session: Session, r: Request, env: Env) returns (ghost history: seq<D.Item>)
      requires Valid() && server.Has(session) && session.username == ""
      requires r.from != "" && r.from !in loginInProgress
      modifies this`onlineUsers, this`loginInProgress, db`users, server.sessions.Values
      ensures Valid()
      ensures View() == Enrolled(sha, old(View()), session.fd, r, env.(history := history))
      ensures r.from !in old(db.users) ==> Answers(db.messages, Some(Query(r.from, D.ROOM, WELCOME_HISTORY)), history)
    {
      ghost var w := View();
      history := [];
      assert session in server.sessions.Values;
      hide Names, Enter, Tell, Answers, HashPassword, Unique;
      Reserve(session, r.from);
      assert w.busy + {r.from} - {r.from} == w.busy;
      var added := RegisterUser(r.from, HashPassword(sha, env.salt, r.content));
      if !added {
        Release(session, r.from);
        Refuse(session, USER_EXISTS);
        return;
      }
      history := Admit(session, r.from);
    }

    method HandleLogin(session: Session, r: Request, env: Env) returns (ghost history: seq<D.Item>)
      requires Valid() && server.Has(session) && session.username == ""
      modifies this`onlineUsers, this`loginInProgress, limiter, server.sessions.Values
      ensures Valid()
      ensures View() == Login(sha, old(View()), session.fd, r, env.(history := history))
      ensures LoginVerdict(sha, old(View()), session.ip, r, env.checkedAt).Granted? ==>
        Answers(db.messages, Some(Query(r.from, D.ROOM, WELCOME_HISTORY)), history)
    {
      history := [];
      LoginCases(sha, View(), session.fd, r, env);
      var fields := FieldsPass(r);
      hide Login, LoginVerdict, Names, Enter, Tell, Answers, Unique, Limited, Settled, Settles, ChecksOut, L.Acceptable;
      if !fields {
        Refuse(session, INVALID_MSG);
        return;
      }
      var limited := IsRateLimited(session.ip, env.checkedAt);
      if limited {
        Refuse(session, RATE_LIMITED);
        return;
      }
      history := Settle(session, r, env);
    }

    /** What follows in handle_login once the address is not limited. */
    method Settle(session: Session, r: Request, env: Env) returns (ghost history: seq<D.Item>)
      requires Valid() && server.Has(session) && session.username == "" && r.from != ""
      modifies this`onlineUsers, this`loginInProgress, limiter, server.sessions.Values
      ensures Valid()
      ensures View() == Settled(sha, old(View()), session.fd, r, env.(history := history))
      ensures Settles(sha, old(View()), r) ==>
        Answers(db.messages, Some(Query(r.from, D.ROOM, WELCOME_HISTORY)), history)
    {
      history := [];
      hide Names, Enter, Tell, Answers, Unique, VerifyPassword, FailuresAdd;
      if r.from in loginInProgress {
        Refuse(session, ALREADY_LOGGED_IN);
        return;
      }
      var online := server.FindSession(r.from);
      if online.Some? {
        Refuse(session, ALREADY_LOGGED_IN);
        return;
      }
      history := Authenticate(session, r, env);
    }

    /** The limiter is only asked about an address that is known. */
    method IsRateLimited(ip: string, at: R.Time) returns (limited: bool)
      requires Valid()
      modifies limiter
      ensures Valid()
      ensures limited <==> Limited(old(View()), ip, at)
      ensures View() == ChecksOut(old(View()), ip, at)
    {
      hide Names, Unique, R.Limited, R.Checked;
      limited := false;
      if ip != "" {
        limited := limiter.IsRateLimited(ip, at);
      }
      assert server.Connected() == old(server.Connected());
    }

    method RecordFailedLogin(ip: string, at: R.Time)
      requires Consistent()
      modifies limiter
      ensures Consistent()
      ensures View() == old(View()).(failures := FailuresAdd(old(View()), ip, R.LogOf(old(limiter.logs), ip) + [at]))
    {
      hide Names, Unique;
      if ip != "" {
        limiter.RecordFailedLogin(ip, at);
      }
      assert server.Connected() == old(server.Connected());
    }

    method ClearLoginAttempts(ip: string)
      requires Consistent()
      modifies limiter
      ensures Consistent()
      ensures View() == old(View()).(failures := FailuresAdd(old(View()), ip, []))
    {
      hide Names, Unique;
      if ip != "" {
        limiter.ClearLoginAttempts(ip);
      }
      assert server.Connected() == old(server.Connected());
    }

    /** The end of a handle_login whose password is wrong. */
    method Deny(session: Session, name: string, at: R.Time)
      requires Consistent() && IdleBut(session) && server.Has(session)
      modifies this`loginInProgress, limiter, session
      ensures Valid()
      ensures var w := old(View());
        View() == w.(peers := Tell(w.peers, session.fd, Error(WRONG_PASSWORD)), busy := w.busy - {name},
                     failures := FailuresAdd(w, session.ip, R.LogOf(w.failures, session.ip) + [at]))
      ensures session.username == old(session.username)
    {
      hide Names, Tell, Unique, FailuresAdd;
      RecordFailedLogin(session.ip, at);
      Release(session, name);
      Refuse(session, WRONG_PASSWORD);
    }

    /** The end of a handle_login whose password is right. */
    method Accept(session: Session, name: string) returns (ghost history: seq<D.Item>)
      requires Consistent() && IdleBut(session) && server.Has(session) && session.username == ""
      requires name != "" && name !in Names(server.Connected()) && name in db.users
      modifies this`onlineUsers, this`loginInProgress, limiter, server.sessions.Values
      ensures Valid()
      ensures var w := old(View());
        View() == w.(peers := Enter(w.peers, session.fd, name, history), busy := w.busy - {name},
                     failures := FailuresAdd(w, session.ip, []))
      ensures Answers(db.messages, Some(Query(name, D.ROOM, WELCOME_HISTORY)), history)
    {
      hide Names, Enter, Unique, Answers, FailuresAdd;
      assert session in server.sessions.Values;
      ClearLoginAttempts(session.ip);
      history := Admit(session, name);
    }

    /** What follows in handle_login once nobody of that name is online. */
    method Authenticate(session: Session, r: Request, env: Env) returns (ghost history: seq<D.Item>)
      requires Valid() && server.Has(session) && session.username == ""
      requires r.from != "" && r.from !in loginInProgress && r.from !in Names(server.Connected())
      modifies this`onlineUsers, this`loginInProgress, limiter, server.sessions.Values
      ensures Valid()
      ensures View() == Settled(sha, old(View()), session.fd, r, env.(history := history))
      ensures Known(sha, old(View()), r.from, r.content) ==>
        Answers(db.messages, Some(Query(r.from, D.ROOM, WELCOME_HISTORY)), history)
    {
      ghost var w := View();
      assert session in server.sessions.Values;
      hide Names, Enter, Tell, Answers, Unique, VerifyPassword, FailuresAdd;
      history := [];
      Reserve(session, r.from);
      assert w.busy + {r.from} - {r.from} == w.busy;
      var stored := db.GetStoredHash(r.from);
      if stored == "" || !VerifyPassword(sha, r.content, stored) {
        Deny(session, r.from, env.failedAt);
        return;
      }
      history := Accept(session, r.from);
    }

    /** Everybody, and this session, which may be out of the table already; what that one was
        sent is then of no interest. */
    ghost function With(session: Session): Peers
      reads server, server.sessions.Values, session
    {
      if server.Has(session) then server.Connected()
      else server.Connected()[session.fd := Peer(session.ip, session.username, [])]
    }

    /** Called by route() for a session in the table and by the disconnect callback for one
        that has just left it. */
    method HandleLogout(session: Session)
      requires server.Valid() && (session.fd in server.sessions ==> server.Has(session))
      requires Unique(With(session)) && onlineUsers == Names(With(session))
      modifies this`onlineUsers, session`username, server.sessions.Values`sent
      ensures With(session) == Leave(old(With(session)), session.fd)
      ensures session.username == "" && onlineUsers == Names(With(session))
    {
      ghost var peers := With(session);
      if session.username == "" {
        return;
      }
      var username := session.username;
      hide Names, Cast, Leave, Rename, Unique;
      onlineUsers := onlineUsers - {username};
      ClearUsername(session);
      ghost var renamed := With(session);
      AnnounceLeave(session, username);
      Left(peers, session.fd, username, onlineUsers, renamed, With(session));
    }

    method AnnounceLeave(session: Session, username: string)
      requires server.Valid() && (session.fd in server.sessions ==> server.Has(session)) && session.username == ""
      modifies server.sessions.Values`sent
      ensures With(session) == Cast(Cast(old(With(session)), UserList(onlineUsers), ""), Notify(username, false), "")
    {
      hide Names, Cast;
      BroadcastWith(session, UserList(onlineUsers));
      ghost var listed := With(session);
      assert listed == Cast(old(With(session)), UserList(onlineUsers), "");
      BroadcastWith(session, Notify(username, false));
    }

    /** The first half of the disconnect callback. */
    method DropPendingLogin(session: Session)
      requires server.Valid() && session.fd !in server.sessions
      modifies this`loginInProgress, session`pendingLogin
      ensures session.pendingLogin == ""
      ensures With(session) == old(With(session))
      ensures loginInProgress ==
        if old(session.pendingLogin) == "" then old(loginInProgress)
          else old(loginInProgress) - {old(session.pendingLogin)}
    {
      var pending := session.pendingLogin;
      if pending != "" {
        CleanupLoginReservation(pending);
        session.pendingLogin := "";
      }
      assert forall fd :: fd in server.sessions ==> server.sessions[fd].View() == old(server.sessions[fd].View());
      assert server.Connected() == old(server.Connected());
    }

    method ClearUsername(session: Session)
      requires server.Valid() && (session.fd in server.sessions ==> server.Has(session))
      modifies session`username
      ensures session.username == ""
      ensures With(session) == Rename(old(With(session)), session.fd, "")
    {
      session.username := "";
      assert forall fd :: fd in server.sessions && fd != session.fd ==> server.sessions[fd] != session;
    }

    /** A broadcast passes over a session without a name, in the table or not. */
    method BroadcastWith(session: Session, m: Message)
      requires server.Valid() && (session.fd in server.sessions ==> server.Has(session)) && session.username == ""
      modifies server.sessions.Values`sent
      ensures With(session) == Cast(old(With(session)), m, "")
    {
      server.Broadcast(m, "");
    }

    method HandleBroadcast(session: Session, r: Request, env: Env)
      requires Valid() && server.Has(session) && session.username != ""
      modifies db`messages, server.sessions.Values`sent
      ensures Valid()
      ensures View() == Say(old(View()), session.fd, r, env)
    {
      hide Names, Cast, Tell, Unique;
      if r.content == "" {
        Refuse(session, INVALID_MSG);
        return;
      }
      if |r.content| > MAX_MESSAGE_LEN {
        Refuse(session, INVALID_MSG);
        return;
      }
      var sender := session.username;
      db.StoreMessage(sender, D.ROOM, r.content, env.now);
      CastNames(server.Connected(), Broadcast(sender, r.content, env.now), "");
      server.Broadcast(Broadcast(sender, r.content, env.now), "");
    }

    method HandlePrivate(session: Session, r: Request, env: Env)
      requires Valid() && server.Has(session) && session.username != ""
      modifies db`messages, server.sessions.Values`sent
      ensures Valid()
      ensures View() == SayTo(old(View()), session.fd, r, env)
    {
      ghost var peers := server.Connected();
      var to := if r.to.Some? then r.to.value else "";
      hide Names, Tell, Unique, Whisper;
      if to == "" || r.content == "" {
        Refuse(session, INVALID_MSG);
        return;
      }
      if |to| > L.MAX_USERNAME_LEN {
        Refuse(session, INVALID_MSG);
        return;
      }
      if |r.content| > MAX_MESSAGE_LEN {
        Refuse(session, INVALID_MSG);
        return;
      }
      var target := server.FindSession(to);
      if target.None? {
        Refuse(session, TARGET_OFFLINE);
        return;
      }
      assert Holds(peers, target.value.fd, to);
      PassOn(session, target.value, Private(session.username, to, r.content, env.now));
    }

    /** An accepted private message is stored, sent to its target, and echoed. */
    method PassOn(session: Session, target: Session, m: Message)
      requires Valid() && server.Has(session) && session.username != ""
      requires m.Private? && m.sender == session.username && m.to != "" && Holds(server.Connected(), target.fd, m.to)
      modifies db`messages, server.sessions.Values`sent
      ensures Valid()
      ensures var w := old(View());
        View() == w.(rows := w.rows + [D.Row(m.sender, m.to, m.content, m.timestamp)],
                     peers := Whisper(w.peers, session.fd, m.to, m))
    {
      ghost var peers := server.Connected();
      WhisperSends(peers, target.fd, session.fd, m.to, m);
      WhisperNames(peers, session.fd, m.to, m);
      hide Names, Tell, Unique, Whisper;
      db.StoreMessage(m.sender, m.to, m.content, m.timestamp);
      SendBoth(target.fd, session.fd, m);
    }

    method SendBoth(target: Fd, sender: Fd, m: Message)
      requires server.Valid() && target in server.sessions && sender in server.sessions
      modifies server.sessions.Values`sent
      ensures server.Connected() == Tell(Tell(old(server.Connected()), target, m), sender, m)
    {
      var _ := server.SendToFd(target, m);
      var _ := server.SendToFd(sender, m);
    }

    method HandleHistoryReq(session: Session, r: Request) returns (ghost history: seq<D.Item>)
      requires Valid() && server.Has(session) && session.username != ""
      modifies server.sessions.Values`sent
      ensures Valid()
      ensures View() == old(View()).(peers := Tell(old(server.Connected()), session.fd, HistoryResp(Room(r), history)))
      ensures Answers(db.messages, Some(Query(session.username, Room(r), HISTORY)), history)
    {
      var to := if r.to.Some? then r.to.value else D.ROOM;
      var items := db.GetHistory(session.username, to, HISTORY);
      history := items;
      TellNames(server.Connected(), session.fd, HistoryResp(to, items));
      hide Names, Tell, Unique;
      var _ := server.SendToFd(session.fd, HistoryResp(to, items));
    }

    /** LOGOUT of a session in the table. */
    method Logout(session: Session)
      requires Valid() && server.Has(session)
      modifies this`onlineUsers, session`username, server.sessions.Values`sent
      ensures Valid()
      ensures View() == old(View()).(peers := Leave(old(server.Connected()), session.fd))
    {
      assert With(session) == server.Connected();
      LeaveNames(server.Connected(), session.fd);
      hide Names, Leave, Unique;
      HandleLogout(session);
      assert With(session) == server.Connected();
    }

    method Route(session: Session, r: Request, env: Env) returns (ghost history: seq<D.Item>)
      requires Valid() && server.Has(session)
      modifies this`onlineUsers, this`loginInProgress, db, limiter, server.sessions.Values
      ensures Valid()
      ensures View() == Serve(sha, old(View()), session.fd, r, env.(history := history))
      ensures Answers(old(db.messages), Asks(sha, old(View()), session.fd, r, env), history)
    {
      assert forall rows, items :: Answers(rows, None, items);
      hide Names, Tell, Unique, Answers, Login, Register, Say, SayTo, Leave, LoginVerdict, RegisterVerdict;
      history := [];
      assert session in server.sessions.Values;
      if session.username == "" {
        if r.kind == "REGISTER" {
          history := HandleRegister(session, r, env);
        } else if r.kind == "LOGIN" {
          history := HandleLogin(session, r, env);
        } else if r.kind != "PONG" {
          Refuse(session, NOT_AUTHENTICATED);
        }
        return;
      }
      if r.kind == "PONG" {
      } else if r.kind == "BROADCAST" {
        HandleBroadcast(session, r, env);
      } else if r.kind == "PRIVATE" {
        HandlePrivate(session, r, env);
      } else if r.kind == "HISTORY_REQ" {
        history := HandleHistoryReq(session, r);
      } else if r.kind == "LOGOUT" {
        Logout(session);
      } else {
        Refuse(session, INVALID_MSG);
      }
    }
  }

  // ---------------------------------------------------------------- main

  /** What a closed connection was sent does not matter any more. */
  lemma Forgotten(peers: Peers, fd: Fd, left: Peers, after: Peers)
    requires fd in peers && Unique(peers)
    requires left == peers[fd := Peer(peers[fd].ip, peers[fd].username, [])]
    requires after == Leave(left, fd) - {fd}
    ensures Names(left) == Names(peers) && Unique(left)
    ensures after == Leave(peers, fd) - {fd}
    ensures Names(after) == Names(Leave(left, fd)) && Names(after) <= Names(peers) && Unique(after)
  {
    assert forall p, name :: Holds(left, p, name) <==> Holds(peers, p, name);
    assert Names(left) == Names(peers);
    LeaveNames(left, fd);
    hide Names;
  }

  /** The disconnect callback, for a session already out of the table. */
  method OnDisconnect(router: MessageRouter, session: Session)
    requires router.server.Valid() && session.fd !in router.server.sessions
    requires Unique(router.With(session)) && router.onlineUsers == Names(router.With(session))
    modifies router`onlineUsers, router`loginInProgress, session, router.server.sessions.Values`sent
    ensures router.server.Connected() == Leave(old(router.With(session)), session.fd) - {session.fd}
    ensures router.onlineUsers == Names(Leave(old(router.With(session)), session.fd))
    ensures session.pendingLogin == ""
    ensures router.loginInProgress ==
      if old(session.pendingLogin) == "" then old(router.loginInProgress)
        else old(router.loginInProgress) - {old(session.pendingLogin)}
  {
    hide Names, Unique, Leave;
    router.DropPendingLogin(session);
    router.HandleLogout(session);
    assert router.server.Connected() == router.With(session) - {session.fd};
  }

  /** remove_client for a descriptor in the table. */
  method RemoveClient(router: MessageRouter, fd: Fd)
    requires router.Valid() && fd in router.server.sessions
    modifies router`onlineUsers, router`loginInProgress, router.server`sessions, router.server.sessions.Values
    ensures router.Valid()
    ensures router.server.sessions == old(router.server.sessions) - {fd}
    ensures router.View() == old(router.View()).(peers := Leave(old(router.server.Connected()), fd) - {fd})
  {
    ghost var peers, users := router.server.Connected(), router.db.users;
    assert Unique(peers) && Names(peers) <= users.Keys;
    var removed := router.server.Unlink(fd);
    var session := removed.value;
    assert session in old(router.server.sessions).Values;
    ghost var left := router.With(session);
    hide Names, Unique, Leave;
    Forgotten(peers, fd, left, Leave(left, fd) - {fd});
    OnDisconnect(router, session);
    assert router.Consistent() by {
      assert router.server.Connected() == Leave(peers, fd) - {fd};
    }
  }

  /** A run goes on with an enabled event. */
  lemma RunOn(sha: Digest, start: World, es: seq<Event>, e: Event)
    requires Run(sha, start, es).Some? && Enabled(sha, Run(sha, start, es).value, e)
    ensures Run(sha, start, es + [e]) == Some(Step(sha, Run(sha, start, es).value, e))
  {
    assert (es + [e])[..|es + [e]| - 1] == es;
  }

  /** The server put together: its three callbacks, and the run that led to its state. */
  class ChatServer {
    const router: MessageRouter
    const server: EpollServer
    ghost const start: World
    ghost var events: seq<Event>

    ghost predicate Valid()
      reads this, router, router.db, server, server.sessions.Values, router.limiter
    {
      && router.server == server
      && router.Valid()
      && Run(router.sha, start, events) == Some(router.View())
    }

    constructor (sha: Digest, db: D.Database)
      ensures Valid() && fresh(router) && fresh(server) && router.sha == sha && router.db == db
      ensures start == Start(db.users, db.messages) && events == []
    {
      var table := new EpollServer();
      server := table;
      router := new MessageRouter(sha, db, table);
      start, events := Start(db.users, db.messages), [];
    }

    method OnConnect(fd: Fd, ip: string)
      requires Valid() && fd !in server.sessions
      modifies this`events, server`sessions
      ensures Valid() && events == old(events) + [Connect(fd, ip)]
    {
      ConnectNames(server.Connected(), fd, ip);
      RunOn(router.sha, start, events, Connect(fd, ip));
      hide Names, Unique, Run;
      server.HandleNewConnection(fd, ip);
      events := events + [Connect(fd, ip)];
    }

    /** A message for a descriptor that has no session is dropped. */
    method OnMessage(fd: Fd, r: Request, env: Env) returns (ghost history: seq<D.Item>)
      requires Valid() && IsSalt(env.salt)
      modifies this`events, router, router.db, router.limiter, server.sessions.Values
      ensures Valid()
      ensures events == if fd in server.sessions then old(events) + [Ask(fd, r, env.(history := history))]
        else old(events)
    {
      history := [];
      if fd in server.sessions {
        ghost var w := router.View();
        history := router.Route(server.sessions[fd], r, env);
        hide Run, Serve, Answers, Asks;
        RunOn(router.sha, start, events, Ask(fd, r, env.(history := history)));
        events := events + [Ask(fd, r, env.(history := history))];
      }
    }

    method OnClose(fd: Fd)
      requires Valid()
      modifies this`events, router`onlineUsers, router`loginInProgress, server`sessions, server.sessions.Values
      ensures Valid()
      ensures events == if fd in old(server.sessions) then old(events) + [Gone(fd)] else old(events)
    {
      ghost var w := router.View();
      hide Run, Leave, Names, Unique, Sane;
      if fd in server.sessions {
        RemoveClient(router, fd);
        RunOn(router.sha, start, events, Gone(fd));
        events := events + [Gone(fd)];
      }
    }
  }
}
