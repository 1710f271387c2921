/**
  What each request does, told by its outcome: the connection's own log, everybody else's, and
  what is stored.  Nothing here goes through the verdicts and table functions of ChatSpec;
  limits and names of the protocol are written out.
*/
module ChatBehaviour {
  import opened Wrappers
  import opened Passwords
  import opened ChatSpec
  import opened ChatTheorems
  import R = RateLimiter
  import D = Database

  // ---------------------------------------------------------------- outcomes

  /** Connection `p` is sent `more` and is otherwise as before. */
  ghost predicate Hears(w: World, after: World, p: Fd, more: seq<Message>) {
    && p in w.peers && p in after.peers
    && after.peers[p] == Peer(w.peers[p].ip, w.peers[p].username, w.peers[p].sent + more)
  }

  /** `fd` is sent one message, and nobody else anything. */
  ghost predicate OnlyReply(w: World, after: World, fd: Fd, m: Message) {
    && after.peers.Keys == w.peers.Keys
    && Hears(w, after, fd, [m])
    && forall p :: p in w.peers && p != fd ==> Hears(w, after, p, [])
  }

  /** Nothing is stored or changed but for the history of failed logins. */
  ghost predicate SameStore(w: World, after: World) {
    after.rows == w.rows && after.users == w.users && after.busy == w.busy
  }

  /** The failures recorded for an address become `log`, those of the others stay. */
  ghost predicate LogBecomes(w: World, after: World, ip: string, log: seq<R.Time>) {
    forall other :: R.LogOf(after.failures, other) ==
      if other == ip && ip != "" then log else R.LogOf(w.failures, other)
  }

  /** `fd` is now `name`: it hears LOGIN_OK, the room's history and who is online, everybody
      else who is logged in hears who is online and who came. */
  ghost predicate Welcomed(w: World, after: World, fd: Fd, name: string, history: seq<D.Item>) {
    var online := Names(w.peers) + {name};
    && after.peers.Keys == w.peers.Keys && fd in w.peers
    && after.peers[fd] == Peer(w.peers[fd].ip, name,
         w.peers[fd].sent + [LoginOk(name), HistoryResp("__room__", history), UserList(online)])
    && forall p :: p in w.peers && p != fd ==>
         Hears(w, after, p, if w.peers[p].username == "" then [] else [UserList(online), Notify(name, true)])
  }

  /** Everybody logged in but `fd` hears who is still online and who left. */
  ghost predicate Missed(w: World, after: World, fd: Fd, name: string) {
    forall p :: p in w.peers && p != fd ==>
      Hears(w, after, p,
        if w.peers[p].username == "" then [] else [UserList(Names(w.peers) - {name}), Notify(name, false)])
  }

  ghost predicate Requests(sha: Digest, w: World, fd: Fd, r: Request, env: Env) {
    Enabled(sha, w, Ask(fd, r, env))
  }

  function After(sha: Digest, w: World, fd: Fd, r: Request, env: Env): World
    requires fd in w.peers
  {
    Step(sha, w, Ask(fd, r, env))
  }

  // ---------------------------------------------------------------- who is not logged in

  ghost predicate Malformed(name: string, password: string) {
    name == "" || password == "" || |name| > 32 || |password| > 128
  }

  /** The failures left of a history once is_rate_limited has looked at it. */
  function LeftOf(log: seq<R.Time>, at: R.Time): seq<R.Time> {
    if log != [] && at > R.BlockEnd(log) then [] else log
  }

  ghost predicate PasswordFits(sha: Digest, w: World, name: string, password: string) {
    name in w.users && w.users[name] != "" && VerifyPassword(sha, password, w.users[name])
  }

  /** LOGIN: each refusal, in the order of the checks, and the success. */
  lemma LoginDoes(sha: Digest, w: World, fd: Fd, r: Request, env: Env)
    requires Requests(sha, w, fd, r, env) && w.peers[fd].username == "" && r.kind == "LOGIN"
    ensures var after, ip := After(sha, w, fd, r, env), w.peers[fd].ip;
      var log := R.LogOf(w.failures, ip);
      var left := LeftOf(log, env.checkedAt);
      && SameStore(w, after)
      && if Malformed(r.from, r.content) then
           OnlyReply(w, after, fd, Error(INVALID_MSG)) && after.failures == w.failures
         else if ip != "" && R.Limited(log, env.checkedAt) then
           OnlyReply(w, after, fd, Error(RATE_LIMITED)) && LogBecomes(w, after, ip, left)
         else if r.from in w.busy || r.from in Names(w.peers) then
           OnlyReply(w, after, fd, Error(ALREADY_LOGGED_IN)) && LogBecomes(w, after, ip, left)
         else if !PasswordFits(sha, w, r.from, r.content) then
           OnlyReply(w, after, fd, Error(WRONG_PASSWORD)) && LogBecomes(w, after, ip, left + [env.failedAt])
         else
           && Welcomed(w, after, fd, r.from, env.history) && LogBecomes(w, after, ip, [])
           && D.NewestWindow(D.Select(w.rows, r.from, "__room__"), 20, env.history)
  {
    hide Names, D.Select, D.NewestWindow, R.Limited, R.BlockEnd, VerifyPassword;
  }

  /** REGISTER: each refusal and the success. */
  lemma RegisterDoes(sha: Digest, w: World, fd: Fd, r: Request, env: Env)
    requires Requests(sha, w, fd, r, env) && w.peers[fd].username == "" && r.kind == "REGISTER"
    ensures var after := After(sha, w, fd, r, env);
      && after.rows == w.rows && after.busy == w.busy && after.failures == w.failures
      && if Malformed(r.from, r.content) then
           OnlyReply(w, after, fd, Error(INVALID_MSG)) && after.users == w.users
         else if r.from in w.busy then
           OnlyReply(w, after, fd, Error(ALREADY_LOGGED_IN)) && after.users == w.users
         else if r.from in w.users then
           OnlyReply(w, after, fd, Error(USER_EXISTS)) && after.users == w.users
         else
           && Welcomed(w, after, fd, r.from, env.history)
           && after.users == w.users[r.from := env.salt + ":" + sha(env.salt + ":" + r.content)]
           && D.NewestWindow(D.Select(w.rows, r.from, "__room__"), 20, env.history)
  {
    hide Names, D.Select, D.NewestWindow;
  }

  /** Before it is logged in a connection can do nothing else. */
  lemma StrangerDoes(sha: Digest, w: World, fd: Fd, r: Request, env: Env)
    requires Requests(sha, w, fd, r, env) && w.peers[fd].username == "" && r.kind != "REGISTER" && r.kind != "LOGIN"
    ensures var after := After(sha, w, fd, r, env);
      if r.kind == "PONG" then after == w
      else OnlyReply(w, after, fd, Error(NOT_AUTHENTICATED)) && SameStore(w, after) && after.failures == w.failures
  {
    hide Names;
  }

  // ---------------------------------------------------------------- who is logged in

  /** BROADCAST of 1 to 4096 characters is stored for the room and sent to everybody logged in,
      its sender included, once each; any other is refused. */
  lemma BroadcastDoes(sha: Digest, w: World, fd: Fd, r: Request, env: Env)
    requires Requests(sha, w, fd, r, env) && w.peers[fd].username != "" && r.kind == "BROADCAST"
    ensures var after, me := After(sha, w, fd, r, env), w.peers[fd].username;
      && after.users == w.users && after.busy == w.busy && after.failures == w.failures
      && if 1 <= |r.content| <= 4096 then
           && after.rows == w.rows + [D.Row(me, "__room__", r.content, env.now)]
           && after.peers.Keys == w.peers.Keys
           && forall p :: p in w.peers ==>
                Hears(w, after, p, if w.peers[p].username == "" then [] else [Broadcast(me, r.content, env.now)])
         else OnlyReply(w, after, fd, Error(INVALID_MSG)) && after.rows == w.rows
  {
    hide Names;
  }

  ghost predicate BadPrivate(r: Request) {
    r.to.None? || r.to.value == "" || |r.to.value| > 32 || r.content == "" || |r.content| > 4096
  }

  /** PRIVATE to a name somebody carries is stored, sent to who carries it, and echoed to its
      sender; any other is refused. */
  lemma PrivateDoes(sha: Digest, w: World, fd: Fd, r: Request, env: Env)
    requires Requests(sha, w, fd, r, env) && w.peers[fd].username != "" && r.kind == "PRIVATE"
    ensures var after, me := After(sha, w, fd, r, env), w.peers[fd].username;
      && after.users == w.users && after.busy == w.busy && after.failures == w.failures
      && if BadPrivate(r) then OnlyReply(w, after, fd, Error(INVALID_MSG)) && after.rows == w.rows
         else if forall p :: p in w.peers ==> w.peers[p].username != r.to.value then
           OnlyReply(w, after, fd, Error(TARGET_OFFLINE)) && after.rows == w.rows
         else
           var m := Private(me, r.to.value, r.content, env.now);
           && after.rows == w.rows + [D.Row(me, r.to.value, r.content, env.now)]
           && after.peers.Keys == w.peers.Keys
           && forall p :: p in w.peers ==>
                Hears(w, after, p, if w.peers[p].username == r.to.value then if p == fd then [m, m] else [m]
                                   else if p == fd then [m] else [])
  {
    if r.to.Some? {
      assert r.to.value != "" ==> (r.to.value in Names(w.peers) <==> exists p :: Holds(w.peers, p, r.to.value));
    }
    hide Names;
  }

  /** HISTORY_REQ for `x` is answered under that name, with the newest 50 at most of the
      conversation with `x`; without a name it is for the room. */
  lemma HistoryDoes(sha: Digest, w: World, fd: Fd, r: Request, env: Env)
    requires Requests(sha, w, fd, r, env) && w.peers[fd].username != "" && r.kind == "HISTORY_REQ"
    ensures var after, me := After(sha, w, fd, r, env), w.peers[fd].username;
      && SameStore(w, after) && after.failures == w.failures
      && match r.to
         case Some(x) =>
           && OnlyReply(w, after, fd, HistoryResp(x, env.history))
           && D.NewestWindow(D.Select(w.rows, me, x), 50, env.history)
         case None =>
           && OnlyReply(w, after, fd, HistoryResp("__room__", env.history))
           && D.NewestWindow(D.Select(w.rows, me, "__room__"), 50, env.history)
  {
    hide Names, D.Select, D.NewestWindow;
  }

  /** LOGOUT is not answered; the connection stays, without a name, and the others hear of it. */
  lemma LogoutDoes(sha: Digest, w: World, fd: Fd, r: Request, env: Env)
    requires Requests(sha, w, fd, r, env) && w.peers[fd].username != "" && r.kind == "LOGOUT"
    ensures var after, me := After(sha, w, fd, r, env), w.peers[fd].username;
      && SameStore(w, after) && after.failures == w.failures
      && after.peers.Keys == w.peers.Keys
      && after.peers[fd] == Peer(w.peers[fd].ip, "", w.peers[fd].sent)
      && Missed(w, after, fd, me)
  {
    hide Names;
  }

  /** Heartbeats are ignored, and anything else, a second LOGIN too, is refused. */
  lemma MemberDoes(sha: Digest, w: World, fd: Fd, r: Request, env: Env)
    requires Requests(sha, w, fd, r, env) && w.peers[fd].username != ""
    requires r.kind != "BROADCAST" && r.kind != "PRIVATE" && r.kind != "HISTORY_REQ" && r.kind != "LOGOUT"
    ensures var after := After(sha, w, fd, r, env);
      if r.kind == "PONG" then after == w
      else OnlyReply(w, after, fd, Error(INVALID_MSG)) && SameStore(w, after) && after.failures == w.failures
  {
    hide Names;
  }

  // ---------------------------------------------------------------- connections

  lemma ConnectDoes(sha: Digest, w: World, fd: Fd, ip: string)
    requires Enabled(sha, w, Connect(fd, ip))
    ensures var after := Step(sha, w, Connect(fd, ip));
      && SameStore(w, after) && after.failures == w.failures
      && after.peers == w.peers[fd := Peer(ip, "", [])]
  {
  }

  /** A connection that goes takes its name with it; the others hear of it if it had one. */
  lemma GoneDoes(sha: Digest, w: World, fd: Fd)
    requires Enabled(sha, w, Gone(fd))
    ensures var after, me := Step(sha, w, Gone(fd)), w.peers[fd].username;
      && SameStore(w, after) && after.failures == w.failures
      && after.peers.Keys == w.peers.Keys - {fd}
      && if me == "" then forall p :: p in w.peers && p != fd ==> Hears(w, after, p, []) else Missed(w, after, fd, me)
  {
    hide Names;
  }

  // ---------------------------------------------------------------- over runs

  /** After a REGISTER that was not refused, in every later state: a LOGIN for that name makes
      the connection that name if and only if its address is not limited, nobody has or is
      taking the name, and the salted digests agree; otherwise it hears exactly the one error
      that fits, and nobody else anything. */
  lemma LoginAfterRegister(sha: Digest, w: World, fd: Fd, r: Request, env: Env, es: seq<Event>,
                           other: Fd, again: Request, later: Env)
    requires IsDigest(sha) && Requests(sha, w, fd, r, env) && w.peers[fd].username == "" && r.kind == "REGISTER"
    requires !Malformed(r.from, r.content) && r.from !in w.busy && r.from !in w.users
    requires Run(sha, After(sha, w, fd, r, env), es).Some?
    requires Requests(sha, Run(sha, After(sha, w, fd, r, env), es).value, other, again, later)
    requires Run(sha, After(sha, w, fd, r, env), es).value.peers[other].username == "" && again.kind == "LOGIN"
    requires again.from == r.from && !Malformed(again.from, again.content)
    ensures var z := Run(sha, After(sha, w, fd, r, env), es).value;
      var after, ip := After(sha, z, other, again, later), z.peers[other].ip;
      var limited := ip != "" && R.Limited(R.LogOf(z.failures, ip), later.checkedAt);
      var taken := r.from in w.busy || exists p :: Holds(z.peers, p, r.from);
      var fits := sha(env.salt + ":" + again.content) == sha(env.salt + ":" + r.content);
      && (Welcomed(z, after, other, r.from, later.history) <==> !limited && !taken && fits)
      && (limited || taken || !fits ==>
            OnlyReply(z, after, other,
              Error(if limited then RATE_LIMITED else if taken then ALREADY_LOGGED_IN else WRONG_PASSWORD)))
  {
    var first := After(sha, w, fd, r, env);
    var z := Run(sha, first, es).value;
    RegisterDoes(sha, w, fd, r, env);
    RunUsers(sha, first, es);
    var stored := HashPassword(sha, env.salt, r.content);
    assert z.users[r.from] == stored && z.busy == w.busy;
    VerifyHashed(sha, env.salt, r.content, again.content);
    HashedIsNotEmpty(sha, env.salt, r.content);
    LoginDoes(sha, z, other, again, later);
    hide After, Run, Requests, R.Limited, VerifyPassword, HashPassword, LogBecomes, D.NewestWindow, D.Select;
    assert r.from in Names(z.peers) <==> exists p :: Holds(z.peers, p, r.from);
  }

  /** Rows are never taken away. */
  lemma {:induction false} RowsGrow(sha: Digest, w: World, es: seq<Event>, n: nat)
    requires Run(sha, w, es).Some? && n <= |es|
    ensures Run(sha, w, es[..n]).Some? && Run(sha, w, es[..n]).value.rows <= Run(sha, w, es).value.rows
    decreases |es|
  {
    hide Step, Enabled;
    if n == |es| {
      assert es[..n] == es;
    } else {
      var front := es[..|es| - 1];
      RowsGrow(sha, w, front, n);
      assert front[..n] == es[..n];
      StepStores(sha, Run(sha, w, front).value, es[|es| - 1]);
    }
  }

  /** A stored row of the conversation between two names. */
  ghost predicate Between(row: D.Row, item: D.Item, a: string, b: string) {
    && D.Item(row.from, row.content, row.timestamp) == item
    && ((row.from == a && row.to == b) || (row.from == b && row.to == a))
  }

  /** Event `i` sends the history as the `j`th message of a connection that carries `name`, and
      every item of it is a row stored by then between that name and `to`. */
  ghost predicate TheirsAt(sha: Digest, w: World, es: seq<Event>, i: nat, fd: Fd, j: nat, name: string,
                           to: string, data: seq<D.Item>)
  {
    && i < |es|
    && var before, sentAt := Run(sha, w, es[..i]), Run(sha, w, es[..i + 1]);
    && before.Some? && (fd in before.value.peers ==> |before.value.peers[fd].sent| <= j)
    && sentAt.Some? && Holds(sentAt.value.peers, fd, name) && name != ""
    && j < |sentAt.value.peers[fd].sent| && sentAt.value.peers[fd].sent[j] == HistoryResp(to, data)
    && forall item <- data :: exists row :: row in sentAt.value.rows && Between(row, item, name, to)
  }

  /** In every run, a history of a private conversation that a connection has been sent holds
      only messages between the name it carried then and the name it asked for. */
  lemma HistoryIsTheirs(sha: Digest, users: map<string, string>, rows: seq<D.Row>, es: seq<Event>, fd: Fd, j: nat)
    requires Run(sha, Start(users, rows), es).Some?
    requires var z := Run(sha, Start(users, rows), es).value;
      && fd in z.peers && j < |z.peers[fd].sent|
      && z.peers[fd].sent[j].HistoryResp? && z.peers[fd].sent[j].to != "__room__"
    ensures var m := Run(sha, Start(users, rows), es).value.peers[fd].sent[j];
      exists i: nat, name :: TheirsAt(sha, Start(users, rows), es, i, fd, j, name, m.to, m.data)
  {
    hide Run, Names, D.Select;
    var start := Start(users, rows);
    var m := Run(sha, start, es).value.peers[fd].sent[j];
    EverythingHeard(sha, users, rows, es, fd, j);
    var i: nat :| SentBy(sha, start, es, i, fd, j, m);
    assert Has(sha, start, es, i + 1, fd, j, m);
    var sentAt := Run(sha, start, es[..i + 1]).value;
    var name := sentAt.peers[fd].username;
    forall item | item in m.data ensures exists row :: row in sentAt.rows && Between(row, item, name, m.to) {
      assert item in multiset(m.data) && item in multiset(D.Select(sentAt.rows, name, m.to));
      var row := D.SelectedFrom(sentAt.rows, name, m.to, item);
      assert row in sentAt.rows && Between(row, item, name, m.to);
    }
    assert TheirsAt(sha, start, es, i, fd, j, name, m.to, m.data);
  }

  /** The row is in the answer, unless the answer is full of rows that are no older. */
  ghost predicate ReadBy(row: D.Row, history: seq<D.Item>) {
    || D.Item(row.from, row.content, row.timestamp) in history
    || (|history| == 50 && forall y <- history :: y.timestamp >= row.timestamp)
  }

  lemma RunNothing(sha: Digest, w: World)
    ensures Run(sha, w, []) == Some(w)
  {
  }

  /** Whoever asks for a conversation reads what was stored for it. */
  lemma RowIsRead(sha: Digest, w: World, row: D.Row, es: seq<Event>, fd: Fd, r: Request, env: Env)
    requires row in w.rows && Run(sha, w, es).Some? && Requests(sha, Run(sha, w, es).value, fd, r, env)
    requires Run(sha, w, es).value.peers[fd].username != "" && r.kind == "HISTORY_REQ"
    requires var me, x := Run(sha, w, es).value.peers[fd].username, if r.to.Some? then r.to.value else "__room__";
      if x == "__room__" then row.to == "__room__"
      else (row.from == me && row.to == x) || (row.from == x && row.to == me)
    ensures var z, x := Run(sha, w, es).value, if r.to.Some? then r.to.value else "__room__";
      OnlyReply(z, After(sha, z, fd, r, env), fd, HistoryResp(x, env.history)) && ReadBy(row, env.history)
  {
    hide Run, D.Select, D.NewestWindow, Requests, After;
    var z, x := Run(sha, w, es).value, if r.to.Some? then r.to.value else "__room__";
    RowsGrow(sha, w, es, 0);
    assert es[..0] == [] && Run(sha, w, []) == Some(w) by { RunNothing(sha, w); }
    HistoryDoes(sha, z, fd, r, env);
    D.SelectHas(z.rows, row, z.peers[fd].username, x);
    var mine := D.Select(z.rows, z.peers[fd].username, x);
    D.WindowHas(mine, 50, env.history, D.Item(row.from, row.content, row.timestamp));
  }

  /** A private message that is not refused is in the answer to the next HISTORY_REQ of its
      target for its sender, and in every later one, as long as there are not 50 newer ones;
      its sender must not be called like the room. */
  lemma PrivateIsRead(sha: Digest, w: World, fd: Fd, r: Request, env: Env, es: seq<Event>,
                      other: Fd, ask: Request, later: Env)
    requires Requests(sha, w, fd, r, env) && w.peers[fd].username != "" && r.kind == "PRIVATE"
    requires w.peers[fd].username != "__room__" && !BadPrivate(r) && exists p :: Holds(w.peers, p, r.to.value)
    requires Run(sha, After(sha, w, fd, r, env), es).Some?
    requires Requests(sha, Run(sha, After(sha, w, fd, r, env), es).value, other, ask, later)
    requires ask.kind == "HISTORY_REQ" && ask.to == Some(w.peers[fd].username)
    requires Run(sha, After(sha, w, fd, r, env), es).value.peers[other].username == r.to.value
    ensures var z := Run(sha, After(sha, w, fd, r, env), es).value;
      && OnlyReply(z, After(sha, z, other, ask, later), other, HistoryResp(w.peers[fd].username, later.history))
      && ReadBy(D.Row(w.peers[fd].username, r.to.value, r.content, env.now), later.history)
  {
    PrivateDoes(sha, w, fd, r, env);
    var p :| Holds(w.peers, p, r.to.value);
    hide Run, After, Requests, OnlyReply, ReadBy, Hears;
    var row := D.Row(w.peers[fd].username, r.to.value, r.content, env.now);
    RowIsRead(sha, After(sha, w, fd, r, env), row, es, other, ask, later);
  }

  /** A broadcast of legal length is in the answer to everybody's later HISTORY_REQ for the
      room, as long as there are not 50 newer ones. */
  lemma BroadcastIsRead(sha: Digest, w: World, fd: Fd, r: Request, env: Env, es: seq<Event>,
                        other: Fd, ask: Request, later: Env)
    requires Requests(sha, w, fd, r, env) && w.peers[fd].username != "" && r.kind == "BROADCAST"
    requires 1 <= |r.content| <= 4096
    requires Run(sha, After(sha, w, fd, r, env), es).Some?
    requires Requests(sha, Run(sha, After(sha, w, fd, r, env), es).value, other, ask, later)
    requires ask.kind == "HISTORY_REQ" && (ask.to == None || ask.to == Some("__room__"))
    requires Run(sha, After(sha, w, fd, r, env), es).value.peers[other].username != ""
    ensures var z := Run(sha, After(sha, w, fd, r, env), es).value;
      && OnlyReply(z, After(sha, z, other, ask, later), other, HistoryResp("__room__", later.history))
      && ReadBy(D.Row(w.peers[fd].username, "__room__", r.content, env.now), later.history)
  {
    BroadcastDoes(sha, w, fd, r, env);
    hide Run, After, Requests, OnlyReply, ReadBy, Hears;
    var row := D.Row(w.peers[fd].username, "__room__", r.content, env.now);
    RowIsRead(sha, After(sha, w, fd, r, env), row, es, other, ask, later);
  }
}
