/**
  What the server as a whole is for, stated on values: who is connected under which name,
  what each of them has been sent, and what is stored.

  The caches of the code (online_users_, pending_login_) do not occur here, and no event
  changes `busy`, the names reserved by handlers still under way; module MessageRouter proves
  that the code with its caches and reservations does what is said here.
  One event is handled at a time; LoginProtocol is about handlers that interleave.
*/
module ChatSpec {
  import opened Wrappers
  import opened Passwords
  import L = LoginProtocol
  import R = RateLimiter
  import D = Database

  const MAX_MESSAGE_LEN: nat := 4096
  const WELCOME_HISTORY: int := 20
  const HISTORY: int := 50

  datatype Code =
    INVALID_MSG | RATE_LIMITED | ALREADY_LOGGED_IN | WRONG_PASSWORD | USER_EXISTS | NOT_AUTHENTICATED | TARGET_OFFLINE

  datatype Message =
    | Error(code: Code)
    | LoginOk(name: string)
    | HistoryResp(to: string, data: seq<D.Item>)
    | UserList(names: set<string>)
    | Notify(who: string, joined: bool)
    | Broadcast(sender: string, content: string, timestamp: int)
    | Private(sender: string, to: string, content: string, timestamp: int)

  /** A connection: the empty name is not authenticated. */
  datatype Peer = Peer(ip: string, username: string, sent: seq<Message>)

  /** A file descriptor. */
  type Fd = int

  type Peers = map<Fd, Peer>

  datatype World = World(
    peers: Peers,
    users: map<string, string>,
    rows: seq<D.Row>,
    failures: R.Logs,
    busy: set<string>)

  /** A JSON object from a client; an absent `from` or `content` reads as empty. */
  datatype Request = Request(kind: string, from: string, to: Option<string>, content: string)

  /** What one handler takes from outside: the clocks, a salt, the answer of a query. */
  datatype Env = Env(now: int, checkedAt: R.Time, failedAt: R.Time, salt: string, history: seq<D.Item>)

  datatype Event =
    | Connect(fd: Fd, ip: string)
    | Ask(fd: Fd, request: Request, env: Env)
    | Gone(fd: Fd)

  // ---------------------------------------------------------------- who is there

  predicate Holds(peers: Peers, fd: Fd, name: string) {
    fd in peers && peers[fd].username == name
  }

  function Names(peers: Peers): (names: set<string>)
    ensures forall name :: name in names <==> name != "" && exists fd :: Holds(peers, fd, name)
  {
    set fd | fd in peers && peers[fd].username != "" && Holds(peers, fd, peers[fd].username) :: peers[fd].username
  }

  ghost predicate Unique(peers: Peers) {
    forall fd, other, name :: name != "" && Holds(peers, fd, name) && Holds(peers, other, name) ==> fd == other
  }

  /** One connection per name, and every name is registered. */
  ghost predicate Sane(w: World) {
    Unique(w.peers) && Names(w.peers) <= w.users.Keys
  }

  // ---------------------------------------------------------------- what is sent

  function Tell(peers: Peers, fd: Fd, m: Message): Peers
    requires fd in peers
  {
    peers[fd := peers[fd].(sent := peers[fd].sent + [m])]
  }

  function Rename(peers: Peers, fd: Fd, name: string): Peers
    requires fd in peers
  {
    peers[fd := peers[fd].(username := name)]
  }

  /** To everybody authenticated except the one of a given name. */
  function Cast(peers: Peers, m: Message, exclude: string): Peers {
    map fd | fd in peers ::
      if peers[fd].username == "" || (exclude != "" && peers[fd].username == exclude) then peers[fd]
      else peers[fd].(sent := peers[fd].sent + [m])
  }

  /** `fd` becomes `name`: it is welcomed, and everybody authenticated learns of it. */
  function Enter(peers: Peers, fd: Fd, name: string, history: seq<D.Item>): Peers
    requires fd in peers
  {
    var list := UserList(Names(peers) + {name});
    map p | p in peers ::
      if p == fd then
        peers[p].(username := name, sent := peers[p].sent + [LoginOk(name), HistoryResp(D.ROOM, history), list])
      else if peers[p].username != "" then peers[p].(sent := peers[p].sent + [list, Notify(name, true)])
      else peers[p]
  }

  /** `fd` stops being anybody: everybody else authenticated learns of it. */
  function Leave(peers: Peers, fd: Fd): Peers
    requires fd in peers
  {
    var name := peers[fd].username;
    if name == "" then peers
    else
      map p | p in peers ::
        if p == fd then peers[p].(username := "")
        else if peers[p].username != "" then
          peers[p].(sent := peers[p].sent + [UserList(Names(peers) - {name}), Notify(name, false)])
        else peers[p]
  }

  /** A private message reaches the holder of the name and its sender, and nobody else; who
      writes to himself gets it twice. */
  function Whisper(peers: Peers, fd: Fd, to: string, m: Message): Peers {
    map p | p in peers ::
      peers[p].(sent := peers[p].sent + (if peers[p].username == to then [m] else []) + (if p == fd then [m] else []))
  }

  // ---------------------------------------------------------------- requests

  datatype Verdict = Refused(code: Code) | Granted

  predicate Limited(w: World, ip: string, at: R.Time) {
    ip != "" && R.Limited(R.LogOf(w.failures, ip), at)
  }

  predicate Known(sha: Digest, w: World, name: string, password: string) {
    name in w.users && w.users[name] != "" && VerifyPassword(sha, password, w.users[name])
  }

  function LoginVerdict(sha: Digest, w: World, ip: string, r: Request, at: R.Time): Verdict {
    if !L.Acceptable(r.from, r.content) then Refused(INVALID_MSG)
    else if Limited(w, ip, at) then Refused(RATE_LIMITED)
    else if r.from in w.busy || r.from in Names(w.peers) then Refused(ALREADY_LOGGED_IN)
    else if !Known(sha, w, r.from, r.content) then Refused(WRONG_PASSWORD)
    else Granted
  }

  function RegisterVerdict(w: World, r: Request): Verdict {
    if !L.Acceptable(r.from, r.content) then Refused(INVALID_MSG)
    else if r.from in w.busy then Refused(ALREADY_LOGGED_IN)
    else if r.from in w.users then Refused(USER_EXISTS)
    else Granted
  }

  function FailuresAfter(failures: R.Logs, ip: string, verdict: Verdict, env: Env): R.Logs {
    if ip == "" || verdict == Refused(INVALID_MSG) then failures
    else if verdict.Granted? then R.WithLog(failures, ip, [])
    else
      var log := R.Checked(R.LogOf(failures, ip), env.checkedAt);
      R.WithLog(failures, ip, if verdict == Refused(WRONG_PASSWORD) then log + [env.failedAt] else log)
  }

  function Login(sha: Digest, w: World, fd: Fd, r: Request, env: Env): World
    requires fd in w.peers
  {
    var ip := w.peers[fd].ip;
    var verdict := LoginVerdict(sha, w, ip, r, env.checkedAt);
    w.(failures := FailuresAfter(w.failures, ip, verdict, env),
       peers := match verdict
                case Refused(code) => Tell(w.peers, fd, Error(code))
                case Granted => Enter(w.peers, fd, r.from, env.history))
  }

  function Register(sha: Digest, w: World, fd: Fd, r: Request, env: Env): World
    requires fd in w.peers
  {
    match RegisterVerdict(w, r)
    case Refused(code) => w.(peers := Tell(w.peers, fd, Error(code)))
    case Granted =>
      w.(users := w.users[r.from := HashPassword(sha, env.salt, r.content)],
         peers := Enter(w.peers, fd, r.from, env.history))
  }

  function BroadcastVerdict(r: Request): Verdict {
    if 0 < |r.content| <= MAX_MESSAGE_LEN then Granted else Refused(INVALID_MSG)
  }

  function Say(w: World, fd: Fd, r: Request, env: Env): World
    requires fd in w.peers
  {
    match BroadcastVerdict(r)
    case Refused(code) => w.(peers := Tell(w.peers, fd, Error(code)))
    case Granted =>
      var me := w.peers[fd].username;
      w.(rows := w.rows + [D.Row(me, D.ROOM, r.content, env.now)],
         peers := Cast(w.peers, Broadcast(me, r.content, env.now), ""))
  }

  function Target(r: Request): string {
    if r.to.Some? then r.to.value else ""
  }

  function PrivateVerdict(w: World, r: Request): Verdict {
    if !(0 < |Target(r)| <= L.MAX_USERNAME_LEN && 0 < |r.content| <= MAX_MESSAGE_LEN) then Refused(INVALID_MSG)
    else if Target(r) !in Names(w.peers) then Refused(TARGET_OFFLINE)
    else Granted
  }

  function SayTo(w: World, fd: Fd, r: Request, env: Env): World
    requires fd in w.peers
  {
    match PrivateVerdict(w, r)
    case Refused(code) => w.(peers := Tell(w.peers, fd, Error(code)))
    case Granted =>
      var me := w.peers[fd].username;
      w.(rows := w.rows + [D.Row(me, Target(r), r.content, env.now)],
         peers := Whisper(w.peers, fd, Target(r), Private(me, Target(r), r.content, env.now)))
  }

  function Room(r: Request): string {
    if r.to.Some? then r.to.value else D.ROOM
  }

  function Serve(sha: Digest, w: World, fd: Fd, r: Request, env: Env): World
    requires fd in w.peers
  {
    if w.peers[fd].username == "" then
      if r.kind == "REGISTER" then Register(sha, w, fd, r, env)
      else if r.kind == "LOGIN" then Login(sha, w, fd, r, env)
      else if r.kind == "PONG" then w
      else w.(peers := Tell(w.peers, fd, Error(NOT_AUTHENTICATED)))
    else if r.kind == "PONG" then w
    else if r.kind == "BROADCAST" then Say(w, fd, r, env)
    else if r.kind == "PRIVATE" then SayTo(w, fd, r, env)
    else if r.kind == "HISTORY_REQ" then w.(peers := Tell(w.peers, fd, HistoryResp(Room(r), env.history)))
    else if r.kind == "LOGOUT" then w.(peers := Leave(w.peers, fd))
    else w.(peers := Tell(w.peers, fd, Error(INVALID_MSG)))
  }

  // ---------------------------------------------------------------- runs

  datatype Query = Query(requestor: string, target: string, limit: int)

  /** The history query a request leads to. */
  function Asks(sha: Digest, w: World, fd: Fd, r: Request, env: Env): Option<Query>
    requires fd in w.peers
  {
    var me := w.peers[fd];
    if me.username != "" then
      if r.kind == "HISTORY_REQ" then Some(Query(me.username, Room(r), HISTORY)) else None
    else if (r.kind == "REGISTER" && RegisterVerdict(w, r).Granted?)
         || (r.kind == "LOGIN" && LoginVerdict(sha, w, me.ip, r, env.checkedAt).Granted?) then
      Some(Query(r.from, D.ROOM, WELCOME_HISTORY))
    else None
  }

  ghost predicate Answers(rows: seq<D.Row>, q: Option<Query>, history: seq<D.Item>) {
    q.Some? ==>
      D.NewestWindow(D.Select(rows, q.value.requestor, q.value.target), D.Clamp(q.value.limit), history)
  }

  ghost predicate Enabled(sha: Digest, w: World, e: Event) {
    match e
    case Connect(fd, ip) => fd !in w.peers
    case Ask(fd, r, env) => fd in w.peers && IsSalt(env.salt) && Answers(w.rows, Asks(sha, w, fd, r, env), env.history)
    case Gone(fd) => fd in w.peers
  }

  function Step(sha: Digest, w: World, e: Event): World
    requires e.Connect? || e.fd in w.peers
  {
    match e
    case Connect(fd, ip) => w.(peers := w.peers[fd := Peer(ip, "", [])])
    case Ask(fd, r, env) => Serve(sha, w, fd, r, env)
    case Gone(fd) => w.(peers := Leave(w.peers, fd) - {fd})
  }

  ghost function Run(sha: Digest, w: World, es: seq<Event>): Option<World> {
    if es == [] then Some(w)
    else
      var n := |es| - 1;
      var before := Run(sha, w, es[..n]);
      if before.Some? && Enabled(sha, before.value, es[n]) then Some(Step(sha, before.value, es[n])) else None
  }

  function Start(users: map<string, string>, rows: seq<D.Row>): World {
    World(map[], users, rows, map[], {})
  }

  // ---------------------------------------------------------------- one connection per name

  lemma TellNames(peers: Peers, fd: Fd, m: Message)
    requires fd in peers
    ensures Names(Tell(peers, fd, m)) == Names(peers)
    ensures Unique(peers) ==> Unique(Tell(peers, fd, m))
  {
    assert forall p, name :: Holds(Tell(peers, fd, m), p, name) <==> Holds(peers, p, name);
  }

  lemma CastNames(peers: Peers, m: Message, exclude: string)
    ensures Names(Cast(peers, m, exclude)) == Names(peers)
    ensures Unique(peers) ==> Unique(Cast(peers, m, exclude))
  {
    assert forall p, name :: Holds(Cast(peers, m, exclude), p, name) <==> Holds(peers, p, name);
  }

  lemma WhisperNames(peers: Peers, fd: Fd, to: string, m: Message)
    ensures Names(Whisper(peers, fd, to, m)) == Names(peers)
    ensures Unique(peers) ==> Unique(Whisper(peers, fd, to, m))
  {
    assert forall p, name :: Holds(Whisper(peers, fd, to, m), p, name) <==> Holds(peers, p, name);
  }

  lemma EnterNames(peers: Peers, fd: Fd, name: string, history: seq<D.Item>)
    requires fd in peers && peers[fd].username == "" && name != ""
    ensures Names(Enter(peers, fd, name, history)) == Names(peers) + {name}
    ensures Unique(peers) && name !in Names(peers) ==> Unique(Enter(peers, fd, name, history))
  {
    var after := Enter(peers, fd, name, history);
    assert forall p, other :: p != fd ==> (Holds(after, p, other) <==> Holds(peers, p, other));
    assert Holds(after, fd, name);
  }

  lemma LeaveNames(peers: Peers, fd: Fd)
    requires fd in peers && Unique(peers)
    ensures Names(Leave(peers, fd)) == Names(peers) - {peers[fd].username}
    ensures Names(Leave(peers, fd) - {fd}) == Names(peers) - {peers[fd].username}
    ensures Unique(Leave(peers, fd)) && Unique(Leave(peers, fd) - {fd})
  {
    var after := Leave(peers, fd);
    assert forall p, other :: p != fd ==> (Holds(after, p, other) <==> Holds(peers, p, other));
    assert forall p, other :: p != fd ==> (Holds(after - {fd}, p, other) <==> Holds(peers, p, other));
    assert Holds(peers, fd, peers[fd].username);
  }

  lemma ConnectNames(peers: Peers, fd: Fd, ip: string)
    requires fd !in peers
    ensures Names(peers[fd := Peer(ip, "", [])]) == Names(peers)
    ensures Unique(peers) ==> Unique(peers[fd := Peer(ip, "", [])])
  {
    var after := peers[fd := Peer(ip, "", [])];
    assert forall p, other :: p != fd ==> (Holds(after, p, other) <==> Holds(peers, p, other));
  }

  /** Every event keeps one connection per name.  REGISTER never asks who is online: it
      relies on every name in use being registered. */
  lemma SaneKeeps(sha: Digest, w: World, e: Event)
    requires Sane(w) && Enabled(sha, w, e)
    ensures Sane(Step(sha, w, e))
  {
    hide Names, Unique, Tell, Cast, Whisper, Enter, Leave;
    match e
    case Connect(fd, ip) => ConnectNames(w.peers, fd, ip);
    case Gone(fd) => LeaveNames(w.peers, fd);
    case Ask(fd, r, env) =>
      var me := w.peers[fd].username;
      forall m { TellNames(w.peers, fd, m); }
      CastNames(w.peers, Broadcast(me, r.content, env.now), "");
      WhisperNames(w.peers, fd, Target(r), Private(me, Target(r), r.content, env.now));
      LeaveNames(w.peers, fd);
      if me == "" && r.from != "" {
        EnterNames(w.peers, fd, r.from, env.history);
      }
  }
}
