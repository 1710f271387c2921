/**
  Logging in, registering, logging out and disconnecting, interleaved
  (server/src/message_router.cpp, server/main.cpp:97-106).

  A handler is a program counter; its steps are the regions under login_mutex_,
  online_mutex_, the database mutex and the session's own mutexes.  find_session runs under
  login_mutex_ and sessions_mutex_ but reads each username under that session's mutex only,
  so it is a scan of single reads.  A disconnect is a handler the event loop starts after it
  has taken the session out of the table and raised its generation.

  Three history flags say how disciplined a run has been: `clean` that no disconnect callback
  has erased a reservation that was still held, `apart` that handlers and removals of one
  session did not overlap, nor a LOGIN with the removal of a session carrying its name,
  `serial` that every handler and every removal ran to completion before the next began.
*/
module LoginProtocol {
  import opened Wrappers
  import opened Passwords

  type Name = string
  type Session = nat
  type HandlerId = nat

  const MAX_USERNAME_LEN: nat := 32
  const MAX_PASSWORD_LEN: nat := 128

  datatype Kind = LOGIN | REGISTER | LOGOUT | DISCONNECT {
    predicate Auth() {
      LOGIN? || REGISTER?
    }
  }

  datatype Pc =
    | Begin                        // the generation check has passed
    | Checked                      // route() has read is_authenticated()
    | Scanning(left: set<Session>) // inside find_session, holding login_mutex_
    | Reserved                     // the name is in login_in_progress_
    | Pended                       // set_pending_login done
    | Granted                      // password verified, or user row inserted
    | Named                        // set_username done
    | Onlined                      // online_users_ updated
    | Unpended                     // clear_pending_login done
    | Denied                       // verification or insertion failed
    | Released                     // reservation erased after a failure
    | Cleaning(name: Name)         // disconnect: pending login read
    | Cleaned                      // disconnect: reservation erased
    | Entered                      // handle_logout: authenticated
    | Leaving(name: Name)          // handle_logout: username read
    | Left                         // handle_logout: online_users_ updated
    | Done

  datatype Handler = Handler(kind: Kind, session: Session, name: Name, password: string, pc: Pc)

  type Handlers = map<HandlerId, Handler>
  type Names = map<Session, Name>

  /** `live` is the session table, `raised` the sessions whose removal has raised the
      generation, `removing` one whose removal has not yet started its disconnect handler. */
  datatype Chat = Chat(
    live: set<Session>,
    known: set<Session>,
    raised: set<Session>,
    removing: Option<Session>,
    username: Names,
    pending: Names,
    reserved: set<Name>,
    online: set<Name>,
    users: map<Name, string>,
    lock: Option<HandlerId>,
    handlers: Handlers,
    clean: bool,
    apart: bool,
    serial: bool)

  datatype Action =
    | Accept(s: Session)
    | Unlink(s: Session)
    | Raise(s: Session, h: HandlerId)
    | Spawn(h: HandlerId, kind: Kind, s: Session, name: Name, password: string)
    | Route(h: HandlerId)
    | Limit(h: HandlerId)
    | Reserve(h: HandlerId)
    | Look(h: HandlerId, s: Session)
    | EndScan(h: HandlerId)
    | SetPending(h: HandlerId)
    | Verify(h: HandlerId)
    | Insert(h: HandlerId, salt: string)
    | SetName(h: HandlerId)
    | GoOnline(h: HandlerId)
    | ClearPending(h: HandlerId)
    | Release(h: HandlerId)
    | ReadPending(h: HandlerId)
    | CleanUp(h: HandlerId)
    | Enter(h: HandlerId)
    | ReadName(h: HandlerId)
    | GoOffline(h: HandlerId)
    | ClearName(h: HandlerId)

  function Start(users: map<Name, string>): Chat {
    Chat({}, {}, {}, None, map[], map[], {}, {}, users, None, map[], true, true, true)
  }

  /** The empty name stands for no name. */
  function Get(names: Names, s: Session): Name {
    if s in names then names[s] else ""
  }

  /** What one step of a handler does besides moving its program counter. */
  datatype Effect =
    | Goto(pc: Pc)
    | TakeLock(pc: Pc)
    | DropLock(pc: Pc)
    | Insert(pc: Pc)                // the handler's name goes into login_in_progress_
    | Erase(pc: Pc, name: Name)     // a name leaves login_in_progress_
    | Pend(pc: Pc, name: Name)      // the session's pending login
    | AddUser(pc: Pc, hash: string) // a row of the users table
    | SetUser(pc: Pc, name: Name)   // the session's username
    | AddOnline(pc: Pc)
    | EraseOnline(pc: Pc, name: Name)

  function Move(handlers: Handlers, h: HandlerId, pc: Pc): Handlers
    requires h in handlers
  {
    handlers[h := handlers[h].(pc := pc)]
  }

  /** The disconnect callback erases a name that is still reserved. */
  predicate Steals(c: Chat, e: Effect) {
    e.Erase? && e.pc.Cleaned? && e.name in c.reserved
  }

  function Apply(c: Chat, h: HandlerId, e: Effect): Chat
    requires h in c.handlers
  {
    var x, d := c.handlers[h], c.(handlers := Move(c.handlers, h, e.pc));
    match e
    case Goto(_) => d
    case TakeLock(_) => d.(lock := Some(h))
    case DropLock(_) => d.(lock := None)
    case Insert(_) => d.(lock := None, reserved := c.reserved + {x.name})
    case Erase(_, name) => d.(reserved := c.reserved - {name}, clean := c.clean && !Steals(c, e))
    case Pend(_, name) => d.(pending := c.pending[x.session := name])
    case AddUser(_, hash) => d.(users := c.users[x.name := hash])
    case SetUser(_, name) => d.(username := c.username[x.session := name])
    case AddOnline(_) => d.(online := c.online + {x.name})
    case EraseOnline(_, name) => d.(online := c.online - {name})
  }

  predicate Quiet(handlers: Handlers) {
    forall h :: h in handlers ==> handlers[h].pc.Done?
  }

  /** No handler is at work for the session. */
  predicate Free(handlers: Handlers, s: Session) {
    forall h :: h in handlers && handlers[h].session == s ==> handlers[h].pc.Done?
  }

  /** Sessions that have left the table and whose name is not yet off the index. */
  function Going(handlers: Handlers, removing: Option<Session>): set<Session> {
    (set h | h in handlers && handlers[h].kind.DISCONNECT? && !handlers[h].pc.Left? && !handlers[h].pc.Done? ::
      handlers[h].session)
    + if removing.Some? then {removing.value} else {}
  }

  /** A LOGIN for the name is at work. */
  predicate Claimed(handlers: Handlers, u: Name) {
    exists h :: h in handlers && handlers[h].kind.LOGIN? && !handlers[h].pc.Done? && handlers[h].name == u
  }

  /** A session carrying the name is going. */
  predicate Departing(c: Chat, u: Name) {
    exists s :: s in Going(c.handlers, c.removing) && Get(c.username, s) == u
  }

  predicate Acceptable(name: Name, password: string) {
    name != "" && password != "" && |name| <= MAX_USERNAME_LEN && |password| <= MAX_PASSWORD_LEN
  }

  // ---------------------------------------------------------------- the event loop

  /** The event loop is not inside a disconnect callback. */
  predicate CallbacksDone(handlers: Handlers) {
    forall h :: h in handlers && handlers[h].kind.DISCONNECT? ==> handlers[h].pc.Done?
  }

  function DoAccept(c: Chat, s: Session): Option<Chat> {
    if s in c.known || c.lock.Some? || c.removing.Some? || !CallbacksDone(c.handlers) then None
    else Some(c.(live := c.live + {s}, known := c.known + {s}))
  }

  /** remove_client takes the session out of the table; sessions_mutex_ is free. */
  function DoUnlink(c: Chat, s: Session): Option<Chat> {
    if s !in c.live || c.lock.Some? || c.removing.Some? || !CallbacksDone(c.handlers) then None
    else
      var u := Get(c.username, s);
      Some(c.(live := c.live - {s}, removing := Some(s),
              apart := c.apart && Free(c.handlers, s) && (u != "" ==> !Claimed(c.handlers, u)),
              serial := c.serial && Quiet(c.handlers)))
  }

  /** It raises the generation and calls the disconnect handler. */
  function DoRaise(c: Chat, s: Session, h: HandlerId): Option<Chat> {
    if c.removing != Some(s) || h in c.handlers then None
    else
      Some(c.(raised := c.raised + {s}, removing := None,
              handlers := c.handlers[h := Handler(DISCONNECT, s, "", "", Begin)]))
  }

  /** A worker takes a task whose generation still matches. */
  function DoSpawn(c: Chat, h: HandlerId, kind: Kind, s: Session, name: Name, password: string): Option<Chat> {
    if h in c.handlers || kind.DISCONNECT? || s !in c.known || s in c.raised then None
    else
      Some(c.(handlers := c.handlers[h := Handler(kind, s, name, password, Begin)],
              apart := c.apart && Free(c.handlers, s) && s in c.live
                       && (kind.LOGIN? && name != "" ==> !Departing(c, name)),
              serial := c.serial && Quiet(c.handlers) && c.removing.None?))
  }

  // ---------------------------------------------------------------- handlers

  /** route() reads is_authenticated(), the handler checks its fields. */
  function DoRoute(c: Chat, x: Handler): Option<Effect> {
    if !x.pc.Begin? || x.kind.DISCONNECT? then None
    else
      var authenticated := Get(c.username, x.session) != "";
      var go := if x.kind.LOGOUT? then authenticated else !authenticated && Acceptable(x.name, x.password);
      Some(Goto(if go then Checked else Done))
  }

  /** login_mutex_: refuse a reserved name; REGISTER reserves at once, LOGIN looks for a
      session of that name first. */
  function DoReserve(c: Chat, x: Handler): Option<Effect> {
    if !x.pc.Checked? || !x.kind.Auth() || c.lock.Some? then None
    else if x.name in c.reserved then Some(Goto(Done))
    else if x.kind.REGISTER? then Some(Effect.Insert(Reserved))
    else Some(TakeLock(Scanning(c.live)))
  }

  /** find_session reads one username. */
  function DoLook(c: Chat, x: Handler, s: Session): Option<Effect> {
    if !x.pc.Scanning? || s !in x.pc.left then None
    else if Get(c.username, s) == x.name then Some(DropLock(Done))
    else Some(Goto(Scanning(x.pc.left - {s})))
  }

  /** get_stored_hash and verify_password. */
  function DoVerify(sha: Digest, c: Chat, x: Handler): Option<Effect> {
    if !x.pc.Pended? || !x.kind.LOGIN? then None
    else
      var stored := if x.name in c.users then c.users[x.name] else "";
      Some(Goto(if stored == "" || !VerifyPassword(sha, x.password, stored) then Denied else Granted))
  }

  /** register_user with a fresh hash: INSERT OR IGNORE on the primary key. */
  function DoInsert(sha: Digest, c: Chat, x: Handler, salt: string): Option<Effect> {
    if !x.pc.Pended? || !x.kind.REGISTER? then None
    else if x.name in c.users then Some(Goto(Denied))
    else Some(AddUser(Granted, HashPassword(sha, salt, x.password)))
  }

  /** clear_pending_login: before the reservation goes on success, after it on failure, and
      in the disconnect handler. */
  function DoClearPending(x: Handler): Option<Effect> {
    match x.pc
    case Onlined => Some(Pend(Unpended, ""))
    case Released => Some(Pend(Done, ""))
    case Cleaned => Some(Pend(Checked, ""))
    case _ => None
  }

  function DoRelease(c: Chat, x: Handler): Option<Effect> {
    if c.lock.Some? then None
    else if x.pc.Unpended? then Some(Erase(Done, x.name))
    else if x.pc.Denied? then Some(Erase(Released, x.name))
    else None
  }

  /** The disconnect handler reads the pending login. */
  function DoReadPending(c: Chat, x: Handler): Option<Effect> {
    if !x.pc.Begin? || !x.kind.DISCONNECT? then None
    else
      var p := Get(c.pending, x.session);
      Some(Goto(if p == "" then Checked else Cleaning(p)))
  }

  /** handle_logout: returns at once when not authenticated. */
  function DoEnter(c: Chat, x: Handler): Option<Effect> {
    if !x.pc.Checked? || x.kind.Auth() then None
    else Some(Goto(if Get(c.username, x.session) == "" then Done else Entered))
  }

  /** The step a handler in state `x` takes on an action, None when it takes none. */
  function Turn(sha: Digest, c: Chat, x: Handler, a: Action): Option<Effect> {
    match a
    case Route(_) => DoRoute(c, x)
    case Limit(_) => if x.pc.Checked? && x.kind.LOGIN? then Some(Goto(Done)) else None
    case Reserve(_) => DoReserve(c, x)
    case Look(_, s) => DoLook(c, x, s)
    case EndScan(_) => if x.pc == Scanning({}) then Some(Effect.Insert(Reserved)) else None
    case SetPending(_) => if x.pc.Reserved? then Some(Pend(Pended, x.name)) else None
    case Verify(_) => DoVerify(sha, c, x)
    case Insert(_, salt) => DoInsert(sha, c, x, salt)
    case SetName(_) => if x.pc.Granted? then Some(SetUser(Named, x.name)) else None
    case GoOnline(_) => if x.pc.Named? then Some(AddOnline(Onlined)) else None
    case ClearPending(_) => DoClearPending(x)
    case Release(_) => DoRelease(c, x)
    case ReadPending(_) => DoReadPending(c, x)
    case CleanUp(_) => if x.pc.Cleaning? && c.lock.None? then Some(Erase(Cleaned, x.pc.name)) else None
    case Enter(_) => DoEnter(c, x)
    case ReadName(_) => if x.pc.Entered? then Some(Goto(Leaving(Get(c.username, x.session)))) else None
    case GoOffline(_) => if x.pc.Leaving? then Some(EraseOnline(Left, x.pc.name)) else None
    case ClearName(_) => if x.pc.Left? then Some(SetUser(Done, "")) else None
    case _ => None
  }

  predicate OfHandler(a: Action) {
    !a.Accept? && !a.Unlink? && !a.Raise? && !a.Spawn?
  }

  /** One step, None when it cannot happen. */
  function Step(sha: Digest, c: Chat, a: Action): Option<Chat> {
    match a
    case Accept(s) => DoAccept(c, s)
    case Unlink(s) => DoUnlink(c, s)
    case Raise(s, h) => DoRaise(c, s, h)
    case Spawn(h, kind, s, name, password) => DoSpawn(c, h, kind, s, name, password)
    case _ =>
      if a.h !in c.handlers then None
      else match Turn(sha, c, c.handlers[a.h], a) case None => None case Some(e) => Some(Apply(c, a.h, e))
  }

  function Run(sha: Digest, c: Chat, acts: seq<Action>): Option<Chat>
    decreases |acts|
  {
    if acts == [] then Some(c)
    else match Step(sha, c, acts[0]) case None => None case Some(d) => Run(sha, d, acts[1..])
  }
}
