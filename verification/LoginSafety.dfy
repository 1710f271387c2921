/** What every run of the login protocol keeps, and what clean runs keep. */
module LoginSafety {
  import opened Wrappers
  import opened Passwords
  import opened LoginProtocol

  // ---------------------------------------------------------------- every run

  /** Program counters fit the kind of handler, and a LOGIN or REGISTER that got past its
      checks has a name. */
  predicate Typed(x: Handler) {
    match x.pc
    case Begin => true
    case Done => true
    case Checked => x.kind.Auth() ==> x.name != ""
    case Scanning(_) => x.kind.LOGIN? && x.name != ""
    case Cleaning(_) => x.kind.DISCONNECT?
    case Cleaned => x.kind.DISCONNECT?
    case Entered => !x.kind.Auth()
    case Leaving(_) => !x.kind.Auth()
    case Left => !x.kind.Auth()
    case _ => x.kind.Auth() && x.name != ""
  }

  ghost predicate AllTyped(handlers: Handlers) {
    forall h :: h in handlers ==> Typed(handlers[h])
  }

  /** Between the insertion into login_in_progress_ and its own erasure. */
  predicate Critical(x: Handler) {
    x.pc.Reserved? || x.pc.Pended? || x.pc.Granted? || x.pc.Named? || x.pc.Onlined? || x.pc.Unpended? || x.pc.Denied?
  }

  predicate Holds(handlers: Handlers, h: HandlerId, name: Name) {
    h in handlers && Critical(handlers[h]) && handlers[h].name == name
  }

  /** Every reserved name belongs to a handler that will erase it. */
  ghost predicate ReservationsOwned(handlers: Handlers, reserved: set<Name>) {
    forall u :: u in reserved ==> exists h :: Holds(handlers, h, u)
  }

  /** login_mutex_ is held across steps only by a scanning LOGIN. */
  ghost predicate Locked(handlers: Handlers, lock: Option<HandlerId>) {
    && (forall h :: h in handlers && handlers[h].pc.Scanning? ==> lock == Some(h))
    && (lock.Some? ==> lock.value in handlers && handlers[lock.value].pc.Scanning?)
  }

  /** The event loop is in one removal at most, from its beginning to the end of its callback. */
  ghost predicate OneLoop(handlers: Handlers, removing: Option<Session>) {
    && (removing.Some? ==> CallbacksDone(handlers))
    && forall h, g :: h in handlers && g in handlers && h != g && handlers[h].kind == handlers[g].kind == DISCONNECT
         ==> handlers[h].pc.Done? || handlers[g].pc.Done?
  }

  ghost predicate Base(c: Chat) {
    && AllTyped(c.handlers) && ReservationsOwned(c.handlers, c.reserved) && Locked(c.handlers, c.lock)
    && OneLoop(c.handlers, c.removing)
  }

  /** Every transition a handler can make, with the facts it has just read. */
  predicate Allowed(c: Chat, x: Handler, e: Effect) {
    match e
    case Goto(pc) =>
      (match pc
       case Checked => x.pc.Begin?
                       && (x.kind.DISCONNECT? || ((Get(c.username, x.session) != "") == x.kind.LOGOUT?))
                       && (x.kind.Auth() ==> x.name != "") && (x.kind.DISCONNECT? ==> Get(c.pending, x.session) == "")
       case Done =>
         if x.pc.Begin? then !x.kind.DISCONNECT?
         else x.pc.Checked? && (x.kind.Auth() || Get(c.username, x.session) == "")
       case Scanning(left) =>
         x.pc.Scanning? && exists s | s in x.pc.left :: left == x.pc.left - {s} && Get(c.username, s) != x.name
       case Granted => x.pc.Pended? && x.kind.LOGIN? && x.name in c.users
       case Denied => x.pc.Pended?
       case Cleaning(p) => x.pc.Begin? && x.kind.DISCONNECT? && p == Get(c.pending, x.session) != ""
       case Entered => x.pc.Checked? && !x.kind.Auth() && Get(c.username, x.session) != ""
       case Leaving(u) => x.pc.Entered? && u == Get(c.username, x.session)
       case _ => false)
    case TakeLock(pc) =>
      pc == Scanning(c.live) && x.pc.Checked? && x.kind.LOGIN? && x.name !in c.reserved && c.lock.None?
    case DropLock(pc) => pc.Done? && x.pc.Scanning?
    case Insert(pc) =>
      && pc.Reserved?
      && (x.pc == Scanning({}) || (x.pc.Checked? && x.kind.REGISTER? && x.name !in c.reserved && c.lock.None?))
    case Erase(pc, name) =>
      && c.lock.None?
      && ((x.pc.Unpended? && pc.Done? && name == x.name) || (x.pc.Denied? && pc.Released? && name == x.name)
          || (x.pc.Cleaning? && pc.Cleaned? && name == x.pc.name))
    case Pend(pc, name) =>
      || (x.pc.Reserved? && pc.Pended? && name == x.name)
      || (name == ""
          && ((x.pc.Onlined? && pc.Unpended?) || (x.pc.Released? && pc.Done?) || (x.pc.Cleaned? && pc.Checked?)))
    case AddUser(pc, _) => x.pc.Pended? && pc.Granted? && x.kind.REGISTER? && x.name !in c.users
    case SetUser(pc, name) => (x.pc.Granted? && pc.Named? && name == x.name) || (x.pc.Left? && pc.Done? && name == "")
    case AddOnline(pc) => x.pc.Named? && pc.Onlined?
    case EraseOnline(pc, name) => x.pc.Leaving? && pc.Left? && name == x.pc.name
  }

  lemma TurnAllowed(sha: Digest, c: Chat, x: Handler, a: Action)
    requires Typed(x) && Turn(sha, c, x, a).Some?
    ensures Allowed(c, x, Turn(sha, c, x, a).value)
  {
    hide VerifyPassword, HashPassword;
  }

  lemma AllowedTyped(c: Chat, x: Handler, e: Effect)
    requires Typed(x) && Allowed(c, x, e)
    ensures Typed(x.(pc := e.pc))
  {
    hide Get;
  }

  lemma ApplyMoves(c: Chat, h: HandlerId, e: Effect)
    requires h in c.handlers
    ensures Apply(c, h, e).handlers == Move(c.handlers, h, e.pc)
  {
    hide Move;
  }

  lemma ApplyTyped(c: Chat, h: HandlerId, e: Effect)
    requires AllTyped(c.handlers) && h in c.handlers && Allowed(c, c.handlers[h], e)
    ensures AllTyped(Apply(c, h, e).handlers)
  {
    hide Apply, Typed, Allowed;
    ApplyMoves(c, h, e);
    AllowedTyped(c, c.handlers[h], e);
  }

  /** How a turn moves login_mutex_. */
  lemma LockMoves(c: Chat, h: HandlerId, e: Effect)
    requires h in c.handlers && Typed(c.handlers[h]) && Allowed(c, c.handlers[h], e)
    ensures var d, x := Apply(c, h, e), c.handlers[h];
      if e.TakeLock? then d.lock == Some(h) && c.lock.None? && e.pc.Scanning?
      else if e.DropLock? || e.Insert? then d.lock.None? && !e.pc.Scanning? && (c.lock.Some? ==> x.pc.Scanning?)
      else d.lock == c.lock && (e.pc.Scanning? <==> x.pc.Scanning?)
  {
    hide Get, Move, Steals;
  }

  lemma ApplyLocked(c: Chat, h: HandlerId, e: Effect)
    requires Locked(c.handlers, c.lock) && h in c.handlers && Typed(c.handlers[h]) && Allowed(c, c.handlers[h], e)
    ensures Locked(Apply(c, h, e).handlers, Apply(c, h, e).lock)
  {
    hide Apply, Typed, Allowed;
    ApplyMoves(c, h, e);
    LockMoves(c, h, e);
  }

  /** How a turn moves login_in_progress_. */
  lemma ReservedMoves(c: Chat, h: HandlerId, e: Effect)
    requires h in c.handlers && Typed(c.handlers[h]) && Allowed(c, c.handlers[h], e)
    ensures var d, x := Apply(c, h, e), c.handlers[h];
      && d.reserved <= c.reserved + {x.name}
      && (x.name in d.reserved && !Critical(x.(pc := e.pc)) ==> x.name in c.reserved && !Critical(x))
  {
    hide Get, Move, Steals;
  }

  lemma ApplyReservations(c: Chat, h: HandlerId, e: Effect)
    requires ReservationsOwned(c.handlers, c.reserved) && h in c.handlers && Typed(c.handlers[h])
    requires Allowed(c, c.handlers[h], e)
    ensures ReservationsOwned(Apply(c, h, e).handlers, Apply(c, h, e).reserved)
  {
    hide Apply, Typed, Allowed, Critical;
    ApplyMoves(c, h, e);
    ReservedMoves(c, h, e);
    var d := Apply(c, h, e);
    forall u | u in d.reserved ensures exists g :: Holds(d.handlers, g, u) {
      if u == c.handlers[h].name && Critical(d.handlers[h]) {
        assert Holds(d.handlers, h, u);
      } else {
        var g :| Holds(c.handlers, g, u);
        assert Holds(d.handlers, g, u);
      }
    }
  }

  /** No task comes back to life, and a disconnect handler cleans up only what is pending. */
  lemma PlacedMoves(c: Chat, h: HandlerId, e: Effect)
    requires h in c.handlers && Typed(c.handlers[h]) && Allowed(c, c.handlers[h], e)
    ensures var d, x := Apply(c, h, e), c.handlers[h];
      && d.handlers == Move(c.handlers, h, e.pc)
      && !x.pc.Done?
      && (e.pc.Cleaning? ==> Get(c.pending, x.session) != "")
      && (e.pc.Cleaned? ==> x.pc.Cleaning?)
      && (d.live, d.known, d.raised, d.removing, d.apart, d.serial) ==
           (c.live, c.known, c.raised, c.removing, c.apart, c.serial)
      && d.clean == (c.clean && !Steals(c, e))
  {
    hide Get;
  }

  lemma ApplyOneLoop(c: Chat, h: HandlerId, e: Effect)
    requires OneLoop(c.handlers, c.removing) && h in c.handlers && Typed(c.handlers[h]) && Allowed(c, c.handlers[h], e)
    ensures OneLoop(Apply(c, h, e).handlers, Apply(c, h, e).removing)
  {
    hide Apply, Typed, Allowed;
    PlacedMoves(c, h, e);
    var d := Apply(c, h, e);
    assert forall g :: g in d.handlers ==>
      d.handlers[g].kind == c.handlers[g].kind && (c.handlers[g].pc.Done? ==> d.handlers[g].pc.Done?);
  }

  lemma LoopSteps(sha: Digest, c: Chat, a: Action)
    requires OneLoop(c.handlers, c.removing) && Step(sha, c, a).Some? && !OfHandler(a)
    ensures var d := Step(sha, c, a).value; OneLoop(d.handlers, d.removing)
  {
  }

  /** A new handler starts outside its critical section. */
  lemma SpawnBase(c: Chat, h: HandlerId, x: Handler)
    requires Base(c) && h !in c.handlers && x.pc.Begin?
    ensures var d := c.handlers[h := x]; AllTyped(d) && ReservationsOwned(d, c.reserved) && Locked(d, c.lock)
  {
    var d := c.handlers[h := x];
    forall u | u in c.reserved ensures exists g :: Holds(d, g, u) {
      var g :| Holds(c.handlers, g, u);
      assert Holds(d, g, u);
    }
  }

  lemma TypedAt(c: Chat, h: HandlerId)
    requires AllTyped(c.handlers)
    ensures h in c.handlers ==> Typed(c.handlers[h])
  {
  }

  lemma BaseKeeps(sha: Digest, c: Chat, a: Action)
    requires Base(c) && Step(sha, c, a).Some?
    ensures Base(Step(sha, c, a).value)
  {
    TypedAt(c, if OfHandler(a) then a.h else 0);
    if !OfHandler(a) {
      LoopSteps(sha, c, a);
    }
    hide AllTyped, ReservationsOwned, Locked, OneLoop, CallbacksDone, Turn, Apply, Typed, Allowed;
    var d := Step(sha, c, a).value;
    if a.Raise? || a.Spawn? {
      SpawnBase(c, a.h, d.handlers[a.h]);
    } else if OfHandler(a) {
      var x := c.handlers[a.h];
      var e := Turn(sha, c, x, a).value;
      TurnAllowed(sha, c, x, a);
      ApplyTyped(c, a.h, e);
      ApplyLocked(c, a.h, e);
      ApplyReservations(c, a.h, e);
      ApplyOneLoop(c, a.h, e);
    }
  }

  lemma {:induction false} RunBase(sha: Digest, c: Chat, acts: seq<Action>)
    requires Base(c) && Run(sha, c, acts).Some?
    ensures Base(Run(sha, c, acts).value)
    decreases |acts|
  {
    hide Base, Step;
    if acts != [] {
      BaseKeeps(sha, c, acts[0]);
      RunBase(sha, Step(sha, c, acts[0]).value, acts[1..]);
    }
  }

  /** Reservations never leak: in every run, whatever is removed whenever, each name in
      login_in_progress_ is that of a handler which has inserted it and not yet erased it;
      so when no handler is running the set is empty and login_mutex_ is free. */
  lemma ReservationsNeverLeak(sha: Digest, users: map<Name, string>, acts: seq<Action>)
    requires Run(sha, Start(users), acts).Some?
    ensures var c := Run(sha, Start(users), acts).value;
      && (forall u :: u in c.reserved ==> exists h :: Holds(c.handlers, h, u))
      && (Quiet(c.handlers) ==> c.reserved == {} && c.lock.None?)
  {
    hide Run;
    assert Base(Start(users));
    RunBase(sha, Start(users), acts);
    var c := Run(sha, Start(users), acts).value;
    assert Quiet(c.handlers) ==> forall h, u :: !Holds(c.handlers, h, u);
  }

  // ---------------------------------------------------------------- clean runs

  /** Handlers in their critical section hold reservations of different names. */
  ghost predicate Exclusive(handlers: Handlers, reserved: set<Name>) {
    && (forall h :: h in handlers && Critical(handlers[h]) ==> handlers[h].name in reserved)
    && (forall h, g :: h in handlers && g in handlers && h != g && Critical(handlers[h]) && Critical(handlers[g])
          ==> handlers[h].name != handlers[g].name)
  }

  /** What a scanning LOGIN has established so far. */
  ghost predicate Scanned(handlers: Handlers, reserved: set<Name>, live: set<Session>, username: Names) {
    forall h :: h in handlers && handlers[h].pc.Scanning? ==>
      && handlers[h].name !in reserved
      && forall s :: s in live ==> s in handlers[h].pc.left || Get(username, s) != handlers[h].name
  }

  /** A handler about to set a username nobody in the table may have. */
  predicate Expecting(x: Handler) {
    (x.kind.LOGIN? && (x.pc.Reserved? || x.pc.Pended?)) || x.pc.Granted?
  }

  /** LOGIN knows from its scan, REGISTER from the primary key, that the name is free. */
  ghost predicate NobodyElse(handlers: Handlers, live: set<Session>, username: Names) {
    forall h, s :: h in handlers && Expecting(handlers[h]) && s in live ==> Get(username, s) != handlers[h].name
  }

  /** Usernames in use are registered, and carried by sessions that were accepted. */
  ghost predicate Registered(handlers: Handlers, username: Names, users: map<Name, string>, known: set<Session>) {
    && (forall s :: Get(username, s) != "" ==> s in known && Get(username, s) in users)
    && (forall h :: h in handlers && handlers[h].pc.Granted? ==> handlers[h].name in users)
  }

  /** At most one session in the table carries any given username. */
  ghost predicate SingleLogin(live: set<Session>, username: Names) {
    forall s, t :: s in live && t in live && s != t && Get(username, s) != "" ==> Get(username, s) != Get(username, t)
  }

  /** Between set_pending_login and clear_pending_login. */
  predicate Waiting(x: Handler) {
    x.kind.Auth() && (x.pc.Pended? || x.pc.Granted? || x.pc.Named? || x.pc.Onlined? || x.pc.Denied? || x.pc.Released?)
  }

  predicate Pending(handlers: Handlers, h: HandlerId, s: Session, u: Name) {
    h in handlers && handlers[h].session == s && handlers[h].name == u && Waiting(handlers[h])
  }

  ghost predicate PendingOwned(handlers: Handlers, pending: Names) {
    forall s :: Get(pending, s) != "" ==> exists h :: Pending(handlers, h, s, Get(pending, s))
  }

  /** A disconnect handler is for a session that has left the table. */
  ghost predicate Placed(handlers: Handlers, live: set<Session>, known: set<Session>, raised: set<Session>) {
    && (forall h :: h in handlers && handlers[h].kind.DISCONNECT? ==> handlers[h].session in raised)
    && (forall s :: s in raised ==> s !in live)
    && (forall h :: h in handlers ==> handlers[h].session in known)
    && live <= known && raised <= known
  }

  ghost predicate Safe(c: Chat) {
    && Exclusive(c.handlers, c.reserved) && Scanned(c.handlers, c.reserved, c.live, c.username)
    && NobodyElse(c.handlers, c.live, c.username) && Registered(c.handlers, c.username, c.users, c.known)
    && SingleLogin(c.live, c.username) && PendingOwned(c.handlers, c.pending)
    && Placed(c.handlers, c.live, c.known, c.raised) && (c.removing.Some? ==> c.removing.value in c.known - c.live)
  }

  lemma ApplyPlaced(c: Chat, h: HandlerId, e: Effect)
    requires Placed(c.handlers, c.live, c.known, c.raised)
    requires h in c.handlers && Typed(c.handlers[h]) && Allowed(c, c.handlers[h], e)
    ensures Placed(Apply(c, h, e).handlers, c.live, c.known, c.raised)
  {
    hide Get, Apply, Allowed;
    PlacedMoves(c, h, e);
  }

  lemma GetUpdate(names: Names, s: Session, name: Name, t: Session)
    ensures Get(names[s := name], t) == if t == s then name else Get(names, t)
  {
  }

  /** How a turn moves the pending login. */
  lemma PendingMoves(c: Chat, h: HandlerId, e: Effect)
    requires h in c.handlers && Typed(c.handlers[h]) && Allowed(c, c.handlers[h], e)
    ensures var d, x := Apply(c, h, e), c.handlers[h];
      && d.pending == (if e.Pend? then c.pending[x.session := e.name] else c.pending)
      && (e.Pend? && e.name != "" ==> e.name == x.name && Waiting(x.(pc := e.pc)))
      && (Waiting(x) && !Waiting(x.(pc := e.pc)) ==> e.Pend? && e.name == "")
  {
    hide Get, Move, Steals;
  }

  lemma ApplyPending(c: Chat, h: HandlerId, e: Effect)
    requires PendingOwned(c.handlers, c.pending)
    requires h in c.handlers && Typed(c.handlers[h]) && Allowed(c, c.handlers[h], e)
    ensures PendingOwned(Apply(c, h, e).handlers, Apply(c, h, e).pending)
  {
    hide Get, Apply, Allowed, Typed, Waiting;
    ApplyMoves(c, h, e);
    PendingMoves(c, h, e);
    var d, x := Apply(c, h, e), c.handlers[h];
    forall s | Get(d.pending, s) != "" ensures exists g :: Pending(d.handlers, g, s, Get(d.pending, s)) {
      if e.Pend? {
        GetUpdate(c.pending, x.session, e.name, s);
      }
      if e.Pend? && s == x.session {
        assert Pending(d.handlers, h, s, e.name);
      } else {
        var g :| Pending(c.handlers, g, s, Get(c.pending, s));
        assert Pending(d.handlers, g, s, Get(c.pending, s));
      }
    }
  }

  /** How a handler that steals nothing moves in and out of its critical section. */
  lemma CriticalMoves(c: Chat, h: HandlerId, e: Effect)
    requires h in c.handlers && Typed(c.handlers[h]) && Allowed(c, c.handlers[h], e) && !Steals(c, e)
    ensures var d, x := Apply(c, h, e), c.handlers[h];
      var y := x.(pc := e.pc);
      && d.handlers == Move(c.handlers, h, e.pc)
      && (!Critical(x) && Critical(y) ==>
           d.reserved == c.reserved + {x.name} && (x.pc.Scanning? || x.name !in c.reserved))
      && (Critical(x) && !Critical(y) ==> d.reserved == c.reserved - {x.name})
      && (Critical(x) == Critical(y) ==> d.reserved == c.reserved)
  {
    hide Get;
  }

  lemma ApplyExclusive(c: Chat, h: HandlerId, e: Effect)
    requires Exclusive(c.handlers, c.reserved) && h in c.handlers && !Steals(c, e)
    requires Typed(c.handlers[h]) && Allowed(c, c.handlers[h], e)
    requires c.handlers[h].pc.Scanning? ==> c.handlers[h].name !in c.reserved
    ensures Exclusive(Apply(c, h, e).handlers, Apply(c, h, e).reserved)
  {
    hide Apply, Allowed, Typed;
    CriticalMoves(c, h, e);
  }

  /** What a turn means to a handler that scans. */
  lemma ScanMoves(c: Chat, h: HandlerId, e: Effect)
    requires h in c.handlers && Typed(c.handlers[h]) && Allowed(c, c.handlers[h], e)
    ensures var d, x := Apply(c, h, e), c.handlers[h];
      && d.live == c.live
      && (e.SetUser? ==> d.username == c.username[x.session := e.name])
      && (e.SetUser? && e.name != "" ==> e.name == x.name && Critical(x))
      && (!e.SetUser? ==> d.username == c.username)
      && (c.lock.Some? && !x.pc.Scanning? ==> d.reserved == c.reserved)
      && (e.pc.Scanning? ==> d.reserved == c.reserved)
      && (e.pc.Scanning? && !x.pc.Scanning? ==> e.pc.left == c.live && x.name !in c.reserved)
      && (e.pc.Scanning? && x.pc.Scanning? ==>
            exists s | s in x.pc.left :: e.pc.left == x.pc.left - {s} && Get(c.username, s) != x.name)
  {
    hide Get, Move, Steals;
  }

  lemma ScanningNamed(c: Chat)
    requires AllTyped(c.handlers)
    ensures forall h :: h in c.handlers && c.handlers[h].pc.Scanning? ==> c.handlers[h].name != ""
  {
  }

  lemma ApplyScanned(c: Chat, h: HandlerId, e: Effect)
    requires Scanned(c.handlers, c.reserved, c.live, c.username) && Exclusive(c.handlers, c.reserved)
    requires Locked(c.handlers, c.lock) && AllTyped(c.handlers)
    requires h in c.handlers && Allowed(c, c.handlers[h], e)
    ensures var d := Apply(c, h, e); Scanned(d.handlers, d.reserved, d.live, d.username)
  {
    var x, d := c.handlers[h], Apply(c, h, e);
    ApplyMoves(c, h, e);
    ScanMoves(c, h, e);
    ScanningNamed(c);
    hide Get, Apply, Allowed, Typed, Critical;
    if e.SetUser? {
      forall s ensures Get(d.username, s) == if s == x.session then e.name else Get(c.username, s) {
        GetUpdate(c.username, x.session, e.name, s);
      }
    }
  }

  /** When a handler comes to expect its name to be free, and what it writes. */
  lemma ExpectingMoves(c: Chat, h: HandlerId, e: Effect)
    requires h in c.handlers && Typed(c.handlers[h]) && Allowed(c, c.handlers[h], e)
    ensures var d, x := Apply(c, h, e), c.handlers[h];
      && d.handlers == Move(c.handlers, h, e.pc)
      && d.live == c.live
      && (Expecting(x.(pc := e.pc)) ==>
            Expecting(x) || x.pc == Scanning({}) || (x.pc.Pended? && x.name !in c.users))
      && (if e.SetUser? then
            d.username == c.username[x.session := e.name]
            && !Expecting(x.(pc := e.pc)) && (e.name != "" ==> Critical(x) && e.name == x.name)
          else d.username == c.username)
  {
    hide Get;
  }

  lemma TypedExpecting(c: Chat)
    requires AllTyped(c.handlers)
    ensures forall h :: h in c.handlers && Expecting(c.handlers[h]) ==> c.handlers[h].name != ""
  {
  }

  lemma ApplyNobodyElse(c: Chat, h: HandlerId, e: Effect)
    requires NobodyElse(c.handlers, c.live, c.username) && AllTyped(c.handlers)
    requires Exclusive(c.handlers, c.reserved)
    requires h in c.handlers && Allowed(c, c.handlers[h], e)
    requires forall s :: s in c.live && c.handlers[h].pc == Scanning({}) ==> Get(c.username, s) != c.handlers[h].name
    requires forall s :: s in c.live && c.handlers[h].name !in c.users && c.handlers[h].pc.Pended? ==>
      Get(c.username, s) != c.handlers[h].name
    ensures var d := Apply(c, h, e); NobodyElse(d.handlers, d.live, d.username)
  {
    hide Get, Apply, Allowed;
    ExpectingMoves(c, h, e);
    TypedExpecting(c);
    hide AllTyped;
    var x := c.handlers[h];
    if e.SetUser? {
      forall s
        ensures Get(c.username[x.session := e.name], s) == if s == x.session then e.name else Get(c.username, s)
      {
        GetUpdate(c.username, x.session, e.name, s);
      }
    }
  }

  /** How a turn moves users and usernames. */
  lemma UsersMove(c: Chat, h: HandlerId, e: Effect)
    requires h in c.handlers && Allowed(c, c.handlers[h], e)
    ensures var d, x := Apply(c, h, e), c.handlers[h];
      && c.users.Keys <= d.users.Keys && d.known == c.known
      && (e.pc.Granted? ==> x.name in d.users)
      && (e.SetUser? && e.name != "" ==> x.pc.Granted? && e.name == x.name)
      && d.username == (if e.SetUser? then c.username[x.session := e.name] else c.username)
  {
    hide Get, Move, Steals;
  }

  lemma ApplyRegistered(c: Chat, h: HandlerId, e: Effect)
    requires Registered(c.handlers, c.username, c.users, c.known)
    requires h in c.handlers && c.handlers[h].session in c.known && Allowed(c, c.handlers[h], e)
    ensures var d := Apply(c, h, e); Registered(d.handlers, d.username, d.users, d.known)
  {
    hide Get, Apply, Allowed;
    ApplyMoves(c, h, e);
    UsersMove(c, h, e);
    var d, x := Apply(c, h, e), c.handlers[h];
    forall s | Get(d.username, s) != "" ensures s in d.known && Get(d.username, s) in d.users {
      if e.SetUser? {
        GetUpdate(c.username, x.session, e.name, s);
      }
    }
  }

  lemma ApplySingle(c: Chat, h: HandlerId, e: Effect)
    requires SingleLogin(c.live, c.username) && NobodyElse(c.handlers, c.live, c.username)
    requires h in c.handlers && Allowed(c, c.handlers[h], e)
    ensures var d := Apply(c, h, e); SingleLogin(d.live, d.username)
  {
  }

  /** What the invariant says about one handler. */
  lemma HandlerFacts(c: Chat, h: HandlerId)
    requires Base(c) && Safe(c) && h in c.handlers
    ensures var x := c.handlers[h];
      && Typed(x) && x.session in c.known
      && (x.pc.Scanning? ==> x.name !in c.reserved)
      && (forall s :: s in c.live && x.pc == Scanning({}) ==> Get(c.username, s) != x.name)
      && (forall s :: s in c.live && x.name !in c.users && x.pc.Pended? ==> Get(c.username, s) != x.name)
  {
    hide ReservationsOwned, Locked, Exclusive, NobodyElse, SingleLogin, PendingOwned;
  }

  lemma HandlerSafe(c: Chat, h: HandlerId, e: Effect)
    requires Base(c) && Safe(c) && h in c.handlers && Allowed(c, c.handlers[h], e) && !Steals(c, e)
    ensures Safe(Apply(c, h, e))
  {
    var x := c.handlers[h];
    HandlerFacts(c, h);
    hide AllTyped, ReservationsOwned, Locked, Typed, Allowed, Apply;
    hide Exclusive, Scanned, NobodyElse, Registered, SingleLogin, PendingOwned, Placed;
    PlacedMoves(c, h, e);
    ApplyPlaced(c, h, e);
    ApplyPending(c, h, e);
    ApplyExclusive(c, h, e);
    ApplyScanned(c, h, e);
    ApplyNobodyElse(c, h, e);
    ApplyRegistered(c, h, e);
    ApplySingle(c, h, e);
  }

  /** A new handler has done nothing yet. */
  lemma NewHandlerSafe(c: Chat, h: HandlerId, x: Handler)
    requires Safe(c) && h !in c.handlers && x.pc.Begin?
    ensures var d := c.handlers[h := x];
      && Exclusive(d, c.reserved) && Scanned(d, c.reserved, c.live, c.username) && NobodyElse(d, c.live, c.username)
      && Registered(d, c.username, c.users, c.known) && PendingOwned(d, c.pending)
  {
    hide SingleLogin, Placed, Get;
    var d := c.handlers[h := x];
    forall s | Get(c.pending, s) != "" ensures exists g :: Pending(d, g, s, Get(c.pending, s)) {
      var g :| Pending(c.handlers, g, s, Get(c.pending, s));
      assert Pending(d, g, s, Get(c.pending, s));
    }
  }

  lemma SpawnSafe(c: Chat, h: HandlerId, kind: Kind, s: Session, name: Name, password: string)
    requires Safe(c) && DoSpawn(c, h, kind, s, name, password).Some?
    ensures Safe(DoSpawn(c, h, kind, s, name, password).value)
  {
    NewHandlerSafe(c, h, Handler(kind, s, name, password, Begin));
    hide Exclusive, Scanned, NobodyElse, Registered, SingleLogin, PendingOwned;
  }

  lemma RaiseSafe(c: Chat, s: Session, h: HandlerId)
    requires Safe(c) && DoRaise(c, s, h).Some?
    ensures Safe(DoRaise(c, s, h).value)
  {
    NewHandlerSafe(c, h, Handler(DISCONNECT, s, "", "", Begin));
    hide Exclusive, Scanned, NobodyElse, Registered, SingleLogin, PendingOwned;
  }

  lemma AcceptSafe(c: Chat, s: Session)
    requires Base(c) && Safe(c) && DoAccept(c, s).Some?
    ensures Safe(DoAccept(c, s).value)
  {
    hide Exclusive, PendingOwned, Get, ReservationsOwned, AllTyped;
    assert Get(c.username, s) == "";
    assert forall h :: h in c.handlers ==> !c.handlers[h].pc.Scanning?;
    TypedExpecting(c);
  }

  lemma UnlinkSafe(c: Chat, s: Session)
    requires Base(c) && Safe(c) && DoUnlink(c, s).Some?
    ensures Safe(DoUnlink(c, s).value)
  {
    hide Exclusive, PendingOwned, Get, ReservationsOwned, AllTyped, Registered;
  }

  lemma SafeKeeps(sha: Digest, c: Chat, a: Action)
    requires Base(c) && (c.clean ==> Safe(c)) && Step(sha, c, a).Some?
    ensures Step(sha, c, a).value.clean ==> c.clean && Safe(Step(sha, c, a).value)
  {
    TypedAt(c, if OfHandler(a) then a.h else 0);
    hide AllTyped, ReservationsOwned, Locked, Safe, Turn, Apply, Allowed, Typed;
    var d := Step(sha, c, a).value;
    if OfHandler(a) {
      var x := c.handlers[a.h];
      var e := Turn(sha, c, x, a).value;
      TurnAllowed(sha, c, x, a);
      PlacedMoves(c, a.h, e);
      if d.clean {
        HandlerSafe(c, a.h, e);
      }
    } else if d.clean {
      match a
      case Accept(s) => AcceptSafe(c, s);
      case Unlink(s) => UnlinkSafe(c, s);
      case Raise(s, h) => RaiseSafe(c, s, h);
      case Spawn(h, kind, s, name, password) => SpawnSafe(c, h, kind, s, name, password);
    }
  }

  lemma {:induction false} RunSafe(sha: Digest, c: Chat, acts: seq<Action>)
    requires Base(c) && (c.clean ==> Safe(c)) && Run(sha, c, acts).Some?
    ensures Run(sha, c, acts).value.clean ==> Safe(Run(sha, c, acts).value)
    decreases |acts|
  {
    hide Base, Safe, Step;
    if acts != [] {
      BaseKeeps(sha, c, acts[0]);
      SafeKeeps(sha, c, acts[0]);
      RunSafe(sha, Step(sha, c, acts[0]).value, acts[1..]);
    }
  }

  /** Single login, over any number of sessions, workers and messages of one session at
      once: as long as no disconnect callback has erased a reservation that was still held,
      at most one session in the table carries any given username, and handlers in their
      critical sections hold different names. */
  lemma OneSessionPerName(sha: Digest, users: map<Name, string>, acts: seq<Action>)
    requires Run(sha, Start(users), acts).Some? && Run(sha, Start(users), acts).value.clean
    ensures var c := Run(sha, Start(users), acts).value;
      && (forall s, t :: s in c.live && t in c.live && s != t && Get(c.username, s) != "" ==>
           Get(c.username, s) != Get(c.username, t))
      && (forall h, g, u :: Holds(c.handlers, h, u) && Holds(c.handlers, g, u) ==> h == g)
      && (forall s :: s in c.live && Get(c.username, s) != "" ==> Get(c.username, s) in c.users)
  {
    hide Run;
    assert Base(Start(users)) && Safe(Start(users));
    RunSafe(sha, Start(users), acts);
    hide Scanned, NobodyElse, PendingOwned, Placed;
  }
}
