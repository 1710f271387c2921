/**
  Two disciplines under which no turn strays: handlers and removals of one session do not
  overlap, nor a LOGIN with the removal of a session carrying its name (`apart`); and every
  handler and every removal runs to completion before the next (`serial`).
*/
module OnlineApart {
  import opened Wrappers
  import opened Passwords
  import opened LoginProtocol
  import opened LoginSafety
  import opened OnlineIndex

  // ---------------------------------------------------------------- the invariant

  /** At most one handler or removal at a time is about any one session. */
  ghost predicate OnePer(handlers: Handlers, removing: Option<Session>) {
    && (forall h, g :: h in handlers && g in handlers && h != g && !handlers[h].pc.Done? && !handlers[g].pc.Done?
          ==> handlers[h].session != handlers[g].session)
    && (removing.Some? ==> Free(handlers, removing.value))
  }

  /** Only the disconnect callback works for a session outside the table. */
  ghost predicate Homes(handlers: Handlers, live: set<Session>) {
    forall h :: h in handlers && !handlers[h].pc.Done? ==>
      (handlers[h].kind.DISCONNECT? <==> handlers[h].session !in live)
  }

  /** What a handler at work knows about its session's username. */
  predicate Knows(x: Handler, username: Names) {
    var name := Get(username, x.session);
    match x.pc
    case Checked => x.kind.Auth() ==> name == ""
    case Scanning(_) => name == ""
    case Reserved => name == ""
    case Pended => name == ""
    case Granted => name == ""
    case Named => name == x.name
    case Entered => name != ""
    case Leaving(u) => name == u && u != ""
    case _ => true
  }

  ghost predicate KnowsAll(handlers: Handlers, username: Names) {
    forall h :: h in handlers ==> Knows(handlers[h], username)
  }

  /** A handler that may set its name, or is on its way there. */
  predicate Claims(x: Handler) {
    x.name != "" && ((x.kind.LOGIN? && !x.pc.Done?) || x.pc.Granted?)
  }

  ghost predicate GoneFree(handlers: Handlers, going: set<Session>, username: Names) {
    forall h, s :: h in handlers && Claims(handlers[h]) && s in going ==> Get(username, s) != handlers[h].name
  }

  ghost predicate GoneAlone(live: set<Session>, going: set<Session>, username: Names) {
    forall s, t :: s in going && t in live && Get(username, s) != "" ==> Get(username, t) != Get(username, s)
  }

  /** No disconnect callback has found a pending login. */
  ghost predicate NothingToClean(handlers: Handlers) {
    forall h :: h in handlers ==> !handlers[h].pc.Cleaning? && !handlers[h].pc.Cleaned?
  }

  ghost predicate ApartInv(c: Chat) {
    && c.clean && NothingToClean(c.handlers) && OnePer(c.handlers, c.removing) && Homes(c.handlers, c.live)
    && KnowsAll(c.handlers, c.username) && GoneFree(c.handlers, Going(c.handlers, c.removing), c.username)
    && GoneAlone(c.live, Going(c.handlers, c.removing), c.username)
  }

  // ---------------------------------------------------------------- no turn strays

  /** The event loop is in one removal at most, of a session outside the table. */
  lemma OneGoing(c: Chat)
    requires Base(c) && Safe(c)
    ensures Going(c.handlers, c.removing) !! c.live
    ensures forall s, t :: s in Going(c.handlers, c.removing) && t in Going(c.handlers, c.removing) ==> s == t
  {
    hide AllTyped, ReservationsOwned, Locked, Exclusive, Scanned, NobodyElse, Registered, SingleLogin, PendingOwned;
  }

  lemma SafeSingle(c: Chat)
    requires Safe(c)
    ensures SingleLogin(c.live, c.username)
  {
    hide Exclusive, Scanned, NobodyElse, Registered, SingleLogin, PendingOwned, Placed;
  }

  /** One session per name, sessions that are going included. */
  lemma PresentSingle(c: Chat)
    requires Base(c) && Safe(c) && GoneAlone(c.live, Going(c.handlers, c.removing), c.username)
    ensures SingleLogin(c.live + Going(c.handlers, c.removing), c.username)
  {
    OneGoing(c);
    SafeSingle(c);
    hide Base, Safe, Going;
  }

  /** The session of a handler that is about to take its name off the index is there. */
  lemma LeaverPresent(c: Chat, h: HandlerId)
    requires Homes(c.handlers, c.live) && h in c.handlers && c.handlers[h].pc.Leaving?
    ensures c.handlers[h].session in c.live + Going(c.handlers, c.removing)
  {
  }

  lemma ApartEffect(c: Chat, h: HandlerId, e: Effect)
    requires ApartInv(c) && h in c.handlers && Typed(c.handlers[h]) && Allowed(c, c.handlers[h], e)
    ensures e.SetUser? && e.pc.Named? ==> c.handlers[h].pc.Granted?
    ensures e.AddOnline? ==> WillShow(c, h)
    ensures e.EraseOnline? ==> c.handlers[h].pc.Leaving? && e.name == c.handlers[h].pc.name
  {
    hide Get, GoneFree, GoneAlone, Knows, NothingToClean, Going;
  }

  /** A name that only this session shows can be taken off with it. */
  lemma ErasesItsOwn(c: Chat, h: HandlerId, e: Effect)
    requires h in c.handlers && e.EraseOnline?
    requires SingleLogin(c.live + Going(c.handlers, c.removing), c.username)
    requires c.handlers[h].session in c.live + Going(c.handlers, c.removing)
    requires Get(c.username, c.handlers[h].session) == e.name != ""
    ensures !Strays(c, h, e)
  {
    hide Get, Going, Hidden;
  }

  lemma KnowsAt(c: Chat, h: HandlerId)
    requires KnowsAll(c.handlers, c.username) && h in c.handlers
    ensures var x := c.handlers[h];
      && (x.pc.Granted? ==> Get(c.username, x.session) == "")
      && (x.pc.Named? ==> Get(c.username, x.session) == x.name)
      && (x.pc.Leaving? ==> Get(c.username, x.session) == x.pc.name != "")
  {
    hide Get;
    assert Knows(c.handlers[h], c.username);
  }

  /** LOGIN and LOGOUT find their session as they left it, and no other shows its name. */
  lemma ApartTurn(c: Chat, h: HandlerId, e: Effect)
    requires Base(c) && Safe(c) && ApartInv(c) && h in c.handlers
    requires Typed(c.handlers[h]) && Allowed(c, c.handlers[h], e)
    ensures !Strays(c, h, e)
  {
    ApartEffect(c, h, e);
    KnowsAt(c, h);
    TurnKinds(c, h, e);
    if e.EraseOnline? {
      PresentSingle(c);
      LeaverPresent(c, h);
      ErasesItsOwn(c, h, e);
    }
    hide Base, Safe, ApartInv, Typed, Allowed, Get, Shows, Shown, WillShow;
  }

  // ---------------------------------------------------------------- a handler's turn

  lemma SelfKnows(c: Chat, h: HandlerId, e: Effect)
    requires h in c.handlers && Typed(c.handlers[h]) && Allowed(c, c.handlers[h], e) && Knows(c.handlers[h], c.username)
    ensures Knows(Apply(c, h, e).handlers[h], Apply(c, h, e).username)
  {
    hide Get;
    if e.SetUser? {
      GetUpdate(c.username, c.handlers[h].session, e.name, c.handlers[h].session);
    }
  }

  lemma OthersKnow(c: Chat, h: HandlerId, e: Effect, g: HandlerId)
    requires OnePer(c.handlers, c.removing) && h in c.handlers && g in c.handlers && g != h && !c.handlers[h].pc.Done?
    requires Knows(c.handlers[g], c.username)
    ensures Knows(c.handlers[g], Apply(c, h, e).username)
  {
    hide Get;
    if e.SetUser? {
      GetUpdate(c.username, c.handlers[h].session, e.name, c.handlers[g].session);
    }
  }

  /** What handlers know stays true: nobody else sets the username of their session. */
  lemma TurnKnows(c: Chat, h: HandlerId, e: Effect)
    requires KnowsAll(c.handlers, c.username) && OnePer(c.handlers, c.removing)
    requires h in c.handlers && !c.handlers[h].pc.Done? && Typed(c.handlers[h]) && Allowed(c, c.handlers[h], e)
    ensures KnowsAll(Apply(c, h, e).handlers, Apply(c, h, e).username)
  {
    var x, d := c.handlers[h], Apply(c, h, e);
    SelfKnows(c, h, e);
    PlacedMoves(c, h, e);
    forall g | g in d.handlers ensures Knows(d.handlers[g], d.username) {
      if g != h {
        assert d.handlers[g] == c.handlers[g];
        OthersKnow(c, h, e, g);
      }
    }
  }

  lemma NothingPending(c: Chat, h: HandlerId)
    requires Safe(c) && OnePer(c.handlers, c.removing) && h in c.handlers && !c.handlers[h].pc.Done?
    ensures c.handlers[h].kind.DISCONNECT? ==> Get(c.pending, c.handlers[h].session) == ""
  {
    hide Exclusive, Scanned, NobodyElse, Registered, SingleLogin, Placed;
  }

  /** A disconnect callback finds nothing pending: its session's handlers are done. */
  lemma NothingFound(c: Chat, h: HandlerId, e: Effect)
    requires Safe(c) && OnePer(c.handlers, c.removing) && NothingToClean(c.handlers)
    requires h in c.handlers && Typed(c.handlers[h]) && Allowed(c, c.handlers[h], e) && !c.handlers[h].pc.Done?
    ensures !Steals(c, e) && NothingToClean(Move(c.handlers, h, e.pc))
  {
    NothingPending(c, h);
    PlacedMoves(c, h, e);
    hide Safe, OnePer, Get, Apply;
  }

  /** What a turn does to names and to those who claim them. */
  lemma ClaimsMove(c: Chat, h: HandlerId, e: Effect)
    requires h in c.handlers && Typed(c.handlers[h]) && Allowed(c, c.handlers[h], e)
    ensures var x, d := c.handlers[h], Apply(c, h, e);
      && (Claims(x.(pc := e.pc)) ==> Claims(x) || x.name !in c.users)
      && (e.SetUser? && e.name != "" ==> Claims(x) && e.name == x.name)
      && d.username == (if e.SetUser? then c.username[x.session := e.name] else c.username)
  {
    hide Get;
  }

  /** A session that is not going any more does not start again. */
  lemma GoingShrinks(c: Chat, h: HandlerId, e: Effect)
    requires h in c.handlers && Typed(c.handlers[h]) && Allowed(c, c.handlers[h], e) && !c.handlers[h].pc.Done?
    ensures Going(Move(c.handlers, h, e.pc), c.removing) <= Going(c.handlers, c.removing)
  {
    var d := Move(c.handlers, h, e.pc);
    assert c.handlers[h].pc.Left? ==> e.pc.Done?;
    hide Allowed, Typed, Get;
    assert d[h] == c.handlers[h].(pc := e.pc);
    assert forall g :: g in c.handlers && g != h ==> g in d && d[g] == c.handlers[g];
  }

  /** Usernames after a turn, as far as sessions that are going are concerned. */
  lemma GoingNames(c: Chat, h: HandlerId, e: Effect, s: Session)
    requires h in c.handlers && Typed(c.handlers[h]) && Allowed(c, c.handlers[h], e) && !c.handlers[h].pc.Done?
    requires Homes(c.handlers, c.live) && s !in c.live
    ensures Get(Apply(c, h, e).username, s) == "" || Get(Apply(c, h, e).username, s) == Get(c.username, s)
  {
    hide Get;
    if e.SetUser? {
      GetUpdate(c.username, c.handlers[h].session, e.name, s);
    }
  }

  lemma ClaimsName(x: Handler)
    requires Claims(x)
    ensures x.name != ""
  {
  }

  lemma SafeRegistered(c: Chat)
    requires Safe(c)
    ensures forall s :: Get(c.username, s) != "" ==> Get(c.username, s) in c.users
  {
    hide Exclusive, Scanned, NobodyElse, SingleLogin, PendingOwned, Placed;
  }

  lemma TurnGoneFree(c: Chat, h: HandlerId, e: Effect)
    requires Base(c) && Safe(c) && ApartInv(c) && h in c.handlers && !c.handlers[h].pc.Done?
    requires Typed(c.handlers[h]) && Allowed(c, c.handlers[h], e)
    ensures var d := Apply(c, h, e); GoneFree(d.handlers, Going(d.handlers, d.removing), d.username)
  {
    hide Base, Safe, Going, Get, Apply, Allowed, Typed, OnePer, Homes, Claims, KnowsAll, NothingToClean;
    var x, d := c.handlers[h], Apply(c, h, e);
    PlacedMoves(c, h, e);
    ClaimsMove(c, h, e);
    OneGoing(c);
    GoingShrinks(c, h, e);
    SafeRegistered(c);
    forall g, s | g in d.handlers && Claims(d.handlers[g]) && s in Going(d.handlers, d.removing)
      ensures Get(d.username, s) != d.handlers[g].name
    {
      GoingNames(c, h, e, s);
      ClaimsName(d.handlers[g]);
      assert g != h ==> d.handlers[g] == c.handlers[g];
    }
  }

  lemma TurnGoneAlone(c: Chat, h: HandlerId, e: Effect)
    requires Base(c) && Safe(c) && ApartInv(c) && h in c.handlers && !c.handlers[h].pc.Done?
    requires Typed(c.handlers[h]) && Allowed(c, c.handlers[h], e)
    ensures var d := Apply(c, h, e); GoneAlone(d.live, Going(d.handlers, d.removing), d.username)
  {
    hide Base, Safe, Going, Get, Apply, Allowed, Typed, OnePer, Homes, Claims, KnowsAll, NothingToClean;
    var x, d := c.handlers[h], Apply(c, h, e);
    PlacedMoves(c, h, e);
    ClaimsMove(c, h, e);
    OneGoing(c);
    GoingShrinks(c, h, e);
    forall s, t | s in Going(d.handlers, d.removing) && t in d.live && Get(d.username, s) != ""
      ensures Get(d.username, t) != Get(d.username, s)
    {
      GoingNames(c, h, e, s);
      if e.SetUser? {
        GetUpdate(c.username, x.session, e.name, t);
      }
    }
  }

  lemma OneMoves(handlers: Handlers, removing: Option<Session>, live: set<Session>, h: HandlerId, pc: Pc)
    requires OnePer(handlers, removing) && Homes(handlers, live) && h in handlers && !handlers[h].pc.Done?
    ensures OnePer(Move(handlers, h, pc), removing) && Homes(Move(handlers, h, pc), live)
  {
    var d := Move(handlers, h, pc);
    assert forall g :: g in d ==> (d[g].session, d[g].kind) == (handlers[g].session, handlers[g].kind);
    assert forall g :: g in d && !d[g].pc.Done? ==> !handlers[g].pc.Done?;
  }

  /** A handler's turn keeps everything. */
  lemma TurnKeeps(c: Chat, h: HandlerId, e: Effect)
    requires Base(c) && Safe(c) && ApartInv(c) && h in c.handlers && Allowed(c, c.handlers[h], e)
    ensures ApartInv(Apply(c, h, e))
  {
    TypedAt(c, h);
    PlacedMoves(c, h, e);
    NothingFound(c, h, e);
    OneMoves(c.handlers, c.removing, c.live, h, e.pc);
    TurnKnows(c, h, e);
    TurnGoneFree(c, h, e);
    TurnGoneAlone(c, h, e);
    hide Base, Safe, NothingToClean, OnePer, Homes, KnowsAll, GoneFree, GoneAlone, Apply, Allowed, Typed;
    hide Steals, Going;
  }

  // ---------------------------------------------------------------- the event loop's steps

  lemma NewSession(c: Chat, s: Session)
    requires Safe(c) && s !in c.known
    ensures Get(c.username, s) == ""
    ensures forall h :: h in c.handlers ==> c.handlers[h].session != s
  {
    hide Exclusive, Scanned, NobodyElse, PendingOwned, Get;
  }

  lemma AcceptKeeps(c: Chat, s: Session)
    requires Base(c) && Safe(c) && ApartInv(c) && DoAccept(c, s).Some?
    ensures ApartInv(DoAccept(c, s).value)
  {
    NewSession(c, s);
    hide Base, Safe, KnowsAll, Get, Going, Hidden;
  }

  lemma UnlinkGoing(c: Chat, s: Session)
    requires CallbacksDone(c.handlers) && c.removing.None?
    ensures Going(c.handlers, Some(s)) == {s}
  {
    assert Going(c.handlers, None) == {};
  }

  /** Nobody at work is about to set the name of the session that leaves. */
  lemma UnlinkFree(c: Chat, s: Session)
    requires Safe(c) && s in c.live && (Get(c.username, s) != "" ==> !Claimed(c.handlers, Get(c.username, s)))
    ensures forall h :: h in c.handlers && Claims(c.handlers[h]) ==> Get(c.username, s) != c.handlers[h].name
  {
    hide Exclusive, Scanned, Registered, SingleLogin, PendingOwned, Placed, Get;
  }

  lemma UnlinkKeeps(c: Chat, s: Session)
    requires Base(c) && Safe(c) && ApartInv(c) && DoUnlink(c, s).Some? && DoUnlink(c, s).value.apart
    ensures ApartInv(DoUnlink(c, s).value)
  {
    UnlinkGoing(c, s);
    UnlinkFree(c, s);
    SafeSingle(c);
    hide Base, Safe, KnowsAll, Get, Going, Claims;
  }

  /** A handler that has done nothing yet, for a session without one. */
  lemma NewHandler(handlers: Handlers, removing: Option<Session>, live: set<Session>, username: Names, h: HandlerId,
                   x: Handler)
    requires h !in handlers && x.pc.Begin? && (x.kind.DISCONNECT? <==> x.session !in live)
    requires OnePer(handlers, removing) && Homes(handlers, live) && KnowsAll(handlers, username)
    requires NothingToClean(handlers)
    requires Free(handlers, x.session) && removing != Some(x.session)
    ensures var d := handlers[h := x];
      OnePer(d, removing) && Homes(d, live) && KnowsAll(d, username) && NothingToClean(d)
  {
    var d := handlers[h := x];
    assert d[h] == x && forall g :: g in handlers ==> d[g] == handlers[g];
    hide Knows;
    assert Knows(x, username);
  }

  lemma NewClaim(handlers: Handlers, going: set<Session>, username: Names, h: HandlerId, x: Handler)
    requires h !in handlers && GoneFree(handlers, going, username)
    requires Claims(x) ==> forall s :: s in going ==> Get(username, s) != x.name
    ensures GoneFree(handlers[h := x], going, username)
  {
    hide Claims, Get;
    var d := handlers[h := x];
    assert d[h] == x && forall g :: g in handlers ==> d[g] == handlers[g];
  }

  lemma RaiseKeeps(c: Chat, s: Session, h: HandlerId)
    requires Base(c) && Safe(c) && ApartInv(c) && DoRaise(c, s, h).Some?
    ensures ApartInv(DoRaise(c, s, h).value)
  {
    assert s !in c.live;
    var x := Handler(DISCONNECT, s, "", "", Begin);
    NewShows(c.handlers, h, x);
    assert Going(c.handlers, Some(s)) == Going(c.handlers, None) + {s};
    NewHandler(c.handlers, None, c.live, c.username, h, x);
    NewClaim(c.handlers, Going(c.handlers, Some(s)), c.username, h, x);
    hide Base, Safe, Get, Going, Hidden, Homes, KnowsAll, NothingToClean, OnePer, GoneFree, GoneAlone;
  }

  lemma SpawnKeeps(c: Chat, h: HandlerId, kind: Kind, s: Session, name: Name, password: string)
    requires Base(c) && Safe(c) && ApartInv(c) && DoSpawn(c, h, kind, s, name, password).Some?
    requires DoSpawn(c, h, kind, s, name, password).value.apart
    ensures ApartInv(DoSpawn(c, h, kind, s, name, password).value)
  {
    assert c.removing.Some? ==> c.removing.value !in c.live;
    var x := Handler(kind, s, name, password, Begin);
    NewShows(c.handlers, h, x);
    NewHandler(c.handlers, c.removing, c.live, c.username, h, x);
    NewClaim(c.handlers, Going(c.handlers, c.removing), c.username, h, x);
    hide Base, Safe, Get, Going, Hidden, Homes, KnowsAll, NothingToClean, OnePer, GoneFree, GoneAlone;
  }

  // ---------------------------------------------------------------- whole runs

  lemma ApartKeeps(sha: Digest, c: Chat, a: Action)
    requires Base(c) && (c.clean ==> Safe(c)) && (c.apart ==> ApartInv(c)) && Step(sha, c, a).Some?
    ensures Step(sha, c, a).value.apart ==> ApartInv(Step(sha, c, a).value)
  {
    TypedAt(c, if OfHandler(a) then a.h else 0);
    var d := Step(sha, c, a).value;
    assert ApartInv(c) ==> c.clean;
    if OfHandler(a) {
      hide Base, Safe, Typed, Turn, Apply, Allowed, ApartInv;
      var x := c.handlers[a.h];
      var e := Turn(sha, c, x, a).value;
      TurnAllowed(sha, c, x, a);
      PlacedMoves(c, a.h, e);
      if c.apart {
        TurnKeeps(c, a.h, e);
      }
    } else if d.apart {
      hide Base, Safe, ApartInv;
      match a
      case Accept(s) => AcceptKeeps(c, s);
      case Unlink(s) => UnlinkKeeps(c, s);
      case Raise(s, h) => RaiseKeeps(c, s, h);
      case Spawn(h, kind, s, name, password) => SpawnKeeps(c, h, kind, s, name, password);
    }
  }

  lemma ApartStep(sha: Digest, c: Chat, a: Action)
    requires Base(c) && (c.clean ==> Safe(c)) && ApartInv(c) && Step(sha, c, a).Some?
    ensures !StraysAt(sha, c, a)
  {
    if OfHandler(a) {
      TypedAt(c, a.h);
      TurnAllowed(sha, c, c.handlers[a.h], a);
      ApartTurn(c, a.h, Turn(sha, c, c.handlers[a.h], a).value);
    }
    hide Base, Safe, ApartInv, Turn, Apply, Strays;
  }

  lemma ApplyFrame(c: Chat, h: HandlerId, e: Effect)
    requires h in c.handlers
    ensures var d := Apply(c, h, e);
      && d.handlers == Move(c.handlers, h, e.pc)
      && (d.live, d.known, d.raised, d.removing, d.apart, d.serial) ==
           (c.live, c.known, c.raised, c.removing, c.apart, c.serial)
  {
  }

  /** The flag only ever falls. */
  lemma ApartBefore(sha: Digest, c: Chat, a: Action)
    requires Step(sha, c, a).Some? && Step(sha, c, a).value.apart
    ensures c.apart
  {
    hide Turn, Get;
    if OfHandler(a) {
      hide Apply;
      ApplyFrame(c, a.h, Turn(sha, c, c.handlers[a.h], a).value);
    }
  }

  lemma {:induction false} RunApartBefore(sha: Digest, c: Chat, acts: seq<Action>)
    requires Run(sha, c, acts).Some? && Run(sha, c, acts).value.apart
    ensures c.apart
    decreases |acts|
  {
    hide Step;
    if acts != [] {
      RunApartBefore(sha, Step(sha, c, acts[0]).value, acts[1..]);
      ApartBefore(sha, c, acts[0]);
    }
  }

  lemma {:induction false} RunSteady(sha: Digest, c: Chat, acts: seq<Action>)
    requires Base(c) && (c.clean ==> Safe(c)) && (c.apart ==> ApartInv(c))
    requires Run(sha, c, acts).Some? && Run(sha, c, acts).value.apart
    ensures Steady(sha, c, acts)
    decreases |acts|
  {
    hide Base, Safe, ApartInv, Step, StraysAt;
    RunApartBefore(sha, c, acts);
    if acts != [] {
      BaseKeeps(sha, c, acts[0]);
      SafeKeeps(sha, c, acts[0]);
      ApartKeeps(sha, c, acts[0]);
      ApartStep(sha, c, acts[0]);
      RunSteady(sha, Step(sha, c, acts[0]).value, acts[1..]);
    }
  }

  lemma StartApart(users: map<Name, string>)
    ensures var c := Start(users); Base(c) && Safe(c) && ApartInv(c)
  {
  }

  /** As long as handlers and removals of one session do not overlap, nor a LOGIN with the
      removal of a session carrying its name, no turn strays; so the index agrees. */
  lemma ApartIsSteady(sha: Digest, users: map<Name, string>, acts: seq<Action>)
    requires Run(sha, Start(users), acts).Some? && Run(sha, Start(users), acts).value.apart
    ensures Steady(sha, Start(users), acts)
  {
    hide Run;
    StartApart(users);
    RunSteady(sha, Start(users), acts);
  }

  // ---------------------------------------------------------------- one after the other

  /** Sessions are in the table, being removed, or removed. */
  ghost predicate Partition(c: Chat) {
    forall s :: s in c.known ==> s in c.live || s in c.raised || c.removing == Some(s)
  }

  lemma PartitionKeeps(sha: Digest, c: Chat, a: Action)
    requires Partition(c) && Step(sha, c, a).Some?
    ensures Partition(Step(sha, c, a).value)
  {
    hide Turn, VerifyPassword, Get;
    if OfHandler(a) && a.h in c.handlers {
      hide Apply;
      ApplyFrame(c, a.h, Turn(sha, c, c.handlers[a.h], a).value);
    }
  }

  lemma SerialStep(sha: Digest, c: Chat, a: Action)
    requires Partition(c) && (c.serial ==> c.apart) && Step(sha, c, a).Some?
    ensures Step(sha, c, a).value.serial ==> Step(sha, c, a).value.apart
  {
    hide Turn, Get;
    if OfHandler(a) {
      hide Apply;
      ApplyFrame(c, a.h, Turn(sha, c, c.handlers[a.h], a).value);
    } else if c.serial && Quiet(c.handlers) && c.removing.None? {
      assert Going(c.handlers, c.removing) == {};
    }
  }

  lemma {:induction false} SerialIsApart(sha: Digest, c: Chat, acts: seq<Action>)
    requires Partition(c) && (c.serial ==> c.apart) && Run(sha, c, acts).Some?
    ensures Run(sha, c, acts).value.serial ==> Run(sha, c, acts).value.apart
    decreases |acts|
  {
    hide Step, Partition;
    if acts != [] {
      PartitionKeeps(sha, c, acts[0]);
      SerialStep(sha, c, acts[0]);
      SerialIsApart(sha, Step(sha, c, acts[0]).value, acts[1..]);
    }
  }

  /** In particular when every handler and every removal runs to completion before the next
      begins, the index agrees after each of them. */
  lemma SerialIndexAgrees(sha: Digest, users: map<Name, string>, acts: seq<Action>)
    requires Run(sha, Start(users), acts).Some?
    requires var c := Run(sha, Start(users), acts).value; c.serial && Quiet(c.handlers) && c.removing.None?
    ensures var c := Run(sha, Start(users), acts).value;
      && (forall u :: u in c.online <==> u != "" && exists s :: s in c.live && Get(c.username, s) == u)
      && c.reserved == {} && (forall s :: Get(c.pending, s) == "")
  {
    hide Run;
    SerialIsApart(sha, Start(users), acts);
    ApartIsSteady(sha, users, acts);
    OnlineIndexAgrees(sha, users, acts);
  }
}
