/**
  The online index.  online_users_ is updated before or after a session's username and its
  place in the table, so that it agrees with them only up to the handlers at work: a session
  does not show in it while a handler of it is between those two updates, and one that has
  left the table still shows until its disconnect callback has come that far.

  A turn strays when it takes the index away from the names that show.  `TurnExactly` says
  that these are the only turns that do.
*/
module OnlineIndex {
  import opened Wrappers
  import opened Passwords
  import opened LoginProtocol
  import opened LoginSafety

  // ---------------------------------------------------------------- the index of a set of sessions

  ghost predicate Shows(sessions: set<Session>, username: Names, u: Name) {
    u != "" && exists s :: s in sessions && Get(username, s) == u
  }

  /** online_users_ is exactly the usernames of these sessions. */
  ghost predicate Agree(sessions: set<Session>, username: Names, online: set<Name>) {
    forall u :: u in online <==> Shows(sessions, username, u)
  }

  /** A name shows through one session or through the others. */
  lemma ShowsThrough(sessions: set<Session>, username: Names, s: Session)
    ensures forall u :: Shows(sessions, username, u) <==>
      Shows(sessions - {s}, username, u) || (s in sessions && u != "" && u == Get(username, s))
  {
    forall u ensures Shows(sessions, username, u) <==>
      Shows(sessions - {s}, username, u) || (s in sessions && u != "" && u == Get(username, s))
    {
      if Shows(sessions, username, u) {
        var t :| t in sessions && Get(username, t) == u;
        assert t != s ==> t in sessions - {s};
      }
    }
  }

  /** The name of a session outside makes no difference. */
  lemma ShowsElsewhere(sessions: set<Session>, username: Names, s: Session, name: Name)
    requires s !in sessions
    ensures forall u :: Shows(sessions, username[s := name], u) <==> Shows(sessions, username, u)
  {
    forall t | t in sessions ensures Get(username[s := name], t) == Get(username, t) {
      GetUpdate(username, s, name, t);
    }
  }

  // ---------------------------------------------------------------- the sessions that show

  /** A handler of this kind of step keeps its session's name off the index. */
  predicate Hides(pc: Pc) {
    pc.Named? || pc.Left?
  }

  function Hidden(handlers: Handlers): set<Session> {
    set h | h in handlers && Hides(handlers[h].pc) :: handlers[h].session
  }

  /** In the table, or out of it but not yet off the index; and no handler between updates. */
  function Shown(handlers: Handlers, removing: Option<Session>, live: set<Session>): set<Session> {
    live + Going(handlers, removing) - Hidden(handlers)
  }

  ghost predicate Index(c: Chat) {
    Agree(Shown(c.handlers, c.removing, c.live), c.username, c.online)
  }

  /** Another handler of the same session is between its updates. */
  ghost predicate HiddenByOther(handlers: Handlers, h: HandlerId)
    requires h in handlers
  {
    exists g :: g in handlers && g != h && handlers[g].session == handlers[h].session && Hides(handlers[g].pc)
  }

  /** The session shows once this handler has updated the index. */
  ghost predicate WillShow(c: Chat, h: HandlerId)
    requires h in c.handlers
  {
    c.handlers[h].session in c.live + Going(c.handlers, c.removing) && !HiddenByOther(c.handlers, h)
  }

  /** A turn takes the index away from the names that show: it
      - sets a username over a name that only this session shows;
      - puts a name into the index that does not show, or brings to light another name of its
        session that the index does not have;
      - takes a name off the index that another session shows, or hides another name that only
        its session shows. */
  ghost predicate Strays(c: Chat, h: HandlerId, e: Effect)
    requires h in c.handlers
  {
    var s, u := c.handlers[h].session, c.handlers[h].name;
    var v, n := Shown(c.handlers, c.removing, c.live), Get(c.username, s);
    match e
    case SetUser(pc, _) => pc.Named? && s in v && n != "" && !Shows(v - {s}, c.username, n)
    case AddOnline(_) =>
      && !(WillShow(c, h) && n == u)
      && (!Shows(v, c.username, u) || (WillShow(c, h) && n != "" && !Shows(v, c.username, n)))
    case EraseOnline(_, name) =>
      || Shows(v - {s}, c.username, name)
      || (s in v && n != "" && n != name && !Shows(v - {s}, c.username, n))
    case _ => false
  }

  // ---------------------------------------------------------------- how the set moves

  /** A turn concerns its own session only. */
  lemma OthersShow(c: Chat, h: HandlerId, pc: Pc)
    requires h in c.handlers
    ensures var s, d := c.handlers[h].session, Move(c.handlers, h, pc);
      Shown(d, c.removing, c.live) - {s} == Shown(c.handlers, c.removing, c.live) - {s}
  {
    var s, d := c.handlers[h].session, Move(c.handlers, h, pc);
    assert d[h].session == s && forall g :: g in c.handlers && g != h ==> g in d && d[g] == c.handlers[g];
    assert Hidden(d) - {s} == Hidden(c.handlers) - {s};
    assert Going(d, c.removing) - {s} == Going(c.handlers, c.removing) - {s};
    hide Hidden, Going;
  }

  lemma HidesItself(c: Chat, h: HandlerId)
    requires h in c.handlers && Hides(c.handlers[h].pc)
    ensures c.handlers[h].session !in Shown(c.handlers, c.removing, c.live)
  {
  }

  /** Whether the session of a handler that has let it go shows. */
  lemma LetGo(c: Chat, h: HandlerId, pc: Pc)
    requires h in c.handlers && !c.handlers[h].kind.DISCONNECT? && !Hides(pc)
    ensures c.handlers[h].session in Shown(Move(c.handlers, h, pc), c.removing, c.live) <==> WillShow(c, h)
  {
    var s, d := c.handlers[h].session, Move(c.handlers, h, pc);
    assert d[h].session == s && forall g :: g in c.handlers && g != h ==> g in d && d[g] == c.handlers[g];
    assert Going(d, c.removing) == Going(c.handlers, c.removing);
    assert s in Hidden(d) <==> HiddenByOther(c.handlers, h);
  }

  /** A turn that neither hides its session nor lets it go, and ends no callback. */
  lemma SameShow(c: Chat, h: HandlerId, pc: Pc)
    requires h in c.handlers && !Hides(c.handlers[h].pc) && !Hides(pc)
    requires c.handlers[h].kind.DISCONNECT? ==> !pc.Done? && !c.handlers[h].pc.Done?
    ensures Shown(Move(c.handlers, h, pc), c.removing, c.live) == Shown(c.handlers, c.removing, c.live)
  {
    var d := Move(c.handlers, h, pc);
    assert d[h] == c.handlers[h].(pc := pc);
    assert forall g :: g in c.handlers && g != h ==> g in d && d[g] == c.handlers[g];
    assert Hidden(d) == Hidden(c.handlers);
    assert Going(d, c.removing) == Going(c.handlers, c.removing);
  }

  // ---------------------------------------------------------------- what a turn does to the index

  function NamesAfter(c: Chat, x: Handler, e: Effect): Names {
    if e.SetUser? then c.username[x.session := e.name] else c.username
  }

  function OnlineAfter(c: Chat, x: Handler, e: Effect): set<Name> {
    match e
    case AddOnline(_) => c.online + {x.name}
    case EraseOnline(_, name) => c.online - {name}
    case _ => c.online
  }

  lemma ApplyNames(c: Chat, h: HandlerId, e: Effect)
    requires h in c.handlers
    ensures var d, x := Apply(c, h, e), c.handlers[h];
      d.username == NamesAfter(c, x, e) && d.online == OnlineAfter(c, x, e)
  {
    hide Move, Steals;
  }

  /** Hiding a session keeps the names that show unless it alone shows its name. */
  lemma HideExactly(v: set<Session>, username: Names, online: set<Name>, s: Session)
    requires Agree(v, username, online)
    ensures Agree(v - {s}, username, online) <==>
      !(s in v && Get(username, s) != "" && !Shows(v - {s}, username, Get(username, s)))
  {
    ShowsThrough(v, username, s);
    hide Shows, Get;
    var n := Get(username, s);
    assert n in online <==> Shows(v, username, n);
  }

  lemma SetExactly(c: Chat, h: HandlerId, e: Effect)
    requires h in c.handlers && e.SetUser? && e.pc.Named? && Index(c)
    ensures var v, s := Shown(Move(c.handlers, h, e.pc), c.removing, c.live), c.handlers[h].session;
      Agree(v, c.username[s := e.name], c.online) <==> !Strays(c, h, e)
  {
    var s, d := c.handlers[h].session, Move(c.handlers, h, e.pc);
    var v, w := Shown(c.handlers, c.removing, c.live), Shown(d, c.removing, c.live);
    OthersShow(c, h, e.pc);
    HidesItself(c.(handlers := d), h);
    hide Shown, Shows, Get;
    assert w == v - {s};
    HideExactly(v, c.username, c.online, s);
    ShowsElsewhere(w, c.username, s, e.name);
  }

  /** Putting `u` into the index, when `w` shows at most `s` more than `v`. */
  lemma AddExactly(v: set<Session>, w: set<Session>, username: Names, online: set<Name>, s: Session, u: Name)
    requires Agree(v, username, online) && s !in v && w - {s} == v && u != ""
    ensures var n := Get(username, s);
      Agree(w, username, online + {u}) <==>
        (s in w && n == u) || (Shows(v, username, u) && (s in w && n != "" ==> Shows(v, username, n)))
  {
    ShowsThrough(w, username, s);
    hide Shows, Get;
    var n := Get(username, s);
    assert u in online + {u} && (n in online + {u} <==> n in online || n == u);
    assert n in online <==> Shows(v, username, n);
    assert u in online <==> Shows(v, username, u);
  }

  lemma OnlineExactly(c: Chat, h: HandlerId, e: Effect)
    requires h in c.handlers && e.AddOnline? && e.pc.Onlined? && Index(c)
    requires c.handlers[h].pc.Named? && c.handlers[h].kind.Auth() && c.handlers[h].name != ""
    ensures var v := Shown(Move(c.handlers, h, e.pc), c.removing, c.live);
      Agree(v, c.username, c.online + {c.handlers[h].name}) <==> !Strays(c, h, e)
  {
    var s, d := c.handlers[h].session, Move(c.handlers, h, e.pc);
    var v, w := Shown(c.handlers, c.removing, c.live), Shown(d, c.removing, c.live);
    OthersShow(c, h, e.pc);
    HidesItself(c, h);
    LetGo(c, h, e.pc);
    hide Shown, Shows, Get, WillShow;
    assert v - {s} == v;
    AddExactly(v, w, c.username, c.online, s, c.handlers[h].name);
  }

  /** Taking `u` off the index and hiding `s`. */
  lemma EraseExactly(v: set<Session>, username: Names, online: set<Name>, s: Session, u: Name)
    requires Agree(v, username, online)
    ensures var n := Get(username, s);
      Agree(v - {s}, username, online - {u}) <==>
        !(Shows(v - {s}, username, u) || (s in v && n != "" && n != u && !Shows(v - {s}, username, n)))
  {
    ShowsThrough(v, username, s);
    hide Shows, Get;
    var n := Get(username, s);
    assert u !in online - {u} && (n in online - {u} <==> n in online && n != u);
    assert n in online <==> Shows(v, username, n);
  }

  lemma OfflineExactly(c: Chat, h: HandlerId, e: Effect)
    requires h in c.handlers && e.EraseOnline? && e.pc.Left? && Index(c)
    ensures var v := Shown(Move(c.handlers, h, e.pc), c.removing, c.live);
      Agree(v, c.username, c.online - {e.name}) <==> !Strays(c, h, e)
  {
    var s, d := c.handlers[h].session, Move(c.handlers, h, e.pc);
    var v, w := Shown(c.handlers, c.removing, c.live), Shown(d, c.removing, c.live);
    OthersShow(c, h, e.pc);
    HidesItself(c.(handlers := d), h);
    hide Shown, Shows, Get;
    assert w == v - {s};
    EraseExactly(v, c.username, c.online, s, e.name);
  }

  /** A session without a name may come to light or go. */
  lemma SilentAgrees(v: set<Session>, w: set<Session>, username: Names, online: set<Name>, s: Session)
    requires Agree(v, username, online) && v - {s} == w - {s} && Get(username, s) == ""
    ensures Agree(w, username, online)
  {
    ShowsThrough(v, username, s);
    ShowsThrough(w, username, s);
    hide Shows, Get;
  }

  lemma ClearAgrees(c: Chat, h: HandlerId, e: Effect)
    requires h in c.handlers && e.SetUser? && e.name == "" && c.handlers[h].pc.Left? && Index(c)
    ensures var s := c.handlers[h].session;
      Agree(Shown(Move(c.handlers, h, e.pc), c.removing, c.live), c.username[s := ""], c.online)
  {
    var s, d := c.handlers[h].session, Move(c.handlers, h, e.pc);
    var v, w := Shown(c.handlers, c.removing, c.live), Shown(d, c.removing, c.live);
    OthersShow(c, h, e.pc);
    HidesItself(c, h);
    GetUpdate(c.username, s, "", s);
    ShowsElsewhere(v, c.username, s, "");
    hide Shown, Shows, Get;
    SilentAgrees(v, w, c.username[s := ""], c.online, s);
  }

  /** Which turns let a session go, hide it or end a callback. */
  lemma TurnKinds(c: Chat, h: HandlerId, e: Effect)
    requires h in c.handlers && Typed(c.handlers[h]) && Allowed(c, c.handlers[h], e)
    ensures var x := c.handlers[h];
      match e
      case SetUser(pc, name) => pc.Named? || (x.pc.Left? && name == "")
      case AddOnline(pc) => pc.Onlined? && x.pc.Named? && x.kind.Auth() && x.name != ""
      case EraseOnline(pc, _) => pc.Left?
      case _ =>
        && !Hides(x.pc) && !Hides(e.pc) && !x.pc.Done?
        && (x.kind.DISCONNECT? && e.pc.Done? ==> Get(c.username, x.session) == "")
  {
    hide Get;
  }

  lemma QuietTurn(c: Chat, h: HandlerId, e: Effect)
    requires h in c.handlers && Index(c) && !Hides(c.handlers[h].pc) && !Hides(e.pc) && !c.handlers[h].pc.Done?
    requires c.handlers[h].kind.DISCONNECT? && e.pc.Done? ==> Get(c.username, c.handlers[h].session) == ""
    ensures Agree(Shown(Move(c.handlers, h, e.pc), c.removing, c.live), c.username, c.online)
  {
    hide Shown, Agree, Get;
    if c.handlers[h].kind.DISCONNECT? && e.pc.Done? {
      OthersShow(c, h, e.pc);
      SilentAgrees(Shown(c.handlers, c.removing, c.live), Shown(Move(c.handlers, h, e.pc), c.removing, c.live),
                   c.username, c.online, c.handlers[h].session);
    } else {
      SameShow(c, h, e.pc);
    }
  }

  /** The exact condition.  From any state in which the index agrees with the names that show,
      whatever else is at work, a turn keeps it so if and only if it does not stray. */
  lemma TurnExactly(c: Chat, h: HandlerId, e: Effect)
    requires h in c.handlers && Typed(c.handlers[h]) && Allowed(c, c.handlers[h], e) && Index(c)
    ensures Index(Apply(c, h, e)) <==> !Strays(c, h, e)
  {
    PlacedMoves(c, h, e);
    ApplyNames(c, h, e);
    TurnKinds(c, h, e);
    hide Apply, Allowed, Typed, Get, Agree, Shown;
    match e
    case SetUser(pc, name) =>
      if pc.Named? {
        SetExactly(c, h, e);
      } else {
        ClearAgrees(c, h, e);
      }
    case AddOnline(_) => OnlineExactly(c, h, e);
    case EraseOnline(_, _) => OfflineExactly(c, h, e);
    case _ => QuietTurn(c, h, e);
  }

  // ---------------------------------------------------------------- the event loop's steps

  /** Names, handlers and removals are about sessions that were accepted. */
  ghost predicate Grounded(c: Chat) {
    && (forall s :: Get(c.username, s) != "" ==> s in c.known)
    && (forall h :: h in c.handlers ==> c.handlers[h].session in c.known)
    && c.live <= c.known && (c.removing.Some? ==> c.removing.value in c.known)
  }

  lemma NamesGrounded(c: Chat, x: Handler, e: Effect)
    requires Grounded(c) && x.session in c.known
    ensures forall s :: Get(NamesAfter(c, x, e), s) != "" ==> s in c.known
  {
    hide Get;
    forall s | Get(NamesAfter(c, x, e), s) != "" ensures s in c.known {
      if e.SetUser? {
        GetUpdate(c.username, x.session, e.name, s);
      }
    }
  }

  lemma GroundedKeeps(sha: Digest, c: Chat, a: Action)
    requires Base(c) && Grounded(c) && Step(sha, c, a).Some?
    ensures Grounded(Step(sha, c, a).value)
  {
    TypedAt(c, if OfHandler(a) then a.h else 0);
    hide Base, Get, Turn, Apply, Typed, Allowed;
    if OfHandler(a) {
      var x := c.handlers[a.h];
      var e := Turn(sha, c, x, a).value;
      TurnAllowed(sha, c, x, a);
      PlacedMoves(c, a.h, e);
      ApplyNames(c, a.h, e);
      NamesGrounded(c, x, e);
      hide NamesAfter, OnlineAfter;
    }
  }

  /** A new handler hides nothing. */
  lemma NewShows(handlers: Handlers, h: HandlerId, x: Handler)
    requires h !in handlers && x.pc.Begin?
    ensures Hidden(handlers[h := x]) == Hidden(handlers)
    ensures x.kind.DISCONNECT? ==>
      forall removing :: Going(handlers[h := x], removing) == Going(handlers, removing) + {x.session}
    ensures !x.kind.DISCONNECT? ==> forall removing :: Going(handlers[h := x], removing) == Going(handlers, removing)
  {
    var d := handlers[h := x];
    assert d[h] == x && forall g :: g in handlers ==> g in d && d[g] == handlers[g];
  }

  /** A session that leaves the table goes on showing. */
  lemma UnlinkShows(c: Chat, s: Session)
    requires s in c.live && c.removing.None?
    ensures Shown(c.handlers, Some(s), c.live - {s}) == Shown(c.handlers, c.removing, c.live)
  {
    assert Going(c.handlers, Some(s)) == Going(c.handlers, None) + {s};
    hide Going, Hidden;
  }

  lemma RaiseShows(c: Chat, s: Session, h: HandlerId)
    requires h !in c.handlers && c.removing == Some(s)
    ensures Shown(c.handlers[h := Handler(DISCONNECT, s, "", "", Begin)], None, c.live) ==
      Shown(c.handlers, c.removing, c.live)
  {
    NewShows(c.handlers, h, Handler(DISCONNECT, s, "", "", Begin));
    assert Going(c.handlers, Some(s)) == Going(c.handlers, None) + {s};
    hide Going, Hidden;
  }

  lemma SpawnShows(c: Chat, h: HandlerId, x: Handler)
    requires h !in c.handlers && x.pc.Begin? && !x.kind.DISCONNECT?
    ensures Shown(c.handlers[h := x], c.removing, c.live) == Shown(c.handlers, c.removing, c.live)
  {
    NewShows(c.handlers, h, x);
    hide Going, Hidden;
  }

  lemma AcceptShows(c: Chat, s: Session)
    ensures Shown(c.handlers, c.removing, c.live + {s}) - {s} == Shown(c.handlers, c.removing, c.live) - {s}
  {
    hide Going, Hidden;
  }

  lemma NewcomerHidden(c: Chat, s: Session)
    requires Grounded(c) && s !in c.known
    ensures Get(c.username, s) == ""
  {
    hide Get;
    assert Get(c.username, s) != "" ==> s in c.known;
  }

  lemma LoopKeepsIndex(sha: Digest, c: Chat, a: Action)
    requires Grounded(c) && Index(c) && Step(sha, c, a).Some? && !OfHandler(a)
    ensures Index(Step(sha, c, a).value)
  {
    hide Get, Agree, Shown;
    match a
    case Accept(s) =>
      NewcomerHidden(c, s);
      AcceptShows(c, s);
      SilentAgrees(Shown(c.handlers, c.removing, c.live), Shown(c.handlers, c.removing, c.live + {s}), c.username,
                   c.online, s);
    case Unlink(s) => UnlinkShows(c, s);
    case Raise(s, h) => RaiseShows(c, s, h);
    case Spawn(h, kind, s, name, password) => SpawnShows(c, h, Handler(kind, s, name, password, Begin));
  }

  // ---------------------------------------------------------------- whole runs

  ghost predicate StraysAt(sha: Digest, c: Chat, a: Action) {
    && OfHandler(a) && a.h in c.handlers
    && var e := Turn(sha, c, c.handlers[a.h], a); e.Some? && Strays(c, a.h, e.value)
  }

  /** No turn of the run strays. */
  ghost predicate Steady(sha: Digest, c: Chat, acts: seq<Action>)
    decreases |acts|
  {
    acts != [] && Step(sha, c, acts[0]).Some? ==>
      !StraysAt(sha, c, acts[0]) && Steady(sha, Step(sha, c, acts[0]).value, acts[1..])
  }

  /** A step of any kind keeps the index if and only if it does not stray. */
  lemma StepExactly(sha: Digest, c: Chat, a: Action)
    requires Base(c) && Grounded(c) && Index(c) && Step(sha, c, a).Some?
    ensures Index(Step(sha, c, a).value) <==> !StraysAt(sha, c, a)
  {
    if OfHandler(a) {
      TypedAt(c, a.h);
      TurnAllowed(sha, c, c.handlers[a.h], a);
      TurnExactly(c, a.h, Turn(sha, c, c.handlers[a.h], a).value);
    } else {
      LoopKeepsIndex(sha, c, a);
    }
    hide Base, Grounded, Index, Typed, Allowed, Turn, Apply, Strays;
  }

  lemma {:induction false} RunIndex(sha: Digest, c: Chat, acts: seq<Action>)
    requires Base(c) && Grounded(c) && Index(c) && Run(sha, c, acts).Some? && Steady(sha, c, acts)
    ensures Index(Run(sha, c, acts).value)
    decreases |acts|
  {
    hide Base, Grounded, Index, Step, StraysAt;
    if acts != [] {
      BaseKeeps(sha, c, acts[0]);
      GroundedKeeps(sha, c, acts[0]);
      StepExactly(sha, c, acts[0]);
      RunIndex(sha, Step(sha, c, acts[0]).value, acts[1..]);
    }
  }

  lemma NewPending(handlers: Handlers, pending: Names, h: HandlerId, x: Handler)
    requires PendingOwned(handlers, pending) && h !in handlers
    ensures PendingOwned(handlers[h := x], pending)
  {
    hide Get, Waiting;
    var d := handlers[h := x];
    forall s | Get(pending, s) != "" ensures exists g :: Pending(d, g, s, Get(pending, s)) {
      var g :| Pending(handlers, g, s, Get(pending, s));
      assert Pending(d, g, s, Get(pending, s));
    }
  }

  lemma PendingKeeps(sha: Digest, c: Chat, a: Action)
    requires Base(c) && PendingOwned(c.handlers, c.pending) && Step(sha, c, a).Some?
    ensures var d := Step(sha, c, a).value; PendingOwned(d.handlers, d.pending)
  {
    TypedAt(c, if OfHandler(a) then a.h else 0);
    hide Base, PendingOwned, Turn, Apply, Typed, Allowed;
    if OfHandler(a) {
      var x := c.handlers[a.h];
      TurnAllowed(sha, c, x, a);
      ApplyPending(c, a.h, Turn(sha, c, x, a).value);
    } else if a.Raise? {
      NewPending(c.handlers, c.pending, a.h, Handler(DISCONNECT, a.s, "", "", Begin));
    } else if a.Spawn? {
      NewPending(c.handlers, c.pending, a.h, Handler(a.kind, a.s, a.name, a.password, Begin));
    }
  }

  lemma {:induction false} RunPending(sha: Digest, c: Chat, acts: seq<Action>)
    requires Base(c) && PendingOwned(c.handlers, c.pending) && Run(sha, c, acts).Some?
    ensures PendingOwned(Run(sha, c, acts).value.handlers, Run(sha, c, acts).value.pending)
    decreases |acts|
  {
    hide Base, PendingOwned, Step;
    if acts != [] {
      BaseKeeps(sha, c, acts[0]);
      PendingKeeps(sha, c, acts[0]);
      RunPending(sha, Step(sha, c, acts[0]).value, acts[1..]);
    }
  }

  lemma QuietShows(c: Chat)
    requires Quiet(c.handlers) && c.removing.None?
    ensures Shown(c.handlers, c.removing, c.live) == c.live
  {
    assert Hidden(c.handlers) == {} && Going(c.handlers, c.removing) == {};
  }

  lemma StartGrounded(users: map<Name, string>)
    ensures var c := Start(users); Base(c) && Grounded(c) && Index(c) && PendingOwned(c.handlers, c.pending)
  {
    QuietShows(Start(users));
  }

  /** In every run without a stray turn, whenever nothing is at work: is_user_online(u) exactly
      when find_session(u) finds a session, no reservation and no pending login is left, and
      login_mutex_ is free. */
  lemma OnlineIndexAgrees(sha: Digest, users: map<Name, string>, acts: seq<Action>)
    requires Run(sha, Start(users), acts).Some? && Steady(sha, Start(users), acts)
    requires var c := Run(sha, Start(users), acts).value; Quiet(c.handlers) && c.removing.None?
    ensures var c := Run(sha, Start(users), acts).value;
      && (forall u :: u in c.online <==> u != "" && exists s :: s in c.live && Get(c.username, s) == u)
      && c.reserved == {} && c.lock.None?
      && (forall s :: Get(c.pending, s) == "")
  {
    hide Run, Steady;
    StartGrounded(users);
    RunIndex(sha, Start(users), acts);
    RunPending(sha, Start(users), acts);
    var c := Run(sha, Start(users), acts).value;
    ReservationsNeverLeak(sha, users, acts);
    QuietShows(c);
    assert forall h, s, u :: !Pending(c.handlers, h, s, u);
    hide Base, Shown;
    assert forall u :: u in c.online <==> Shows(c.live, c.username, u);
  }
}
