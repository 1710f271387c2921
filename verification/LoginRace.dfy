/**
  How single login and the online index fail when handlers overlap.

  A disconnect in the middle of a LOGIN erases the reservation that the LOGIN will erase once
  more at its end; in between the name is free for a second LOGIN, and after the second
  erasure for a third.  `StolenExactly` says when that can happen: exactly when the name the
  callback erases is still reserved.  Four more runs show the online index fail, two of them
  with nothing but handlers of one session overlapping.
*/
module LoginRace {
  import opened Wrappers
  import opened Passwords
  import opened LoginProtocol
  import opened LoginSafety

  // ---------------------------------------------------------------- continuations

  /** No disconnect callback erases a name. */
  ghost predicate NoCleanUp(acts: seq<Action>) {
    forall a <- acts :: !a.CleanUp?
  }

  ghost predicate Leads(sha: Digest, c: Chat, acts: seq<Action>, d: Chat) {
    NoCleanUp(acts) && Run(sha, c, acts) == Some(d)
  }

  /** `d` can be reached without a further erasure by a callback. */
  ghost predicate Reaches(sha: Digest, c: Chat, d: Chat) {
    exists acts :: Leads(sha, c, acts, d)
  }

  lemma {:induction false} RunAppend(sha: Digest, c: Chat, a: seq<Action>, b: seq<Action>)
    requires Run(sha, c, a).Some?
    ensures Run(sha, c, a + b) == Run(sha, Run(sha, c, a).value, b)
    decreases |a|
  {
    hide Step;
    if a == [] {
      assert a + b == b;
    } else {
      assert (a + b)[1..] == a[1..] + b;
      RunAppend(sha, Step(sha, c, a[0]).value, a[1..], b);
    }
  }

  lemma RunOne(sha: Digest, c: Chat, a: Action)
    ensures Run(sha, c, [a]) == Step(sha, c, a)
  {
    hide Step;
    assert [a][1..] == [];
    assert forall d :: Run(sha, d, [a][1..]) == Some(d);
  }

  lemma Extend(sha: Digest, c: Chat, d: Chat, a: Action, e: Chat)
    requires Reaches(sha, c, d) && Step(sha, d, a) == Some(e) && !a.CleanUp?
    ensures Reaches(sha, c, e)
  {
    hide Step;
    var acts :| Leads(sha, c, acts, d);
    RunAppend(sha, c, acts, [a]);
    RunOne(sha, d, a);
    assert Leads(sha, c, acts + [a], e);
  }

  /** One turn of handler `h`. */
  lemma TurnOf(sha: Digest, start: Chat, c: Chat, h: HandlerId, a: Action, e: Effect) returns (d: Chat)
    requires Reaches(sha, start, c) && h in c.handlers && OfHandler(a) && a.h == h && !a.CleanUp?
    requires Turn(sha, c, c.handlers[h], a) == Some(e)
    ensures d == Apply(c, h, e) && Reaches(sha, start, d)
  {
    hide Turn, Apply, Reaches;
    d := Apply(c, h, e);
    Extend(sha, start, c, a, d);
  }

  function Set(c: Chat, h: HandlerId, pc: Pc): Handlers
    requires h in c.handlers
  {
    Move(c.handlers, h, pc)
  }

  /** A turn that moves the program counter only. */
  lemma GotoOf(sha: Digest, start: Chat, c: Chat, h: HandlerId, a: Action, pc: Pc) returns (d: Chat)
    requires Reaches(sha, start, c) && h in c.handlers && OfHandler(a) && a.h == h && !a.CleanUp?
    requires Turn(sha, c, c.handlers[h], a) == Some(Goto(pc))
    ensures Reaches(sha, start, d) && d == c.(handlers := Set(c, h, pc))
  {
    hide Turn, Reaches;
    d := TurnOf(sha, start, c, h, a, Goto(pc));
  }

  lemma Stay(sha: Digest, c: Chat)
    ensures Reaches(sha, c, c)
  {
    assert Leads(sha, c, [], c);
  }

  predicate Still(c: Chat, d: Chat) {
    (d.live, d.known, d.raised, d.removing, d.users, d.lock) == (c.live, c.known, c.raised, c.removing, c.users, c.lock)
  }

  /** `d` is `c` but for the history flags, the online index, and what the remaining
      parameters say. */
  predicate Same(c: Chat, d: Chat, handlers: Handlers, reserved: set<Name>, pending: Names, username: Names) {
    && Still(c, d)
    && d.handlers == handlers && d.reserved == reserved && d.pending == pending && d.username == username
  }

  // ---------------------------------------------------------------- a LOGIN from end to end

  /** find_session comes back empty-handed. */
  lemma {:induction false} ScanAll(sha: Digest, start: Chat, c: Chat, h: HandlerId, left: set<Session>)
    returns (d: Chat)
    requires Reaches(sha, start, c) && h in c.handlers && c.handlers[h].pc == Scanning(left)
    requires forall s :: s in left ==> Get(c.username, s) != c.handlers[h].name
    ensures Reaches(sha, start, d)
    ensures d == c.(handlers := Set(c, h, Scanning({})))
    decreases |left|
  {
    hide Reaches, Step;
    if left == {} {
      d := c;
    } else {
      var s :| s in left;
      var e := GotoOf(sha, start, c, h, Look(h, s), Scanning(left - {s}));
      d := ScanAll(sha, start, e, h, left - {s});
    }
  }

  lemma Spawned(sha: Digest, start: Chat, c: Chat, h: HandlerId, kind: Kind, s: Session, u: Name, p: string)
    returns (d: Chat)
    requires Reaches(sha, start, c) && h !in c.handlers && s in c.known - c.raised && !kind.DISCONNECT?
    ensures Reaches(sha, start, d) && d.online == c.online && d.clean == c.clean
    ensures Same(c, d, c.handlers[h := Handler(kind, s, u, p, Begin)], c.reserved, c.pending, c.username)
  {
    hide Reaches;
    d := Step(sha, c, Spawn(h, kind, s, u, p)).value;
    Extend(sha, start, c, Spawn(h, kind, s, u, p), d);
  }

  /** A LOGIN from its generation check into find_session. */
  lemma LoginToScan(sha: Digest, start: Chat, c: Chat, h: HandlerId, s: Session, u: Name, p: string) returns (d: Chat)
    requires Reaches(sha, start, c) && c.lock.None? && h !in c.handlers && s in c.known - c.raised
    requires Acceptable(u, p) && u !in c.reserved && Get(c.username, s) == ""
    ensures Reaches(sha, start, d) && d.online == c.online && d.clean == c.clean
    ensures Same(c.(lock := Some(h)), d, c.handlers[h := Handler(LOGIN, s, u, p, Scanning(c.live))],
                 c.reserved, c.pending, c.username)
  {
    hide Reaches, Step, Acceptable;
    var c1 := Spawned(sha, start, c, h, LOGIN, s, u, p);
    var c2 := GotoOf(sha, start, c1, h, Route(h), Checked);
    d := TurnOf(sha, start, c2, h, Reserve(h), TakeLock(Scanning(c.live)));
  }

  /** A LOGIN from the end of its scan to set_pending_login. */
  lemma ScanToPending(sha: Digest, start: Chat, c: Chat, h: HandlerId) returns (d: Chat)
    requires Reaches(sha, start, c) && h in c.handlers && c.handlers[h].pc == Scanning({})
    ensures var x := c.handlers[h];
      Reaches(sha, start, d)
      && d == c.(lock := None, reserved := c.reserved + {x.name}, pending := c.pending[x.session := x.name],
                 handlers := Set(c, h, Pended))
  {
    hide Reaches, Step;
    var c1 := TurnOf(sha, start, c, h, EndScan(h), Effect.Insert(Reserved));
    d := TurnOf(sha, start, c1, h, SetPending(h), Pend(Pended, c.handlers[h].name));
  }

  /** A LOGIN from its generation check to set_pending_login. */
  lemma LoginToPending(sha: Digest, start: Chat, c: Chat, h: HandlerId, s: Session, u: Name, p: string)
    returns (d: Chat)
    requires Reaches(sha, start, c) && c.lock.None? && h !in c.handlers && s in c.known - c.raised
    requires Acceptable(u, p) && u !in c.reserved && Get(c.username, s) == ""
    requires forall t :: t in c.live ==> Get(c.username, t) != u
    ensures Reaches(sha, start, d) && d.online == c.online && d.clean == c.clean
    ensures Same(c, d, c.handlers[h := Handler(LOGIN, s, u, p, Pended)], c.reserved + {u},
                 c.pending[s := u], c.username)
  {
    hide Reaches, Step, Acceptable, Get;
    var c3 := LoginToScan(sha, start, c, h, s, u, p);
    var c4 := ScanAll(sha, start, c3, h, c.live);
    d := ScanToPending(sha, start, c4, h);
  }

  /** A registered name with a password that logs it in. */
  predicate Opens(sha: Digest, users: map<Name, string>, u: Name, p: string) {
    Acceptable(u, p) && u in users && users[u] != "" && VerifyPassword(sha, p, users[u])
  }

  /** The password is right: verify_password and set_username. */
  lemma LoginToNamed(sha: Digest, start: Chat, c: Chat, h: HandlerId) returns (d: Chat)
    requires Reaches(sha, start, c) && h in c.handlers && c.handlers[h].pc.Pended? && c.handlers[h].kind.LOGIN?
    requires Opens(sha, c.users, c.handlers[h].name, c.handlers[h].password)
    ensures Reaches(sha, start, d) && d.online == c.online && d.clean == c.clean
    ensures var x := c.handlers[h];
      Same(c, d, Set(c, h, Named), c.reserved, c.pending, c.username[x.session := x.name])
  {
    hide VerifyPassword, Reaches, Step, Acceptable;
    var c1 := GotoOf(sha, start, c, h, Verify(h), Granted);
    d := TurnOf(sha, start, c1, h, SetName(h), SetUser(Named, c.handlers[h].name));
  }

  /** The rest of a LOGIN: it erases its reservation, whoever holds it now. */
  lemma LoginToEnd(sha: Digest, start: Chat, c: Chat, h: HandlerId) returns (d: Chat)
    requires Reaches(sha, start, c) && h in c.handlers && c.handlers[h].pc.Named? && c.lock.None?
    ensures Reaches(sha, start, d)
    ensures var x := c.handlers[h];
      Same(c, d, Set(c, h, Done), c.reserved - {x.name}, c.pending[x.session := ""], c.username)
      && d.online == c.online + {x.name} && d.clean == c.clean
  {
    hide Reaches, Step;
    var c1 := TurnOf(sha, start, c, h, GoOnline(h), AddOnline(Onlined));
    var c2 := TurnOf(sha, start, c1, h, ClearPending(h), Pend(Unpended, ""));
    d := TurnOf(sha, start, c2, h, Release(h), Erase(Done, c.handlers[h].name));
  }

  lemma Connect(sha: Digest, start: Chat, c: Chat, s: Session) returns (d: Chat)
    requires Reaches(sha, start, c) && c.lock.None? && c.removing.None? && CallbacksDone(c.handlers) && s !in c.known
    ensures Reaches(sha, start, d) && d == c.(live := c.live + {s}, known := c.known + {s})
  {
    d := Step(sha, c, Accept(s)).value;
    Extend(sha, start, c, Accept(s), d);
  }

  /** remove_client up to the call of the disconnect handler. */
  lemma Gone(sha: Digest, start: Chat, c: Chat, h: HandlerId, s: Session) returns (d: Chat)
    requires Reaches(sha, start, c) && c.lock.None? && c.removing.None? && CallbacksDone(c.handlers)
    requires h !in c.handlers && s in c.live
    ensures Reaches(sha, start, d)
    ensures d == c.(live := c.live - {s}, raised := c.raised + {s}, apart := d.apart, serial := d.serial,
                    handlers := c.handlers[h := Handler(DISCONNECT, s, "", "", Begin)])
  {
    hide Reaches;
    var c1 := Step(sha, c, Unlink(s)).value;
    Extend(sha, start, c, Unlink(s), c1);
    d := Step(sha, c1, Raise(s, h)).value;
    Extend(sha, start, c1, Raise(s, h), d);
  }

  // ---------------------------------------------------------------- two sessions, one name

  /** Two sessions in the table carry one name. */
  ghost predicate Twice(c: Chat) {
    !SingleLogin(c.live, c.username)
  }

  /** Handlers but one stand still, and so does everything a LOGIN looks at but usernames. */
  ghost predicate OnlyMoves(c: Chat, d: Chat, h: HandlerId, pc: Pc)
    requires h in c.handlers
  {
    Still(c, d) && d.reserved == c.reserved && d.handlers == Set(c, h, pc)
  }

  /** handle_logout reads the name. */
  lemma LeaveToName(sha: Digest, start: Chat, c: Chat, h: HandlerId, u: Name) returns (d: Chat)
    requires Reaches(sha, start, c) && h in c.handlers && c.handlers[h].pc.Checked? && !c.handlers[h].kind.Auth()
    requires u == Get(c.username, c.handlers[h].session) != ""
    ensures Reaches(sha, start, d) && d == c.(handlers := Set(c, h, Leaving(u)))
  {
    hide Reaches, Step, Get;
    var c1 := GotoOf(sha, start, c, h, Enter(h), Entered);
    d := GotoOf(sha, start, c1, h, ReadName(h), Leaving(u));
  }

  /** It takes the name off the index and off the session. */
  lemma NameToEnd(sha: Digest, start: Chat, c: Chat, h: HandlerId) returns (d: Chat)
    requires Reaches(sha, start, c) && h in c.handlers && c.handlers[h].pc.Leaving?
    ensures Reaches(sha, start, d) && OnlyMoves(c, d, h, Done) && d.clean == c.clean
    ensures d.username == c.username[c.handlers[h].session := ""] && d.online == c.online - {c.handlers[h].pc.name}
  {
    hide Reaches, Step;
    var c1 := TurnOf(sha, start, c, h, GoOffline(h), EraseOnline(Left, c.handlers[h].pc.name));
    d := TurnOf(sha, start, c1, h, ClearName(h), SetUser(Done, ""));
  }

  /** A LOGOUT or disconnect callback from route() or its pending login to the end; a session
      that has the name loses it. */
  lemma LeaveToEnd(sha: Digest, start: Chat, c: Chat, h: HandlerId) returns (d: Chat)
    requires Reaches(sha, start, c) && h in c.handlers && c.handlers[h].pc.Checked? && !c.handlers[h].kind.Auth()
    ensures Reaches(sha, start, d) && OnlyMoves(c, d, h, Done) && d.clean == c.clean
    ensures Get(d.username, c.handlers[h].session) == ""
    ensures forall s :: s != c.handlers[h].session ==> Get(d.username, s) == Get(c.username, s)
  {
    hide Reaches, Step;
    var u := Get(c.username, c.handlers[h].session);
    if u == "" {
      d := GotoOf(sha, start, c, h, Enter(h), Done);
    } else {
      var c1 := LeaveToName(sha, start, c, h, u);
      d := NameToEnd(sha, start, c1, h);
    }
  }

  /** The disconnect callback from its erasure to its end. */
  lemma CallbackToEnd(sha: Digest, start: Chat, c: Chat, g: HandlerId) returns (d: Chat)
    requires Reaches(sha, start, c) && g in c.handlers && c.handlers[g].kind.DISCONNECT? && c.handlers[g].pc.Cleaned?
    ensures Reaches(sha, start, d) && OnlyMoves(c, d, g, Done)
  {
    hide Reaches, Step;
    var c1 := TurnOf(sha, start, c, g, ClearPending(g), Pend(Checked, ""));
    d := LeaveToEnd(sha, start, c1, g);
  }

  /** What a handler with a reservation still does before it erases it. */
  predicate Brink(pc: Pc) {
    pc.Unpended? || pc.Denied?
  }

  function ToGo(pc: Pc): nat {
    match pc
    case Reserved => 5
    case Pended => 4
    case Granted => 3
    case Named => 2
    case Onlined => 1
    case _ => 0
  }

  function Next(h: HandlerId, pc: Pc, kind: Kind): Action {
    match pc
    case Reserved => SetPending(h)
    case Pended => if kind.LOGIN? then Verify(h) else Action.Insert(h, "")
    case Granted => SetName(h)
    case Named => GoOnline(h)
    case _ => ClearPending(h)
  }

  function NextEffect(sha: Digest, c: Chat, x: Handler): Effect {
    match x.pc
    case Reserved => Pend(Pended, x.name)
    case Pended =>
      if x.kind.LOGIN? && x.name in c.users && c.users[x.name] != "" && VerifyPassword(sha, x.password, c.users[x.name])
      then Goto(Granted) else Goto(Denied)
    case Granted => SetUser(Named, x.name)
    case Named => AddOnline(Onlined)
    case _ => Pend(Unpended, "")
  }

  lemma NextIs(sha: Digest, c: Chat, x: Handler, h: HandlerId)
    requires Critical(x) && Typed(x) && x.name in c.users && !Brink(x.pc)
    ensures Turn(sha, c, x, Next(h, x.pc, x.kind)) == Some(NextEffect(sha, c, x))
  {
    hide VerifyPassword, HashPassword;
  }

  lemma NextTurn(sha: Digest, c: Chat, h: HandlerId)
    requires h in c.handlers && Critical(c.handlers[h]) && Typed(c.handlers[h]) && c.handlers[h].name in c.users
    requires !Brink(c.handlers[h].pc)
    ensures var x := c.handlers[h]; var e := NextEffect(sha, c, x); var d := Apply(c, h, e);
      && Turn(sha, c, x, Next(h, x.pc, x.kind)) == Some(e)
      && Still(c, d) && d.reserved == c.reserved && d.handlers == Set(c, h, e.pc)
      && Critical(x.(pc := e.pc)) && Typed(x.(pc := e.pc)) && ToGo(e.pc) < ToGo(x.pc)
  {
    hide VerifyPassword, HashPassword, Move;
    var x := c.handlers[h];
    NextIs(sha, c, x, h);
    hide Turn, Next;
  }

  /** A LOGIN or REGISTER of a registered name goes on to the point before its release. */
  lemma {:induction false} ToTheBrink(sha: Digest, start: Chat, c: Chat, h: HandlerId) returns (d: Chat)
    requires Reaches(sha, start, c) && h in c.handlers && Critical(c.handlers[h]) && Typed(c.handlers[h])
    requires c.handlers[h].name in c.users
    ensures Reaches(sha, start, d) && Still(c, d) && d.reserved == c.reserved
    ensures h in d.handlers && Brink(d.handlers[h].pc) && d.handlers == Set(c, h, d.handlers[h].pc)
    decreases ToGo(c.handlers[h].pc)
  {
    hide Reaches, Step, Turn, Apply, NextEffect;
    var x := c.handlers[h];
    if Brink(x.pc) {
      d := c;
    } else {
      NextTurn(sha, c, h);
      var c1 := TurnOf(sha, start, c, h, Next(h, x.pc, x.kind), NextEffect(sha, c, x));
      d := ToTheBrink(sha, start, c1, h);
    }
  }

  /** Handlers in `c` are where they were; the others are over. */
  ghost predicate MoreDone(c: Handlers, d: Handlers) {
    && (forall h :: h in c ==> h in d && d[h] == c[h])
    && forall h :: h in d && h !in c ==> d[h].pc.Done?
  }

  lemma {:induction false} Above(s: set<nat>) returns (n: nat)
    ensures forall m :: m in s ==> m < n
    decreases |s|
  {
    n := 0;
    if s != {} {
      var m :| m in s;
      n := Above(s - {m});
      n := if m < n then n else m + 1;
      assert forall k :: k in s ==> k == m || k in s - {m};
    }
  }

  /** Numbers never run out. */
  lemma {:induction false} Unused(s: set<nat>) returns (n: nat)
    ensures n !in s
  {
    n := Above(s);
  }

  lemma LogOut(sha: Digest, start: Chat, c: Chat, t: Session) returns (d: Chat)
    requires Reaches(sha, start, c) && t in c.known - c.raised && Get(c.username, t) != ""
    ensures Reaches(sha, start, d) && Still(c, d) && d.reserved == c.reserved && MoreDone(c.handlers, d.handlers)
    ensures forall r :: Get(d.username, r) == if r == t then "" else Get(c.username, r)
  {
    hide Reaches, Step, Get;
    var h := Unused(c.handlers.Keys);
    var c1 := Spawned(sha, start, c, h, LOGOUT, t, "", "");
    var c2 := GotoOf(sha, start, c1, h, Route(h), Checked);
    d := LeaveToEnd(sha, start, c2, h);
  }

  /** Everybody of one name logs out. */
  lemma {:induction false} AllLogOut(sha: Digest, start: Chat, c: Chat, u: Name, who: set<Session>) returns (d: Chat)
    requires Reaches(sha, start, c) && c.live <= c.known && c.live !! c.raised && u != ""
    requires who == set t | t in c.live && Get(c.username, t) == u
    ensures Reaches(sha, start, d) && Still(c, d) && d.reserved == c.reserved && MoreDone(c.handlers, d.handlers)
    ensures forall t :: t in d.live ==> Get(d.username, t) != u
    decreases |who|
  {
    hide Reaches, Step;
    if who == {} {
      assert forall t :: t in c.live && Get(c.username, t) == u ==> t in who;
      d := c;
    } else {
      var t :| t in who;
      var c1 := LogOut(sha, start, c, t);
      var less := set r | r in c1.live && Get(c1.username, r) == u;
      assert less == who - {t};
      d := AllLogOut(sha, start, c1, u, less);
    }
  }

  /** A new connection whose number means nothing yet. */
  lemma NewConnection(sha: Digest, start: Chat, c: Chat) returns (d: Chat, s: Session)
    requires Reaches(sha, start, c) && c.lock.None? && c.removing.None? && CallbacksDone(c.handlers)
    ensures Reaches(sha, start, d) && s !in c.live && s in d.known - d.raised && Get(d.username, s) == ""
    ensures d == c.(live := c.live + {s}, known := c.known + {s})
  {
    hide Reaches;
    s := Unused(c.live + c.known + c.raised + c.username.Keys);
    d := Connect(sha, start, c, s);
  }

  /** From here on: the name is free although handler `h` still holds it, on the brink of its
      second erasure, and nobody in the table has it. */
  ghost predicate Ready(sha: Digest, c: Chat, h: HandlerId, u: Name, p: string) {
    && c.lock.None? && c.removing.None? && CallbacksDone(c.handlers)
    && h in c.handlers && c.handlers[h].name == u && c.handlers[h].kind.Auth() && Brink(c.handlers[h].pc)
    && u !in c.reserved && Opens(sha, c.users, u, p)
    && forall t :: t in c.live ==> Get(c.username, t) != u
  }

  lemma PasswordNeedsName(u: Name, p: string)
    requires Acceptable(u, p)
    ensures u != ""
  {
  }

  /** A new connection logs in as far as the password, and the held reservation goes. */
  lemma FirstLogin(sha: Digest, start: Chat, c: Chat, h: HandlerId, u: Name, p: string)
    returns (d: Chat, s: Session, a: HandlerId)
    requires Reaches(sha, start, c) && Ready(sha, c, h, u, p)
    ensures Reaches(sha, start, d)
    ensures d.lock.None? && d.removing.None? && CallbacksDone(d.handlers) && d.users == c.users && u !in d.reserved
    ensures a in d.handlers && d.handlers[a] == Handler(LOGIN, s, u, p, Pended) && s in d.live
    ensures forall t :: t in d.live ==> Get(d.username, t) != u
  {
    hide Reaches, Step, Acceptable, VerifyPassword, Get;
    var c1;
    c1, s := NewConnection(sha, start, c);
    a := Unused(c.handlers.Keys);
    assert u != "" by { PasswordNeedsName(u, p); }
    var c2 := LoginToPending(sha, start, c1, a, s, u, p);
    var pc := if c.handlers[h].pc.Unpended? then Done else Released;
    d := TurnOf(sha, start, c2, h, Release(h), Erase(pc, u));
  }

  /** Then another one does, and both end up with the name. */
  lemma SecondLogin(sha: Digest, start: Chat, c: Chat, h: HandlerId, u: Name, p: string) returns (d: Chat)
    requires Reaches(sha, start, c) && Ready(sha, c, h, u, p)
    ensures Reaches(sha, start, d) && Twice(d)
  {
    hide Reaches, Step, Acceptable, VerifyPassword;
    var c1, s, a := FirstLogin(sha, start, c, h, u, p);
    PasswordNeedsName(u, p);
    var c2, t := NewConnection(sha, start, c1);
    var b := Unused(c1.handlers.Keys);
    var c3 := LoginToPending(sha, start, c2, b, t, u, p);
    var c4 := LoginToNamed(sha, start, c3, b);
    d := LoginToNamed(sha, start, c4, a);
    assert Get(d.username, s) == u && Get(d.username, t) == u && s != t;
  }

  /** From an erased reservation that is still held to two sessions of that name. */
  lemma Doubled(sha: Digest, c: Chat, g: HandlerId, h: HandlerId, u: Name, p: string) returns (d: Chat)
    requires Base(c) && c.live <= c.known && c.live !! c.raised && c.lock.None? && c.removing.None?
    requires g in c.handlers && c.handlers[g].kind.DISCONNECT? && c.handlers[g].pc.Cleaned?
    requires Holds(c.handlers, h, u) && u !in c.reserved && Opens(sha, c.users, u, p)
    ensures Reaches(sha, c, d) && Twice(d)
  {
    TypedAt(c, h);
    assert forall f :: f in c.handlers && f != g && c.handlers[f].kind.DISCONNECT? ==> c.handlers[f].pc.Done?;
    hide Reaches, Step, Acceptable, VerifyPassword, Base, Get;
    PasswordNeedsName(u, p);
    Stay(sha, c);
    var c1 := CallbackToEnd(sha, c, c, g);
    var c2 := ToTheBrink(sha, c, c1, h);
    var who := set t | t in c2.live && Get(c2.username, t) == u;
    var c3 := AllLogOut(sha, c, c2, u, who);
    hide Opens, Critical, Brink, Typed;
    assert Ready(sha, c3, h, u, p);
    d := SecondLogin(sha, c, c3, h, u, p);
  }

  // ---------------------------------------------------------------- exactly when

  lemma TurnCleans(sha: Digest, c: Chat, x: Handler, a: Action)
    requires Turn(sha, c, x, a).Some? && !a.CleanUp?
    ensures !Steals(c, Turn(sha, c, x, a).value)
  {
    hide VerifyPassword, HashPassword, Get;
  }

  lemma ApplyClean(c: Chat, h: HandlerId, e: Effect)
    requires h in c.handlers
    ensures Apply(c, h, e).clean == (c.clean && !Steals(c, e))
  {
  }

  lemma StepClean(sha: Digest, c: Chat, a: Action)
    requires Step(sha, c, a).Some? && !a.CleanUp?
    ensures Step(sha, c, a).value.clean == c.clean
  {
    hide Turn, Apply, Steals;
    if OfHandler(a) {
      var x := c.handlers[a.h];
      TurnCleans(sha, c, x, a);
      ApplyClean(c, a.h, Turn(sha, c, x, a).value);
    }
  }

  lemma {:induction false} CleanStays(sha: Digest, c: Chat, acts: seq<Action>)
    requires NoCleanUp(acts) && Run(sha, c, acts).Some?
    ensures Run(sha, c, acts).value.clean == c.clean
    decreases |acts|
  {
    hide Step;
    if acts != [] {
      assert !acts[0].CleanUp?;
      StepClean(sha, c, acts[0]);
      CleanStays(sha, Step(sha, c, acts[0]).value, acts[1..]);
    }
  }

  /** A callback's erasure, and what it changes. */
  lemma Erased(sha: Digest, c: Chat, g: HandlerId) returns (d: Chat)
    requires g in c.handlers && c.handlers[g].pc.Cleaning? && c.lock.None?
    ensures Step(sha, c, CleanUp(g)) == Some(d) && Still(c, d) && d.handlers == Set(c, g, Cleaned)
    ensures d.reserved == c.reserved - {c.handlers[g].pc.name} && d.username == c.username
    ensures d.clean == (c.clean && c.handlers[g].pc.name !in c.reserved)
  {
    d := Step(sha, c, CleanUp(g)).value;
  }

  /** After the callback's erasure, and with no erasure by any callback after it, the run can
      come to two sessions of one name. */
  ghost predicate MayDouble(sha: Digest, c: Chat, g: HandlerId) {
    var after := Step(sha, c, CleanUp(g));
    after.Some? && exists d :: Reaches(sha, after.value, d) && Twice(d)
  }

  lemma StaysSingle(sha: Digest, c: Chat, d: Chat)
    requires Base(c) && Safe(c) && c.clean && Reaches(sha, c, d)
    ensures !Twice(d)
  {
    hide Base, Run;
    var acts :| Leads(sha, c, acts, d);
    CleanStays(sha, c, acts);
    RunSafe(sha, c, acts);
    hide Exclusive, Scanned, NobodyElse, Registered, PendingOwned, Placed;
  }

  /** A callback at work keeps the event loop from everything else. */
  lemma InLoop(c: Chat, g: HandlerId)
    requires Base(c) && g in c.handlers && Typed(c.handlers[g]) && c.handlers[g].pc.Cleaning?
    ensures c.removing.None? && c.handlers[g].kind.DISCONNECT?
  {
    hide AllTyped, ReservationsOwned, Locked;
  }

  lemma SafePlaces(c: Chat)
    requires Safe(c)
    ensures c.live <= c.known && c.live !! c.raised
  {
    hide Exclusive, Scanned, NobodyElse, Registered, SingleLogin, PendingOwned;
  }

  /** Who holds the name that is about to be erased, before and after. */
  lemma Holder(c: Chat, g: HandlerId) returns (h: HandlerId)
    requires Base(c) && g in c.handlers && c.handlers[g].pc.Cleaning? && c.handlers[g].pc.name in c.reserved
    ensures Holds(Set(c, g, Cleaned), h, c.handlers[g].pc.name)
  {
    hide AllTyped, Locked, OneLoop;
    h :| Holds(c.handlers, h, c.handlers[g].pc.name);
  }

  /** The exact condition.  A disconnect callback has read a pending login and is about to
      erase its reservation; so far no callback has erased one that was held, and somebody
      knows the password of the name.  Then two sessions of one name can come of it if and
      only if the name is reserved at that moment: the erasure is harmless only when it has
      nothing to erase. */
  lemma StolenExactly(sha: Digest, users: map<Name, string>, acts: seq<Action>, g: HandlerId, p: string)
    requires Run(sha, Start(users), acts).Some?
    requires var c := Run(sha, Start(users), acts).value;
      && c.clean && c.lock.None? && g in c.handlers && c.handlers[g].pc.Cleaning?
      && Opens(sha, c.users, c.handlers[g].pc.name, p)
    ensures var c := Run(sha, Start(users), acts).value;
      MayDouble(sha, c, g) <==> c.handlers[g].pc.name in c.reserved
  {
    hide Run, Opens;
    assert Base(Start(users)) && Safe(Start(users));
    RunBase(sha, Start(users), acts);
    RunSafe(sha, Start(users), acts);
    var c := Run(sha, Start(users), acts).value;
    var after := Erased(sha, c, g);
    BaseKeeps(sha, c, CleanUp(g));
    SafeKeeps(sha, c, CleanUp(g));
    TypedAt(c, g);
    InLoop(c, g);
    SafePlaces(c);
    if c.handlers[g].pc.name in c.reserved {
      var h := Holder(c, g);
      hide Step, Base, Safe, Reaches, Twice;
      var d := Doubled(sha, after, g, h, c.handlers[g].pc.name, p);
    } else {
      hide Step, Base, Safe;
      forall d | Reaches(sha, after, d) ensures !Twice(d) {
        StaysSingle(sha, after, d);
      }
    }
  }

  // ---------------------------------------------------------------- from the start

  /** The peer goes away while its LOGIN waits for the database, and the callback sees it. */
  lemma GoneInLogin(sha: Digest, users: map<Name, string>, u: Name, p: string) returns (c: Chat)
    requires Opens(sha, users, u, p)
    ensures Reaches(sha, Start(users), c) && c.clean && c.lock.None? && c.removing.None? && c.users == users
    ensures c.live == {} && c.known == {0} && c.raised == {0} && c.reserved == {u}
    ensures c.handlers == map[10 := Handler(LOGIN, 0, u, p, Pended), 11 := Handler(DISCONNECT, 0, "", "", Cleaning(u))]
    ensures Get(c.username, 0) == ""
  {
    hide VerifyPassword, Reaches, Acceptable;
    PasswordNeedsName(u, p);
    var start := Start(users);
    Stay(sha, start);
    c := Connect(sha, start, start, 0);
    c := LoginToPending(sha, start, c, 10, 0, u, p);
    c := Gone(sha, start, c, 11, 0);
    c := GotoOf(sha, start, c, 11, ReadPending(11), Cleaning(u));
  }

  /** For every registered name and its password there is a run that ends with two sessions in
      the table under that name. */
  lemma TwoSessionsOneName(sha: Digest, users: map<Name, string>, u: Name, p: string)
    requires Opens(sha, users, u, p)
    ensures exists acts, d :: Run(sha, Start(users), acts) == Some(d) && Twice(d)
  {
    hide Opens, Run, Step, Twice;
    var c := GoneInLogin(sha, users, u, p);
    var acts :| Leads(sha, Start(users), acts, c);
    StolenExactly(sha, users, acts, 11, p);
    var after := Step(sha, c, CleanUp(11)).value;
    var d :| Reaches(sha, after, d) && Twice(d);
    var more :| Leads(sha, after, more, d);
    RunOne(sha, c, CleanUp(11));
    RunAppend(sha, Start(users), acts, [CleanUp(11)]);
    RunAppend(sha, Start(users), acts + [CleanUp(11)], more);
    assert Run(sha, Start(users), acts + [CleanUp(11)] + more) == Some(d);
  }

  // ---------------------------------------------------------------- the online index

  /** Nothing is under way and nobody is connected, yet the index shows `u` online. */
  ghost predicate OnlineButGone(c: Chat, u: Name) {
    Quiet(c.handlers) && c.removing.None? && c.live == {} && c.reserved == {} && u in c.online
  }

  lemma Joined(sha: Digest, start: Chat, c: Chat, a: Action, after: Chat, d: Chat)
    requires Reaches(sha, start, c) && Step(sha, c, a) == Some(after) && Reaches(sha, after, d)
    ensures exists acts :: Run(sha, start, acts) == Some(d)
  {
    hide Run, Step;
    var acts :| Leads(sha, start, acts, c);
    var more :| Leads(sha, after, more, d);
    RunOne(sha, c, a);
    RunAppend(sha, start, acts, [a]);
    RunAppend(sha, start, acts + [a], more);
  }

  /** For every registered name and its password: the peer goes away while its LOGIN waits for
      the database, and the LOGIN then puts the name into online_users_. */
  lemma NameOfNobody(sha: Digest, users: map<Name, string>, u: Name, p: string)
    requires Opens(sha, users, u, p)
    ensures exists acts, d :: Run(sha, Start(users), acts) == Some(d) && OnlineButGone(d, u)
  {
    hide Opens, Run, Step, Reaches;
    var c := GoneInLogin(sha, users, u, p);
    var after := Erased(sha, c, 11);
    Stay(sha, after);
    var d := CallbackToEnd(sha, after, after, 11);
    d := LoginToNamed(sha, after, d, 10);
    d := LoginToEnd(sha, after, d, 10);
    assert OnlineButGone(d, u);
    Joined(sha, Start(users), c, CleanUp(11), after, d);
  }

  lemma Reached(sha: Digest, c: Chat, d: Chat)
    requires Reaches(sha, c, d)
    ensures exists acts :: Run(sha, c, acts) == Some(d)
  {
    hide Run;
    var acts :| Leads(sha, c, acts, d);
  }

  /** Nothing is under way, a session carries `u`, and the index does not show it; and no
      reservation was ever stolen. */
  ghost predicate ConnectedButOffline(c: Chat, u: Name) {
    && Quiet(c.handlers) && c.removing.None? && c.clean && u !in c.online
    && exists s :: s in c.live && Get(c.username, s) == u
  }

  /** Two connections, and session 0 has logged in as `u`. */
  lemma LoggedIn(sha: Digest, users: map<Name, string>, u: Name, p: string) returns (c: Chat)
    requires Opens(sha, users, u, p)
    ensures Reaches(sha, Start(users), c) && c.clean && c.lock.None? && c.removing.None? && c.users == users
    ensures c.live == {0, 1} && c.known == {0, 1} && c.raised == {} && c.reserved == {}
    ensures c.handlers == map[10 := Handler(LOGIN, 0, u, p, Done)] && c.username == map[0 := u]
    ensures Get(c.pending, 0) == ""
  {
    hide VerifyPassword, Reaches, Acceptable, Run, Step;
    PasswordNeedsName(u, p);
    var start := Start(users);
    Stay(sha, start);
    c := Connect(sha, start, start, 0);
    c := Connect(sha, start, c, 1);
    c := LoginToPending(sha, start, c, 10, 0, u, p);
    c := LoginToNamed(sha, start, c, 10);
    c := LoginToEnd(sha, start, c, 10);
  }

  /** Session 0 leaves the table, and its callback has read the name. */
  lemma HalfGone(sha: Digest, users: map<Name, string>, u: Name, p: string) returns (c: Chat)
    requires Opens(sha, users, u, p)
    ensures Reaches(sha, Start(users), c) && c.clean && c.lock.None? && c.removing.None? && c.users == users
    ensures c.live == {1} && c.known == {0, 1} && c.raised == {0} && c.reserved == {} && Get(c.username, 1) == ""
    ensures c.handlers == map[10 := Handler(LOGIN, 0, u, p, Done), 11 := Handler(DISCONNECT, 0, "", "", Leaving(u))]
  {
    PasswordNeedsName(u, p);
    hide Opens, Reaches, Step;
    var start := Start(users);
    c := LoggedIn(sha, users, u, p);
    c := Gone(sha, start, c, 11, 0);
    c := GotoOf(sha, start, c, 11, ReadPending(11), Checked);
    c := LeaveToName(sha, start, c, 11, u);
  }

  /** For every registered name and its password: a LOGIN from a second connection overlaps
      the removal of the first, and the callback takes the name off the index again. */
  lemma NameMissing(sha: Digest, users: map<Name, string>, u: Name, p: string)
    requires Opens(sha, users, u, p)
    ensures exists acts, d :: Run(sha, Start(users), acts) == Some(d) && ConnectedButOffline(d, u)
  {
    hide VerifyPassword, Reaches, Acceptable, Run, Step;
    PasswordNeedsName(u, p);
    var start := Start(users);
    var c := HalfGone(sha, users, u, p);
    c := LoginToPending(sha, start, c, 12, 1, u, p);
    c := LoginToNamed(sha, start, c, 12);
    c := LoginToEnd(sha, start, c, 12);
    c := NameToEnd(sha, start, c, 11);
    assert Get(c.username, 1) == u;
    assert ConnectedButOffline(c, u);
    Reached(sha, start, c);
  }

  // ---------------------------------------------------------------- two handlers of one session

  /** Nothing is under way, nobody was removed, no reservation was ever stolen, and the index
      shows a name nobody carries. */
  ghost predicate Stale(c: Chat, u: Name) {
    && Quiet(c.handlers) && c.removing.None? && c.raised == {} && c.clean && c.live != {} && u in c.online
    && forall s :: s in c.live ==> Get(c.username, s) != u
  }

  /** Two LOGINs of one session, both past the check that it is not authenticated. */
  lemma BothPending(sha: Digest, users: map<Name, string>, u: Name, p: string, v: Name, q: string) returns (c: Chat)
    requires Opens(sha, users, u, p) && Opens(sha, users, v, q) && u != v
    ensures Reaches(sha, Start(users), c) && c.clean && c.lock.None? && c.removing.None? && c.users == users
    ensures c.live == {0} && c.raised == {} && c.username == map[] && c.online == {}
    ensures c.handlers == map[10 := Handler(LOGIN, 0, u, p, Pended), 12 := Handler(LOGIN, 0, v, q, Pended)]
  {
    hide VerifyPassword, Reaches, Acceptable, Run, Step;
    PasswordNeedsName(u, p);
    PasswordNeedsName(v, q);
    var start := Start(users);
    Stay(sha, start);
    c := Connect(sha, start, start, 0);
    c := LoginToPending(sha, start, c, 10, 0, u, p);
    c := LoginToPending(sha, start, c, 12, 0, v, q);
  }

  /** For every two registered names and their passwords: a session that sends a LOGIN for each
      ends as the second, and the first stays in the index. */
  lemma NameLeftBehind(sha: Digest, users: map<Name, string>, u: Name, p: string, v: Name, q: string)
    requires Opens(sha, users, u, p) && Opens(sha, users, v, q) && u != v
    ensures exists acts, d :: Run(sha, Start(users), acts) == Some(d) && Stale(d, u) && Get(d.username, 0) == v
  {
    hide Opens, Reaches, Run, Step;
    var start := Start(users);
    var c := BothPending(sha, users, u, p, v, q);
    c := LoginToNamed(sha, start, c, 10);
    c := LoginToEnd(sha, start, c, 10);
    c := LoginToNamed(sha, start, c, 12);
    c := LoginToEnd(sha, start, c, 12);
    assert Stale(c, u);
    Reached(sha, start, c);
  }

  /** A LOGIN has set the username and not yet updated the index. */
  lemma JustNamed(sha: Digest, users: map<Name, string>, u: Name, p: string) returns (c: Chat)
    requires Opens(sha, users, u, p)
    ensures Reaches(sha, Start(users), c) && c.clean && c.lock.None? && c.removing.None? && c.users == users
    ensures c.live == {0} && c.known == {0} && c.raised == {} && c.username == map[0 := u]
    ensures c.handlers == map[10 := Handler(LOGIN, 0, u, p, Named)]
  {
    hide VerifyPassword, Reaches, Acceptable, Run, Step;
    PasswordNeedsName(u, p);
    var start := Start(users);
    Stay(sha, start);
    c := Connect(sha, start, start, 0);
    c := LoginToPending(sha, start, c, 10, 0, u, p);
    c := LoginToNamed(sha, start, c, 10);
  }

  /** For every registered name and its password: a LOGOUT of the same session between the two
      updates of its LOGIN, and the name stays in the index. */
  lemma NameAfterLogout(sha: Digest, users: map<Name, string>, u: Name, p: string)
    requires Opens(sha, users, u, p)
    ensures exists acts, d :: Run(sha, Start(users), acts) == Some(d) && Stale(d, u)
  {
    PasswordNeedsName(u, p);
    hide Opens, Reaches, Run, Step;
    var start := Start(users);
    var c := JustNamed(sha, users, u, p);
    c := Spawned(sha, start, c, 11, LOGOUT, 0, "", "");
    c := GotoOf(sha, start, c, 11, Route(11), Checked);
    c := LeaveToEnd(sha, start, c, 11);
    c := LoginToEnd(sha, start, c, 10);
    assert Stale(c, u);
    Reached(sha, start, c);
  }
}
