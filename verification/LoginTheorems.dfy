/**
  Over whole runs of the login protocol, registered credentials keep working.  A LOGIN or
  REGISTER that is left alone does what it should, and nothing when it should not.
*/
module LoginTheorems {
  import opened Wrappers
  import opened Passwords
  import opened LoginProtocol
  import opened LoginSafety
  import opened LoginRace

  // ---------------------------------------------------------------- credentials

  ghost predicate Extends(users: map<Name, string>, more: map<Name, string>) {
    forall u :: u in users ==> u in more && more[u] == users[u]
  }

  /** register_user adds a row only where there is none. */
  lemma TurnAdds(sha: Digest, c: Chat, x: Handler, a: Action)
    requires Turn(sha, c, x, a).Some?
    ensures Turn(sha, c, x, a).value.AddUser? ==> x.name !in c.users
  {
    hide VerifyPassword, HashPassword, Get;
  }

  lemma ApplyExtends(c: Chat, h: HandlerId, e: Effect)
    requires h in c.handlers && (e.AddUser? ==> c.handlers[h].name !in c.users)
    ensures Extends(c.users, Apply(c, h, e).users)
  {
    hide Move, Steals;
  }

  lemma TurnExtends(sha: Digest, c: Chat, h: HandlerId, a: Action)
    requires h in c.handlers && Turn(sha, c, c.handlers[h], a).Some?
    ensures Extends(c.users, Apply(c, h, Turn(sha, c, c.handlers[h], a).value).users)
  {
    hide Turn, Apply, Extends;
    TurnAdds(sha, c, c.handlers[h], a);
    ApplyExtends(c, h, Turn(sha, c, c.handlers[h], a).value);
  }

  lemma SameUsers(users: map<Name, string>)
    ensures Extends(users, users)
  {
  }

  lemma StepExtends(sha: Digest, c: Chat, a: Action)
    requires Step(sha, c, a).Some?
    ensures Extends(c.users, Step(sha, c, a).value.users)
  {
    hide Turn, Apply, Extends;
    if OfHandler(a) {
      TurnExtends(sha, c, a.h, a);
    } else {
      SameUsers(c.users);
    }
  }

  /** User rows are only added and never changed. */
  lemma {:induction false} UsersOnlyGrow(sha: Digest, c: Chat, acts: seq<Action>)
    requires Run(sha, c, acts).Some?
    ensures Extends(c.users, Run(sha, c, acts).value.users)
    decreases |acts|
  {
    hide Step;
    if acts != [] {
      StepExtends(sha, c, acts[0]);
      UsersOnlyGrow(sha, Step(sha, c, acts[0]).value, acts[1..]);
    }
  }

  /** A REGISTER that inserted its row makes LOGIN work ever after: in every later state of
      every run, a LOGIN for that name is granted with that password, and with any other
      exactly when the salted digests collide. */
  lemma CredentialsPersist(sha: Digest, c: Chat, h: HandlerId, salt: string, acts: seq<Action>, login: Handler)
    requires IsDigest(sha) && IsSalt(salt)
    requires h in c.handlers && DoInsert(sha, c, c.handlers[h], salt).Some?
    requires DoInsert(sha, c, c.handlers[h], salt).value.pc.Granted?
    requires Run(sha, Apply(c, h, DoInsert(sha, c, c.handlers[h], salt).value), acts).Some?
    requires login.kind.LOGIN? && login.pc.Pended? && login.name == c.handlers[h].name
    ensures var d := Run(sha, Apply(c, h, DoInsert(sha, c, c.handlers[h], salt).value), acts).value;
      DoVerify(sha, d, login) == Some(Goto(
        if sha(salt + ":" + login.password) == sha(salt + ":" + c.handlers[h].password) then Granted else Denied))
  {
    hide Run;
    var x := c.handlers[h];
    var start := Apply(c, h, DoInsert(sha, c, x, salt).value);
    UsersOnlyGrow(sha, start, acts);
    assert start.users[x.name] == HashPassword(sha, salt, x.password);
    VerifyHashed(sha, salt, x.password, login.password);
  }

  // ---------------------------------------------------------------- a handler left alone

  /** Lengths the handlers accept. */
  predicate Fits(u: Name, p: string) {
    1 <= |u| <= 32 && 1 <= |p| <= 128
  }

  /** `d` is `c` after handler `h` refused its request: nobody's name and no row changed, and
      no reservation is left behind. */
  ghost predicate RefusedAt(c: Chat, d: Chat, h: HandlerId) {
    && h in d.handlers && d.handlers[h].pc.Done?
    && (d.live, d.users, d.lock, d.reserved, d.online) == (c.live, c.users, c.lock, c.reserved, c.online)
    && forall s :: Get(d.username, s) == Get(c.username, s)
  }

  /** It is `c` after handler `h` entered session `s` under the name `u`. */
  ghost predicate EnteredAt(c: Chat, d: Chat, h: HandlerId, s: Session, u: Name) {
    && h in d.handlers && d.handlers[h].pc.Done?
    && (d.live, d.lock, d.reserved, d.online) == (c.live, c.lock, c.reserved, c.online + {u})
    && d.username == c.username[s := u] && Get(d.pending, s) == ""
  }

  /** A request of an idle session that its handler refuses before reserving the name. */
  lemma TurnedAway(sha: Digest, start: Chat, c: Chat, h: HandlerId, kind: Kind, s: Session, u: Name, p: string)
    returns (d: Chat)
    requires Reaches(sha, start, c) && c.lock.None? && h !in c.handlers && s in c.known - c.raised
    requires kind.Auth() && Get(c.username, s) == "" && !(Fits(u, p) && u !in c.reserved)
    ensures Reaches(sha, start, d) && RefusedAt(c, d, h)
  {
    hide Reaches, Get;
    var c1 := Spawned(sha, start, c, h, kind, s, u, p);
    if Fits(u, p) {
      var c2 := GotoOf(sha, start, c1, h, Route(h), Checked);
      d := GotoOf(sha, start, c2, h, Reserve(h), Done);
    } else {
      d := GotoOf(sha, start, c1, h, Route(h), Done);
    }
  }

  /** `d` is `c` after handler `h` gave its name back and cleared the pending login, having
      logged its session in if `granted`. */
  ghost predicate Ended(c: Chat, d: Chat, h: HandlerId, granted: bool)
    requires h in c.handlers
  {
    var x := c.handlers[h];
    && (d.live, d.lock) == (c.live, c.lock) && d.handlers == Set(c, h, Done)
    && d.reserved == c.reserved - {x.name} && d.pending == c.pending[x.session := ""]
    && d.username == (if granted then c.username[x.session := x.name] else c.username)
    && d.online == if granted then c.online + {x.name} else c.online
  }

  /** A handler whose verification or insertion failed gives the name back. */
  lemma DeniedToEnd(sha: Digest, start: Chat, c: Chat, h: HandlerId) returns (d: Chat)
    requires Reaches(sha, start, c) && h in c.handlers && c.handlers[h].pc.Denied? && c.lock.None?
    ensures Reaches(sha, start, d)
    ensures var x := c.handlers[h];
      Same(c, d, Set(c, h, Done), c.reserved - {x.name}, c.pending[x.session := ""], c.username)
      && d.online == c.online
  {
    hide Reaches, Step;
    var c1 := TurnOf(sha, start, c, h, Release(h), Erase(Released, c.handlers[h].name));
    d := TurnOf(sha, start, c1, h, ClearPending(h), Pend(Done, ""));
  }

  /** A REGISTER reserves its name and sets the pending login. */
  lemma RegisterToPending(sha: Digest, start: Chat, c: Chat, h: HandlerId, s: Session, u: Name, p: string)
    returns (d: Chat)
    requires Reaches(sha, start, c) && c.lock.None? && h !in c.handlers && s in c.known - c.raised
    requires Get(c.username, s) == "" && Fits(u, p) && u !in c.reserved
    ensures Reaches(sha, start, d) && d.online == c.online
    ensures Same(c, d, c.handlers[h := Handler(REGISTER, s, u, p, Pended)], c.reserved + {u}, c.pending[s := u],
                 c.username)
  {
    hide Reaches, Step, Get;
    var c1 := Spawned(sha, start, c, h, REGISTER, s, u, p);
    var c2 := GotoOf(sha, start, c1, h, Route(h), Checked);
    var c3 := TurnOf(sha, start, c2, h, Reserve(h), Effect.Insert(Reserved));
    d := TurnOf(sha, start, c3, h, SetPending(h), Pend(Pended, u));
  }

  /** A new row and set_username. */
  lemma RegisterToNamed(sha: Digest, start: Chat, c: Chat, h: HandlerId, salt: string) returns (d: Chat)
    requires Reaches(sha, start, c) && h in c.handlers && c.handlers[h].pc.Pended? && c.handlers[h].kind.REGISTER?
    requires c.handlers[h].name !in c.users
    ensures Reaches(sha, start, d)
    ensures var x := c.handlers[h];
      var hash := HashPassword(sha, salt, x.password);
      && Same(c.(users := c.users[x.name := hash]), d, Set(c, h, Named), c.reserved, c.pending,
              c.username[x.session := x.name])
      && d.online == c.online
  {
    hide Reaches, Step, HashPassword;
    var x := c.handlers[h];
    var c1 := TurnOf(sha, start, c, h, Action.Insert(h, salt), AddUser(Granted, HashPassword(sha, salt, x.password)));
    d := TurnOf(sha, start, c1, h, SetName(h), SetUser(Named, x.name));
  }

  /** A REGISTER that gets to the insertion of its row. */
  lemma RegisterFromPending(sha: Digest, start: Chat, c: Chat, h: HandlerId, salt: string) returns (d: Chat)
    requires Reaches(sha, start, c) && h in c.handlers && c.handlers[h].pc.Pended? && c.handlers[h].kind.REGISTER?
    requires c.lock.None?
    ensures Reaches(sha, start, d)
    ensures var x := c.handlers[h];
      Ended(c, d, h, x.name !in c.users)
      && d.users == if x.name in c.users then c.users else c.users[x.name := HashPassword(sha, salt, x.password)]
  {
    hide Reaches, Step, HashPassword;
    var x := c.handlers[h];
    if x.name in c.users {
      var c1 := GotoOf(sha, start, c, h, Action.Insert(h, salt), Denied);
      d := DeniedToEnd(sha, start, c1, h);
    } else {
      var c1 := RegisterToNamed(sha, start, c, h, salt);
      d := LoginToEnd(sha, start, c1, h);
    }
  }

  /** From set_pending_login to the end: the name is given back, and the session carries it
      if the request was granted. */
  lemma Settle(c: Chat, b: Chat, d: Chat, h: HandlerId, s: Session, u: Name, granted: bool)
    requires Get(c.username, s) == "" && u !in c.reserved && c.lock.None?
    requires Still(c, b) && b.online == c.online && b.username == c.username && b.reserved == c.reserved + {u}
    requires h in b.handlers && b.handlers[h].session == s && b.handlers[h].name == u && Ended(b, d, h, granted)
    ensures granted ==> EnteredAt(c, d, h, s, u)
    ensures !granted && d.users == c.users ==> RefusedAt(c, d, h)
  {
    assert c.reserved + {u} - {u} == c.reserved;
  }

  /** A REGISTER of an idle session, left alone, inserts the row and logs the session in
      exactly when the lengths fit and the name is neither reserved nor registered. */
  lemma RegisterRuns(sha: Digest, start: Chat, c: Chat, h: HandlerId, s: Session, u: Name, p: string, salt: string)
    returns (d: Chat)
    requires Reaches(sha, start, c) && c.lock.None? && h !in c.handlers && s in c.known - c.raised
    requires Get(c.username, s) == ""
    ensures Reaches(sha, start, d)
    ensures if 1 <= |u| <= 32 && 1 <= |p| <= 128 && u !in c.reserved && u !in c.users
            then EnteredAt(c, d, h, s, u) && d.users == c.users[u := HashPassword(sha, salt, p)]
            else RefusedAt(c, d, h)
  {
    hide Reaches, Step, Get, HashPassword, Ended, EnteredAt, RefusedAt;
    if !Fits(u, p) || u in c.reserved {
      d := TurnedAway(sha, start, c, h, REGISTER, s, u, p);
    } else {
      var b := RegisterToPending(sha, start, c, h, s, u, p);
      d := RegisterFromPending(sha, start, b, h, salt);
      Settle(c, b, d, h, s, u, u !in c.users);
    }
  }

  /** A LOGIN finds a session of the table that carries the name. */
  lemma FoundToEnd(sha: Digest, start: Chat, c: Chat, h: HandlerId, t: Session) returns (d: Chat)
    requires Reaches(sha, start, c) && h in c.handlers && c.handlers[h].pc.Scanning?
    requires t in c.handlers[h].pc.left && Get(c.username, t) == c.handlers[h].name
    ensures Reaches(sha, start, d) && d == c.(lock := None, handlers := Set(c, h, Done))
  {
    hide Reaches, Step, Get;
    d := TurnOf(sha, start, c, h, Look(h, t), DropLock(Done));
  }

  /** A LOGIN that gets to its password. */
  lemma LoginFromPending(sha: Digest, start: Chat, c: Chat, h: HandlerId) returns (d: Chat)
    requires Reaches(sha, start, c) && h in c.handlers && c.handlers[h].pc.Pended? && c.handlers[h].kind.LOGIN?
    requires c.lock.None? && Acceptable(c.handlers[h].name, c.handlers[h].password)
    ensures Reaches(sha, start, d) && d.users == c.users
    ensures var x := c.handlers[h];
      Ended(c, d, h,
            x.name in c.users && c.users[x.name] != "" && VerifyPassword(sha, x.password, c.users[x.name]))
  {
    hide Reaches, Step, VerifyPassword, Acceptable;
    var x := c.handlers[h];
    if Opens(sha, c.users, x.name, x.password) {
      var c1 := LoginToNamed(sha, start, c, h);
      d := LoginToEnd(sha, start, c1, h);
    } else {
      var c1 := GotoOf(sha, start, c, h, Verify(h), Denied);
      d := DeniedToEnd(sha, start, c1, h);
    }
  }

  /** A LOGIN stopped by a session of the table that carries the name. */
  lemma FoundAway(sha: Digest, start: Chat, c: Chat, h: HandlerId, s: Session, u: Name, p: string, t: Session)
    returns (d: Chat)
    requires Reaches(sha, start, c) && c.lock.None? && h !in c.handlers && s in c.known - c.raised
    requires Get(c.username, s) == "" && Fits(u, p) && u !in c.reserved
    requires t in c.live && Get(c.username, t) == u
    ensures Reaches(sha, start, d) && RefusedAt(c, d, h)
  {
    hide Reaches, Get;
    var c1 := LoginToScan(sha, start, c, h, s, u, p);
    d := TurnOf(sha, start, c1, h, Look(h, t), DropLock(Done));
  }

  /** A LOGIN of an idle session, left alone, logs it in exactly when the lengths fit, the
      name is not reserved, no session of the table carries it, and the password verifies
      against its row. */
  lemma LoginRuns(sha: Digest, start: Chat, c: Chat, h: HandlerId, s: Session, u: Name, p: string) returns (d: Chat)
    requires Reaches(sha, start, c) && c.lock.None? && h !in c.handlers && s in c.known - c.raised
    requires Get(c.username, s) == ""
    ensures Reaches(sha, start, d) && d.users == c.users
    ensures if && 1 <= |u| <= 32 && 1 <= |p| <= 128 && u !in c.reserved
               && (forall t :: t in c.live ==> Get(c.username, t) != u)
               && u in c.users && c.users[u] != "" && VerifyPassword(sha, p, c.users[u])
            then EnteredAt(c, d, h, s, u)
            else RefusedAt(c, d, h)
  {
    hide Reaches, Step, Get, VerifyPassword, Ended, EnteredAt;
    if !Fits(u, p) || u in c.reserved {
      d := TurnedAway(sha, start, c, h, LOGIN, s, u, p);
    } else if t :| t in c.live && Get(c.username, t) == u {
      d := FoundAway(sha, start, c, h, s, u, p, t);
    } else {
      var b := LoginToPending(sha, start, c, h, s, u, p);
      d := LoginFromPending(sha, start, b, h);
      Settle(c, b, d, h, s, u,
             u in c.users && c.users[u] != "" && VerifyPassword(sha, p, c.users[u]));
    }
  }
}
