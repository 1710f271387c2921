/**
  What holds of every run of the server, one event at a time.
*/
module ChatTheorems {
  import opened Wrappers
  import opened Passwords
  import opened ChatSpec
  import L = LoginProtocol
  import R = RateLimiter
  import D = Database

  lemma {:induction false} RunSane(sha: Digest, w: World, es: seq<Event>)
    requires Sane(w) && Run(sha, w, es).Some?
    ensures Sane(Run(sha, w, es).value)
    decreases |es|
  {
    hide Sane, Enabled, Step;
    if es != [] {
      var n := |es| - 1;
      RunSane(sha, w, es[..n]);
      SaneKeeps(sha, Run(sha, w, es[..n]).value, es[n]);
    }
  }

  lemma StartSane(users: map<string, string>, rows: seq<D.Row>)
    ensures Sane(Start(users, rows))
  {
  }

  // ---------------------------------------------------------------- who hears what

  /** Whether a connection of this name may be sent `m`, given who is online and what is
      stored. */
  ghost predicate Entitled(m: Message, name: string, names: set<string>, rows: seq<D.Row>) {
    match m
    case Error(_) => true
    case LoginOk(n) => name == n && n != ""
    case HistoryResp(to, data) => name != "" && multiset(data) <= multiset(D.Select(rows, name, to))
    case UserList(list) => name != "" && list == names
    case Notify(who, joined) => name != "" && name != who && (joined <==> who in names)
    case Broadcast(sender, _, _) => name != "" && sender in names
    case Private(sender, to, _, _) => name != "" && (name == sender || name == to)
  }

  ghost predicate Heard(name: string, before: seq<Message>, after: seq<Message>, names: set<string>, rows: seq<D.Row>) {
    && before <= after
    && forall m <- after[|before|..] :: Entitled(m, name, names, rows)
  }

  /** Nobody loses what was sent, and everything new is for who gets it. */
  ghost predicate Fair(before: Peers, after: Peers, names: set<string>, rows: seq<D.Row>) {
    forall fd :: fd in after ==>
      Heard(after[fd].username, if fd in before then before[fd].sent else [], after[fd].sent, names, rows)
  }

  lemma HeardMore(name: string, sent: seq<Message>, more: seq<Message>, names: set<string>, rows: seq<D.Row>)
    requires forall m <- more :: Entitled(m, name, names, rows)
    ensures Heard(name, sent, sent + more, names, rows)
  {
    assert (sent + more)[|sent|..] == more;
  }

  lemma HeardAt(name: string, before: seq<Message>, after: seq<Message>, names: set<string>, rows: seq<D.Row>, j: nat)
    requires Heard(name, before, after, names, rows) && j < |after|
    ensures if j < |before| then after[j] == before[j] else Entitled(after[j], name, names, rows)
  {
    assert j >= |before| ==> after[j] == after[|before|..][j - |before|];
  }

  lemma TellFair(peers: Peers, fd: Fd, m: Message, names: set<string>, rows: seq<D.Row>)
    requires fd in peers && Entitled(m, peers[fd].username, names, rows)
    ensures Fair(peers, Tell(peers, fd, m), names, rows)
  {
  }

  lemma CastFair(peers: Peers, sender: Fd, content: string, now: int, rows: seq<D.Row>)
    requires sender in peers && peers[sender].username != ""
    ensures Fair(peers, Cast(peers, Broadcast(peers[sender].username, content, now), ""), Names(peers), rows)
  {
    var m := Broadcast(peers[sender].username, content, now);
    assert Holds(peers, sender, peers[sender].username);
    var after := Cast(peers, m, "");
    hide Heard, Names;
    forall p | p in peers ensures Heard(peers[p].username, peers[p].sent, after[p].sent, Names(peers), rows) {
      var more := if peers[p].username == "" then [] else [m];
      HeardMore(peers[p].username, peers[p].sent, more, Names(peers), rows);
      assert after[p].sent == peers[p].sent + more;
    }
  }

  /** What one connection hears of a private message. */
  lemma WhisperHeard(peers: Peers, fd: Fd, to: string, content: string, now: int, p: Fd, names: set<string>,
                     rows: seq<D.Row>)
    requires fd in peers && peers[fd].username != "" && to != "" && p in peers
    ensures var after := Whisper(peers, fd, to, Private(peers[fd].username, to, content, now));
      Heard(after[p].username, peers[p].sent, after[p].sent, names, rows)
  {
    var m := Private(peers[fd].username, to, content, now);
    var after := Whisper(peers, fd, to, m);
    var more := (if peers[p].username == to then [m] else []) + (if p == fd then [m] else []);
    assert after[p].username == peers[p].username && after[p].sent == peers[p].sent + more;
    hide Heard, Whisper;
    HeardMore(peers[p].username, peers[p].sent, more, names, rows);
  }

  lemma WhisperFair(peers: Peers, fd: Fd, to: string, content: string, now: int, names: set<string>, rows: seq<D.Row>)
    requires fd in peers && peers[fd].username != "" && to != ""
    ensures Fair(peers, Whisper(peers, fd, to, Private(peers[fd].username, to, content, now)), names, rows)
  {
    var after := Whisper(peers, fd, to, Private(peers[fd].username, to, content, now));
    assert after.Keys == peers.Keys;
    hide Heard, Whisper;
    forall p | p in peers ensures Heard(after[p].username, peers[p].sent, after[p].sent, names, rows) {
      WhisperHeard(peers, fd, to, content, now, p, names, rows);
    }
  }

  /** What one connection hears of a login. */
  lemma EnterHeard(peers: Peers, fd: Fd, name: string, history: seq<D.Item>, p: Fd, rows: seq<D.Row>)
    requires fd in peers && peers[fd].username == "" && name != "" && name !in Names(peers) && p in peers
    requires multiset(history) <= multiset(D.Select(rows, name, D.ROOM))
    ensures var after := Enter(peers, fd, name, history);
      Heard(after[p].username, peers[p].sent, after[p].sent, Names(peers) + {name}, rows)
  {
    var after := Enter(peers, fd, name, history);
    var names := Names(peers) + {name};
    assert Holds(peers, p, peers[p].username);
    var more := if p == fd then [LoginOk(name), HistoryResp(D.ROOM, history), UserList(names)]
      else if peers[p].username != "" then [UserList(names), Notify(name, true)] else [];
    assert after[p].sent == peers[p].sent + more;
    assert after[p].username == if p == fd then name else peers[p].username;
    hide Heard, Names, D.Select, Enter;
    HeardMore(after[p].username, peers[p].sent, more, names, rows);
  }

  lemma EnterFair(peers: Peers, fd: Fd, name: string, history: seq<D.Item>, rows: seq<D.Row>)
    requires fd in peers && peers[fd].username == "" && name != "" && name !in Names(peers)
    requires multiset(history) <= multiset(D.Select(rows, name, D.ROOM))
    ensures Fair(peers, Enter(peers, fd, name, history), Names(peers) + {name}, rows)
  {
    var after := Enter(peers, fd, name, history);
    assert after.Keys == peers.Keys;
    hide Heard, Names, D.Select, Enter;
    forall p | p in peers ensures Heard(after[p].username, peers[p].sent, after[p].sent, Names(peers) + {name}, rows) {
      EnterHeard(peers, fd, name, history, p, rows);
    }
  }

  lemma LeaveFair(peers: Peers, fd: Fd, rows: seq<D.Row>)
    requires fd in peers && Unique(peers)
    ensures Fair(peers, Leave(peers, fd), Names(peers) - {peers[fd].username}, rows)
    ensures Fair(peers, Leave(peers, fd) - {fd}, Names(peers) - {peers[fd].username}, rows)
  {
    assert forall p :: p in peers ==> Holds(peers, p, peers[p].username);
  }

  lemma NoChangeFair(peers: Peers, names: set<string>, rows: seq<D.Row>)
    ensures Fair(peers, peers, names, rows)
  {
  }

  lemma ConnectFair(peers: Peers, fd: Fd, ip: string, names: set<string>, rows: seq<D.Row>)
    requires fd !in peers
    ensures Fair(peers, peers[fd := Peer(ip, "", [])], names, rows)
  {
  }

  lemma RefusalFair(w: World, fd: Fd, code: Code)
    requires fd in w.peers
    ensures var after := w.(peers := Tell(w.peers, fd, Error(code)));
      Fair(w.peers, after.peers, Names(after.peers), after.rows)
  {
    TellNames(w.peers, fd, Error(code));
    TellFair(w.peers, fd, Error(code), Names(w.peers), w.rows);
  }

  lemma StrangerFair(sha: Digest, w: World, fd: Fd, r: Request, env: Env)
    requires Sane(w) && Enabled(sha, w, Ask(fd, r, env)) && w.peers[fd].username == ""
    ensures var after := Serve(sha, w, fd, r, env); Fair(w.peers, after.peers, Names(after.peers), after.rows)
  {
    hide Names, Unique, Tell, Cast, Whisper, Enter, Leave, Fair, D.Select;
    forall code { RefusalFair(w, fd, code); }
    NoChangeFair(w.peers, Names(w.peers), w.rows);
    if Asks(sha, w, fd, r, env).Some? {
      EnterNames(w.peers, fd, r.from, env.history);
      EnterFair(w.peers, fd, r.from, env.history, w.rows);
    }
  }

  lemma MemberFair(sha: Digest, w: World, fd: Fd, r: Request, env: Env)
    requires Sane(w) && Enabled(sha, w, Ask(fd, r, env)) && w.peers[fd].username != ""
    ensures var after := Serve(sha, w, fd, r, env); Fair(w.peers, after.peers, Names(after.peers), after.rows)
  {
    hide Names, Unique, Tell, Cast, Whisper, Enter, Leave, Fair, D.Select;
    var me := w.peers[fd].username;
    forall code { RefusalFair(w, fd, code); }
    NoChangeFair(w.peers, Names(w.peers), w.rows);
    CastNames(w.peers, Broadcast(me, r.content, env.now), "");
    CastFair(w.peers, fd, r.content, env.now, Serve(sha, w, fd, r, env).rows);
    LeaveNames(w.peers, fd);
    LeaveFair(w.peers, fd, w.rows);
    WhisperNames(w.peers, fd, Target(r), Private(me, Target(r), r.content, env.now));
    if Target(r) != "" {
      WhisperFair(w.peers, fd, Target(r), r.content, env.now, Names(w.peers), Serve(sha, w, fd, r, env).rows);
    }
    if r.kind == "HISTORY_REQ" {
      var m := HistoryResp(Room(r), env.history);
      TellNames(w.peers, fd, m);
      TellFair(w.peers, fd, m, Names(w.peers), w.rows);
    }
  }

  /** What one event sends, it sends to those it is for, and it tells the truth: a user list
      is the set of names connected after the event, a history is of the reader's own
      conversation, a private message reaches only the two named in it. */
  lemma StepFair(sha: Digest, w: World, e: Event)
    requires Sane(w) && Enabled(sha, w, e)
    ensures var after := Step(sha, w, e); Fair(w.peers, after.peers, Names(after.peers), after.rows)
  {
    hide Names, Unique, Tell, Cast, Whisper, Enter, Leave, Fair, D.Select;
    match e
    case Connect(fd, ip) =>
      ConnectNames(w.peers, fd, ip);
      ConnectFair(w.peers, fd, ip, Names(w.peers), w.rows);
    case Gone(fd) =>
      LeaveNames(w.peers, fd);
      LeaveFair(w.peers, fd, w.rows);
    case Ask(fd, r, env) =>
      if w.peers[fd].username == "" {
        StrangerFair(sha, w, fd, r, env);
      } else {
        MemberFair(sha, w, fd, r, env);
      }
  }

  /** After `n` events the connection is there and its `j`th message is `m`. */
  ghost predicate Has(sha: Digest, w: World, es: seq<Event>, n: nat, fd: Fd, j: nat, m: Message) {
    && n <= |es|
    && var z := Run(sha, w, es[..n]);
       z.Some? && fd in z.value.peers && j < |z.value.peers[fd].sent| && z.value.peers[fd].sent[j] == m
  }

  /** Event `i` sends `m` as the `j`th message of a connection: before it the connection is not
      there or has heard less, after it the connection has a name entitled to `m`, and from
      then on to the end it stays and keeps the message. */
  ghost predicate SentBy(sha: Digest, w: World, es: seq<Event>, i: nat, fd: Fd, j: nat, m: Message) {
    && i < |es|
    && var before, after := Run(sha, w, es[..i]), Run(sha, w, es[..i + 1]);
    && before.Some? && (fd in before.value.peers ==> |before.value.peers[fd].sent| <= j)
    && after.Some? && fd in after.value.peers
    && Entitled(m, after.value.peers[fd].username, Names(after.value.peers), after.value.rows)
    && forall n :: i < n <= |es| ==> Has(sha, w, es, n, fd, j, m)
  }

  /** One more event does not change who sent a message. */
  lemma SentBefore(sha: Digest, w: World, es: seq<Event>, i: nat, fd: Fd, j: nat, m: Message)
    requires es != [] && SentBy(sha, w, es[..|es| - 1], i, fd, j, m) && Has(sha, w, es, |es|, fd, j, m)
    ensures SentBy(sha, w, es, i, fd, j, m)
  {
    hide Run, Entitled, Names;
    var front := es[..|es| - 1];
    assert front[..i] == es[..i] && front[..i + 1] == es[..i + 1];
    forall n | i < n <= |es| ensures Has(sha, w, es, n, fd, j, m) {
      if n < |es| {
        assert Has(sha, w, front, n, fd, j, m);
        assert front[..n] == es[..n];
      }
    }
  }

  /** What a connection has been sent before the last event. */
  ghost function Earlier(before: World, fd: Fd): seq<Message> {
    if fd in before.peers then before.peers[fd].sent else []
  }

  lemma HeardLast(sha: Digest, w: World, es: seq<Event>, fd: Fd)
    requires Sane(w) && es != [] && Run(sha, w, es).Some? && fd in Run(sha, w, es).value.peers
    ensures var before, after := Run(sha, w, es[..|es| - 1]), Run(sha, w, es).value;
      before.Some?
      && Heard(after.peers[fd].username, Earlier(before.value, fd), after.peers[fd].sent, Names(after.peers),
        after.rows)
  {
    hide Step, Enabled, Sane, Names, Heard;
    RunSane(sha, w, es[..|es| - 1]);
    StepFair(sha, Run(sha, w, es[..|es| - 1]).value, es[|es| - 1]);
  }

  /** A message of the final log was there before the last event, or that event sent it. */
  lemma LastEvent(sha: Digest, w: World, es: seq<Event>, fd: Fd, j: nat, m: Message)
    requires Sane(w) && es != [] && Has(sha, w, es, |es|, fd, j, m)
    ensures Has(sha, w, es[..|es| - 1], |es| - 1, fd, j, m) || SentBy(sha, w, es, |es| - 1, fd, j, m)
  {
    hide Run, Sane, Names, Entitled, Heard;
    var n := |es| - 1;
    assert es[..n + 1] == es && es[..n][..n] == es[..n];
    HeardLast(sha, w, es, fd);
    var before, after := Run(sha, w, es[..n]).value, Run(sha, w, es).value;
    HeardAt(after.peers[fd].username, Earlier(before, fd), after.peers[fd].sent, Names(after.peers), after.rows, j);
  }

  lemma {:induction false} SenderOf(sha: Digest, w: World, es: seq<Event>, fd: Fd, j: nat, m: Message) returns (i: nat)
    requires Sane(w) && w.peers == map[] && Has(sha, w, es, |es|, fd, j, m)
    ensures SentBy(sha, w, es, i, fd, j, m)
    decreases |es|
  {
    assert es != [];
    LastEvent(sha, w, es, fd, j, m);
    hide Has, SentBy, Sane;
    i := |es| - 1;
    if Has(sha, w, es[..|es| - 1], |es| - 1, fd, j, m) {
      i := SenderOf(sha, w, es[..|es| - 1], fd, j, m);
      SentBefore(sha, w, es, i, fd, j, m);
    }
  }

  /** In every run, everything a connection has ever been sent was meant for the name it had
      when it was sent: before it logs in it hears nothing but errors, and a private message
      is only ever heard by its sender and by the holder of the name it is for. */
  lemma EverythingHeard(sha: Digest, users: map<string, string>, rows: seq<D.Row>, es: seq<Event>, fd: Fd, j: nat)
    requires Run(sha, Start(users, rows), es).Some?
    requires var w := Run(sha, Start(users, rows), es).value; fd in w.peers && j < |w.peers[fd].sent|
    ensures exists i: nat ::
      SentBy(sha, Start(users, rows), es, i, fd, j, Run(sha, Start(users, rows), es).value.peers[fd].sent[j])
  {
    hide Run, SentBy;
    StartSane(users, rows);
    assert es[..|es|] == es;
    var i := SenderOf(sha, Start(users, rows), es, fd, j, Run(sha, Start(users, rows), es).value.peers[fd].sent[j]);
  }

  // ---------------------------------------------------------------- what is stored

  /** The row of an accepted BROADCAST. */
  function Aired(w: World, e: Event): (row: seq<D.Row>)
    requires e.Ask? ==> e.fd in w.peers
    ensures |row| <= 1
  {
    if e.Ask? && w.peers[e.fd].username != "" && e.request.kind == "BROADCAST"
       && BroadcastVerdict(e.request).Granted? then
      [D.Row(w.peers[e.fd].username, D.ROOM, e.request.content, e.env.now)]
    else []
  }

  /** The row of an accepted PRIVATE. */
  function Whispered(w: World, e: Event): (row: seq<D.Row>)
    requires e.Ask? ==> e.fd in w.peers
    ensures |row| <= 1
  {
    if e.Ask? && w.peers[e.fd].username != "" && e.request.kind == "PRIVATE"
       && PrivateVerdict(w, e.request).Granted? then
      [D.Row(w.peers[e.fd].username, Target(e.request), e.request.content, e.env.now)]
    else []
  }

  lemma StepStores(sha: Digest, w: World, e: Event)
    requires Enabled(sha, w, e)
    ensures Step(sha, w, e).rows == w.rows + Aired(w, e) + Whispered(w, e)
    ensures Aired(w, e) == [] || Whispered(w, e) == []
  {
    hide Names, Tell, Cast, Whisper, Enter, Leave;
  }

  /** The message that says what a row says. */
  predicate Carries(m: Message, row: D.Row) {
    match m
    case Broadcast(sender, content, timestamp) => D.Row(sender, D.ROOM, content, timestamp) == row
    case Private(sender, to, content, timestamp) => D.Row(sender, to, content, timestamp) == row
    case _ => false
  }

  /** Under which name a reader asks for the conversation a row belongs to. */
  function Conversation(row: D.Row, reader: string): string {
    if row.to == D.ROOM then D.ROOM else if reader == row.from then row.to else row.from
  }

  /** What an accepted message puts into the log of one connection. */
  function Share(w: World, e: Event, fd: Fd): seq<Message>
    requires e.Ask? && e.fd in w.peers && fd in w.peers
  {
    var me, name := w.peers[e.fd].username, w.peers[fd].username;
    if Aired(w, e) != [] then
      if name != "" then [Broadcast(me, e.request.content, e.env.now)] else []
    else
      var m := Private(me, Target(e.request), e.request.content, e.env.now);
      (if name == m.to then [m] else []) + (if fd == e.fd then [m] else [])
  }

  lemma AcceptedShares(sha: Digest, w: World, e: Event, fd: Fd)
    requires Enabled(sha, w, e) && fd in w.peers && Aired(w, e) + Whispered(w, e) != []
    ensures fd in Step(sha, w, e).peers
    ensures Step(sha, w, e).peers[fd].sent == w.peers[fd].sent + Share(w, e, fd)
  {
    hide Names, Enter, Leave, Answers, Asks;
    var m := Private(w.peers[e.fd].username, Target(e.request), e.request.content, e.env.now);
    assert Aired(w, e) == [] ==> Whisper(w.peers, e.fd, m.to, m)[fd].sent == w.peers[fd].sent + Share(w, e, fd);
  }

  lemma ShareMeaning(w: World, e: Event, row: D.Row, fd: Fd)
    requires e.Ask? && e.fd in w.peers && fd in w.peers && Aired(w, e) + Whispered(w, e) == [row]
    ensures var more, name := Share(w, e, fd), w.peers[fd].username;
      && (more != [] <==> name != "" && (Aired(w, e) != [] || name == row.to || fd == e.fd))
      && (forall m <- more :: Carries(m, row))
      && (more != [] ==>
            (D.Matches(row, name, Conversation(row, name)) <==>
              row.from != D.ROOM || name == row.from || row.to == D.ROOM))
  {
    hide Names;
    assert if Aired(w, e) != [] then Aired(w, e) == [row] else Whispered(w, e) == [row];
    assert row.from == w.peers[e.fd].username != "" && row.to != "";
  }

  /** What is stored is what is delivered: of an accepted broadcast everybody authenticated,
      of an accepted private message its sender and the holder of the name, are sent the very
      row that is stored and nothing else, and nobody else is sent anything.  Whoever is sent
      it finds it in the history of that conversation, unless it came from somebody called
      like the room: asking for that conversation is asking for the room. */
  lemma StoredIsDelivered(sha: Digest, w: World, e: Event, row: D.Row, fd: Fd)
    requires Enabled(sha, w, e) && fd in w.peers && Aired(w, e) + Whispered(w, e) == [row]
    ensures var after, name := Step(sha, w, e), w.peers[fd].username;
      && after.rows == w.rows + [row]
      && fd in after.peers && w.peers[fd].sent <= after.peers[fd].sent
      && var more := after.peers[fd].sent[|w.peers[fd].sent|..];
         && (more != [] <==> name != "" && (Aired(w, e) != [] || name == row.to || fd == e.fd))
         && (forall m <- more :: Carries(m, row))
         && (more != [] ==>
               (D.Matches(row, name, Conversation(row, name)) <==>
                 row.from != D.ROOM || name == row.from || row.to == D.ROOM))
  {
    StepStores(sha, w, e);
    AcceptedShares(sha, w, e, fd);
    ShareMeaning(w, e, row, fd);
    hide Step, Aired, Whispered, Share, Enabled, Carries, Conversation, D.Matches;
    var sent, more := w.peers[fd].sent, Share(w, e, fd);
    assert (sent + more)[|sent|..] == more;
  }

  /** Everything accepted in a run, broadcast or private, in order. */
  ghost function SaidIn(sha: Digest, w: World, es: seq<Event>): seq<D.Row> {
    if es == [] then []
    else
      var n := |es| - 1;
      var before := Run(sha, w, es[..n]);
      SaidIn(sha, w, es[..n])
        + (if before.Some? && Enabled(sha, before.value, es[n])
           then Aired(before.value, es[n]) + Whispered(before.value, es[n]) else [])
  }

  /** What is stored is what was accepted: nothing is lost, changed, reordered or made up. */
  lemma {:induction false} EverythingSaidIsKept(sha: Digest, w: World, es: seq<Event>)
    requires Run(sha, w, es).Some?
    ensures Run(sha, w, es).value.rows == w.rows + SaidIn(sha, w, es)
    decreases |es|
  {
    hide Step, Asks, Answers, Aired, Whispered;
    if es != [] {
      var n := |es| - 1;
      EverythingSaidIsKept(sha, w, es[..n]);
      StepStores(sha, Run(sha, w, es[..n]).value, es[n]);
    }
  }

  function RoomRows(rows: seq<D.Row>): seq<D.Row> {
    if rows == [] then []
    else
      var front := RoomRows(rows[..|rows| - 1]);
      if rows[|rows| - 1].to == D.ROOM then front + [rows[|rows| - 1]] else front
  }

  /** Accepted BROADCASTs of a run, in order. */
  ghost function AiredIn(sha: Digest, w: World, es: seq<Event>): seq<D.Row> {
    if es == [] then []
    else
      var n := |es| - 1;
      var before := Run(sha, w, es[..n]);
      AiredIn(sha, w, es[..n])
        + (if before.Some? && Enabled(sha, before.value, es[n]) then Aired(before.value, es[n]) else [])
  }

  /** Accepted PRIVATEs of a run whose target is called like the room. */
  ghost function ToRoom(sha: Digest, w: World, es: seq<Event>): nat {
    if es == [] then 0
    else
      var n := |es| - 1;
      var before := Run(sha, w, es[..n]);
      ToRoom(sha, w, es[..n])
        + (if before.Some? && Enabled(sha, before.value, es[n]) then |RoomRows(Whispered(before.value, es[n]))| else 0)
  }

  lemma RoomSnoc(rows: seq<D.Row>, more: seq<D.Row>)
    requires |more| <= 1
    ensures RoomRows(rows + more) == RoomRows(rows) + RoomRows(more)
  {
    if more == [] {
      assert rows + more == rows;
    } else {
      assert (rows + more)[..|rows + more| - 1] == rows;
      assert RoomRows(more[..0]) == [];
    }
  }

  lemma AiredIsRoom(w: World, e: Event)
    requires e.Ask? ==> e.fd in w.peers
    ensures RoomRows(Aired(w, e)) == Aired(w, e)
  {
    assert Aired(w, e) != [] ==> RoomRows(Aired(w, e)[..0]) == [];
  }

  lemma {:induction false} RoomGrows(sha: Digest, w: World, es: seq<Event>)
    requires Run(sha, w, es).Some?
    ensures var rows := Run(sha, w, es).value.rows;
      && |RoomRows(rows)| == |RoomRows(w.rows)| + |AiredIn(sha, w, es)| + ToRoom(sha, w, es)
      && (ToRoom(sha, w, es) == 0 ==> RoomRows(rows) == RoomRows(w.rows) + AiredIn(sha, w, es))
    decreases |es|
  {
    hide Step, Asks, Answers, Aired, Whispered, RoomRows;
    if es != [] {
      var n := |es| - 1;
      var before := Run(sha, w, es[..n]).value;
      RoomGrows(sha, w, es[..n]);
      StepStores(sha, before, es[n]);
      RoomSnoc(before.rows, Aired(before, es[n]));
      RoomSnoc(before.rows + Aired(before, es[n]), Whispered(before, es[n]));
      AiredIsRoom(before, es[n]);
    }
  }

  /** The room's rows are exactly the accepted broadcasts, in order, if and only if no private
      message to somebody called like the room was accepted. */
  lemma RoomIsTheBroadcasts(sha: Digest, users: map<string, string>, es: seq<Event>)
    requires Run(sha, Start(users, []), es).Some?
    ensures RoomRows(Run(sha, Start(users, []), es).value.rows) == AiredIn(sha, Start(users, []), es)
      <==> ToRoom(sha, Start(users, []), es) == 0
  {
    RoomGrows(sha, Start(users, []), es);
  }

  /** A step never forgets a user, and leaves no reservation behind. */
  lemma StepUsers(sha: Digest, w: World, e: Event)
    requires Enabled(sha, w, e)
    ensures forall name :: name in w.users ==>
      name in Step(sha, w, e).users && Step(sha, w, e).users[name] == w.users[name]
    ensures Step(sha, w, e).busy == w.busy
  {
    hide Names, Tell, Cast, Whisper, Enter, Leave;
  }

  lemma {:induction false} RunUsers(sha: Digest, w: World, es: seq<Event>)
    requires Run(sha, w, es).Some?
    ensures forall name :: name in w.users ==>
      name in Run(sha, w, es).value.users && Run(sha, w, es).value.users[name] == w.users[name]
    ensures Run(sha, w, es).value.busy == w.busy
    decreases |es|
  {
    hide Step, Enabled;
    if es != [] {
      var n := |es| - 1;
      RunUsers(sha, w, es[..n]);
      StepUsers(sha, Run(sha, w, es[..n]).value, es[n]);
    }
  }

  lemma {:induction false} NobodyIsTheRoom(sha: Digest, users: map<string, string>, es: seq<Event>)
    requires Run(sha, Start(users, []), es).Some? && D.ROOM !in Run(sha, Start(users, []), es).value.users
    ensures ToRoom(sha, Start(users, []), es) == 0
    decreases |es|
  {
    if es != [] {
      var start := Start(users, []);
      var n := |es| - 1;
      var before := Run(sha, start, es[..n]).value;
      StepUsers(sha, before, es[n]);
      StartSane(users, []);
      RunSane(sha, start, es[..n]);
      NobodyIsTheRoom(sha, users, es[..n]);
      hide Step, Unique, Answers, Asks, Names;
      assert Whispered(before, es[n]) != [] ==> Whispered(before, es[n])[0].to != D.ROOM;
    }
  }

  /** As long as nobody registers under the name of the room, its rows are exactly the accepted
      broadcasts, in order. */
  lemma RoomIsTheBroadcastsUnlessNamed(sha: Digest, users: map<string, string>, es: seq<Event>)
    requires Run(sha, Start(users, []), es).Some? && D.ROOM !in Run(sha, Start(users, []), es).value.users
    ensures RoomRows(Run(sha, Start(users, []), es).value.rows) == AiredIn(sha, Start(users, []), es)
  {
    NobodyIsTheRoom(sha, users, es);
    RoomIsTheBroadcasts(sha, users, es);
  }

  lemma RunSnoc(sha: Digest, w: World, es: seq<Event>, e: Event)
    requires Run(sha, w, es).Some? && Enabled(sha, Run(sha, w, es).value, e)
    ensures Run(sha, w, es + [e]) == Some(Step(sha, Run(sha, w, es).value, e))
    ensures ToRoom(sha, w, es + [e]) == ToRoom(sha, w, es) + |RoomRows(Whispered(Run(sha, w, es).value, e))|
  {
    assert (es + [e])[..|es + [e]| - 1] == es;
  }

  /** Anybody may register under the name of the room. */
  lemma RoomRegisters(sha: Digest, w: World, env: Env)
    requires Holds(w.peers, 1, "") && w.users == map[] && w.rows == [] && w.busy == {}
    requires IsSalt(env.salt) && env.history == []
    ensures var e := Ask(1, Request("REGISTER", D.ROOM, None, "pw"), env);
      Enabled(sha, w, e) && Step(sha, w, e).rows == [] && Holds(Step(sha, w, e).peers, 1, D.ROOM)
  {
    assert D.NewestWindow([], 20, []);
    hide Names;
  }

  lemma TheRoomRegisters(sha: Digest, env: Env) returns (es: seq<Event>)
    requires IsSalt(env.salt) && env.history == []
    ensures var z := Run(sha, Start(map[], []), es);
      z.Some? && z.value.rows == [] && Holds(z.value.peers, 1, D.ROOM)
  {
    var start := Start(map[], []);
    RunSnoc(sha, start, [], Connect(1, ""));
    es := [] + [Connect(1, "")];
    var w := Run(sha, start, es).value;
    RoomRegisters(sha, w, env);
    hide Run, Step, Enabled;
    RunSnoc(sha, start, es, Ask(1, Request("REGISTER", D.ROOM, None, "pw"), env));
    es := es + [Ask(1, Request("REGISTER", D.ROOM, None, "pw"), env)];
  }

  ghost predicate Astray(sha: Digest, es: seq<Event>) {
    var z := Run(sha, Start(map[], []), es);
    z.Some? && RoomRows(z.value.rows) != AiredIn(sha, Start(map[], []), es)
  }

  lemma WhisperToTheRoom(sha: Digest, w: World, env: Env)
    requires Holds(w.peers, 1, D.ROOM) && IsSalt(env.salt)
    ensures var e := Ask(1, Request("PRIVATE", "", Some(D.ROOM), "hi"), env);
      Enabled(sha, w, e) && |RoomRows(Whispered(w, e))| == 1
  {
    hide D.NewestWindow, D.Select;
    var row := D.Row(D.ROOM, D.ROOM, "hi", env.now);
    assert RoomRows([row][..0]) == [];
  }

  /** Somebody registers under the name of the room and writes to himself: his private message
      is a room row that nobody broadcast. */
  lemma APrivateMessageInTheRoom(sha: Digest, env: Env)
    requires IsSalt(env.salt) && env.history == []
    ensures exists es :: Astray(sha, es)
  {
    hide Run, ToRoom, AiredIn, RoomRows, Step, Enabled;
    var es := TheRoomRegisters(sha, env);
    var w := Run(sha, Start(map[], []), es).value;
    var whisper := Ask(1, Request("PRIVATE", "", Some(D.ROOM), "hi"), env);
    WhisperToTheRoom(sha, w, env);
    RunSnoc(sha, Start(map[], []), es, whisper);
    RoomIsTheBroadcasts(sha, map[], es + [whisper]);
    assert Astray(sha, es + [whisper]);
  }

  ghost predicate Signed(w: World) {
    forall r <- w.rows :: r.from in w.users
  }

  /** Every stored message is from a registered user. */
  lemma {:induction false} SendersAreRegistered(sha: Digest, users: map<string, string>, es: seq<Event>)
    requires Run(sha, Start(users, []), es).Some?
    ensures Signed(Run(sha, Start(users, []), es).value)
    decreases |es|
  {
    if es != [] {
      var start := Start(users, []);
      var n := |es| - 1;
      var before := Run(sha, start, es[..n]).value;
      StepUsers(sha, before, es[n]);
      StepStores(sha, before, es[n]);
      StartSane(users, []);
      RunSane(sha, start, es[..n]);
      SendersAreRegistered(sha, users, es[..n]);
      hide Step, Run, Unique, Answers, Asks, PrivateVerdict;
      assert es[n].Ask? ==> Holds(before.peers, es[n].fd, before.peers[es[n].fd].username);
    }
  }

  function ItemOf(r: D.Row): D.Item {
    D.Item(r.from, r.content, r.timestamp)
  }

  /** What a query of the room selects is the room's rows, whoever asks. */
  lemma {:induction false} RoomSelects(rows: seq<D.Row>, requestor: string)
    ensures var room := RoomRows(rows);
      D.Select(rows, requestor, D.ROOM) == seq(|room|, i requires 0 <= i < |room| => ItemOf(room[i]))
    decreases |rows|
  {
    if rows != [] {
      RoomSelects(rows[..|rows| - 1], requestor);
    }
  }

  // ---------------------------------------------------------------- credentials

  lemma HashedIsNotEmpty(sha: Digest, salt: string, password: string)
    ensures HashPassword(sha, salt, password) != ""
  {
  }

  /** Who has registered can log in from any later state, with the same password or one that
      collides with it, unless the name is in use or the address limited. */
  lemma RegisteredMayLogin(sha: Digest, w: World, fd: Fd, r: Request, env: Env, es: seq<Event>, ip: string,
                           again: Request, at: R.Time)
    requires IsDigest(sha) && Enabled(sha, w, Ask(fd, r, env))
    requires w.peers[fd].username == "" && r.kind == "REGISTER" && RegisterVerdict(w, r).Granted?
    requires Run(sha, Step(sha, w, Ask(fd, r, env)), es).Some?
    requires again.from == r.from && L.Acceptable(again.from, again.content)
    ensures var z := Run(sha, Step(sha, w, Ask(fd, r, env)), es).value;
      LoginVerdict(sha, z, ip, again, at) ==
        if Limited(z, ip, at) then Refused(RATE_LIMITED)
        else if again.from in w.busy || again.from in Names(z.peers) then Refused(ALREADY_LOGGED_IN)
        else if sha(env.salt + ":" + again.content) == sha(env.salt + ":" + r.content) then Granted
        else Refused(WRONG_PASSWORD)
  {
    var after := Step(sha, w, Ask(fd, r, env));
    assert after.users[r.from] == HashPassword(sha, env.salt, r.content);
    hide Step, Run, Names, Enter, HashPassword, VerifyPassword, Limited;
    RunUsers(sha, after, es);
    VerifyHashed(sha, env.salt, r.content, again.content);
    HashedIsNotEmpty(sha, env.salt, r.content);
  }

  // ---------------------------------------------------------------- the limiter

  ghost predicate Lenient(failures: R.Logs) {
    forall ip :: |R.LogOf(failures, ip)| <= 1
  }

  /** Whether the clock of an event has left its epoch. */
  predicate Ticking(e: Event) {
    e.Ask? ==> e.env.checkedAt > 0
  }

  lemma ShortLog(log: seq<R.Time>, at: R.Time)
    requires |log| <= 1
    ensures !R.Limited(log, at) && (at > 0 ==> R.Checked(log, at) == [])
  {
    assert R.InWindow(log) <= 1;
    assert R.BlockEnd(log) == 0;
  }

  lemma FailuresLenient(failures: R.Logs, ip: string, verdict: Verdict, env: Env)
    requires Lenient(failures) && env.checkedAt > 0
    ensures Lenient(FailuresAfter(failures, ip, verdict, env))
  {
    ShortLog(R.LogOf(failures, ip), env.checkedAt);
    hide R.Limited, R.Checked;
    var after := FailuresAfter(failures, ip, verdict, env);
    forall other ensures |R.LogOf(after, other)| <= 1 {
      assert other != ip ==> R.LogOf(after, other) == R.LogOf(failures, other);
    }
  }

  lemma StepLenient(sha: Digest, w: World, e: Event)
    requires Enabled(sha, w, e) && Lenient(w.failures) && Ticking(e)
    ensures Lenient(Step(sha, w, e).failures)
  {
    hide Names, Tell, Cast, Whisper, Enter, Leave, Asks, Answers, Lenient, FailuresAfter, LoginVerdict;
    if e.Ask? {
      var ip := w.peers[e.fd].ip;
      FailuresLenient(w.failures, ip, LoginVerdict(sha, w, ip, e.request, e.env.checkedAt), e.env);
    }
  }

  /** Events handled one at a time never see RATE_LIMITED, however many logins fail: the
      limiter only ever blocks an address whose attempts overlap. */
  lemma {:induction false} NobodyIsLimited(sha: Digest, users: map<string, string>, rows: seq<D.Row>, es: seq<Event>,
                                           ip: string, r: Request, at: R.Time)
    requires Run(sha, Start(users, rows), es).Some? && forall e <- es :: Ticking(e)
    ensures var w := Run(sha, Start(users, rows), es).value;
      Lenient(w.failures) && LoginVerdict(sha, w, ip, r, at) != Refused(RATE_LIMITED)
    decreases |es|
  {
    var w := Run(sha, Start(users, rows), es).value;
    if es != [] {
      var n := |es| - 1;
      NobodyIsLimited(sha, users, rows, es[..n], ip, r, at);
      StepLenient(sha, Run(sha, Start(users, rows), es[..n]).value, es[n]);
    }
    ShortLog(R.LogOf(w.failures, ip), at);
    hide Run, Step, Names, Enabled, R.Limited;
  }
}
