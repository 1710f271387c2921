/**
  The per-address login limiter (server/src/message_router.cpp:163-205).

  The code keeps a counter, the start of a window and the end of a block.  Here they are
  tied to the history they stand for: the times of the failures recorded since the entry
  was created.  Times are nanoseconds of a steady clock whose epoch is 0; a default
  time_point is the epoch.
*/
module RateLimiter {
  type Time = nat

  const SECOND: nat := 1_000_000_000
  const WINDOW: nat := 60 * SECOND
  const BLOCK_DURATION: nat := 300 * SECOND
  const MAX_LOGIN_ATTEMPTS: nat := 5

  datatype LoginAttempt = LoginAttempt(count: nat, firstAttempt: Time, blockedUntil: Time)

  // ---------------------------------------------------------------- meaning

  /** Where the current window of failures starts: a failure more than a minute after the
      start of the window opens a new one. */
  function WindowStart(log: seq<Time>): (i: nat)
    requires log != []
    ensures i < |log|
    ensures forall j :: i <= j < |log| ==> log[j] - log[i] <= WINDOW
  {
    var n := |log| - 1;
    if n == 0 then 0
    else
      var i := WindowStart(log[..n]);
      if log[n] - log[i] > WINDOW then n
      else
        assert forall j :: i <= j < n ==> log[..n][j] == log[j];
        i
  }

  function InWindow(log: seq<Time>): nat {
    if log == [] then 0 else |log| - WindowStart(log)
  }

  /** When the last block ends, the epoch if there was none. */
  function BlockEnd(log: seq<Time>): Time {
    if log == [] then 0
    else if InWindow(log) >= MAX_LOGIN_ATTEMPTS then log[|log| - 1] + BLOCK_DURATION
    else BlockEnd(log[..|log| - 1])
  }

  /** The entry the code keeps for a history. */
  function EntryOf(log: seq<Time>): LoginAttempt
    requires log != []
  {
    LoginAttempt(InWindow(log), log[WindowStart(log)], BlockEnd(log))
  }

  /** What is_rate_limited answers. */
  predicate Limited(log: seq<Time>, now: Time) {
    log != [] && now <= BlockEnd(log) && InWindow(log) >= MAX_LOGIN_ATTEMPTS
  }

  /** What is_rate_limited leaves of the history. */
  function Checked(log: seq<Time>, now: Time): seq<Time> {
    if log != [] && now > BlockEnd(log) then [] else log
  }

  function LogOf(logs: Logs, ip: string): seq<Time> {
    if ip in logs then logs[ip] else []
  }

  function WithLog(logs: Logs, ip: string, log: seq<Time>): Logs {
    if log == [] then logs - {ip} else logs[ip := log]
  }

  lemma WithLogTwice(logs: Logs, ip: string, log: seq<Time>, next: seq<Time>)
    ensures LogOf(WithLog(logs, ip, log), ip) == log
    ensures WithLog(WithLog(logs, ip, log), ip, next) == WithLog(logs, ip, next)
  {
  }

  /** The entry after one more failure, computed from the entry before. */
  lemma EntryAfter(log: seq<Time>, now: Time)
    ensures var e := if log == [] then LoginAttempt(0, 0, 0) else EntryOf(log);
      var restart := e.count == 0 || now - e.firstAttempt > WINDOW;
      var count := if restart then 1 else e.count + 1;
      EntryOf(log + [now]) ==
        LoginAttempt(count, if restart then now else e.firstAttempt,
                     if count >= MAX_LOGIN_ATTEMPTS then now + BLOCK_DURATION else e.blockedUntil)
  {
    var more := log + [now];
    assert more[..|more| - 1] == log;
    if log == [] {
      assert WindowStart(more) == 0 && InWindow(more) == 1;
      assert BlockEnd(more) == BlockEnd(log);
    } else {
      assert more[WindowStart(log)] == log[WindowStart(log)];
      assert WindowStart(more) == if now - log[WindowStart(log)] > WINDOW then |log| else WindowStart(log);
    }
  }

  // ---------------------------------------------------------------- the code

  /** The failures recorded for each address since its entry was created; an address without
      an entry has none. */
  type Logs = map<string, seq<Time>>

  class RateLimiter {
    var loginAttempts: map<string, LoginAttempt>
    ghost var logs: Logs

    ghost predicate Valid()
      reads this
    {
      && loginAttempts.Keys == logs.Keys
      && forall ip :: ip in logs ==> logs[ip] != [] && loginAttempts[ip] == EntryOf(logs[ip])
    }

    constructor ()
      ensures Valid() && logs == map[]
    {
      loginAttempts, logs := map[], map[];
    }

    method IsRateLimited(ip: string, now: Time) returns (limited: bool)
      requires Valid()
      modifies this
      ensures Valid()
      ensures limited == Limited(LogOf(old(logs), ip), now)
      ensures logs == WithLog(old(logs), ip, Checked(LogOf(old(logs), ip), now))
    {
      if ip !in loginAttempts {
        return false;
      }
      if now > loginAttempts[ip].blockedUntil {
        loginAttempts, logs := loginAttempts - {ip}, logs - {ip};
        return false;
      }
      limited := loginAttempts[ip].count >= MAX_LOGIN_ATTEMPTS;
    }

    method RecordFailedLogin(ip: string, now: Time)
      requires Valid()
      modifies this
      ensures Valid()
      ensures logs == WithLog(old(logs), ip, LogOf(old(logs), ip) + [now])
    {
      hide EntryOf, WindowStart, InWindow, BlockEnd;
      ghost var log := LogOf(logs, ip) + [now];
      EntryAfter(LogOf(logs, ip), now);
      var attempt := if ip in loginAttempts then loginAttempts[ip] else LoginAttempt(0, 0, 0);
      if attempt.count > 0 && now - attempt.firstAttempt > WINDOW {
        attempt := attempt.(count := 0);
      }
      if attempt.count == 0 {
        attempt := attempt.(firstAttempt := now);
      }
      attempt := attempt.(count := attempt.count + 1);
      if attempt.count >= MAX_LOGIN_ATTEMPTS {
        attempt := attempt.(blockedUntil := now + BLOCK_DURATION);
      }
      loginAttempts, logs := loginAttempts[ip := attempt], logs[ip := log];
    }

    method ClearLoginAttempts(ip: string)
      requires Valid()
      modifies this
      ensures Valid()
      ensures logs == WithLog(old(logs), ip, [])
    {
      loginAttempts, logs := loginAttempts - {ip}, logs - {ip};
    }
  }

  // ---------------------------------------------------------------- when an address is blocked

  /** A block is the one that the last failure of a full window began; so every block ends. */
  lemma LogLimited(log: seq<Time>, now: Time)
    ensures Limited(log, now) <==>
      InWindow(log) >= MAX_LOGIN_ATTEMPTS && now <= log[|log| - 1] + BLOCK_DURATION
  {
  }

  ghost predicate Monotone(log: seq<Time>) {
    forall i, j :: 0 <= i <= j < |log| ==> log[i] <= log[j]
  }

  /** The failures from the `i`th on: at least five, within one minute of each other. */
  ghost predicate Burst(log: seq<Time>, i: nat) {
    && i + MAX_LOGIN_ATTEMPTS <= |log|
    && forall j, k :: i <= j <= k < |log| ==> 0 <= log[k] - log[j] <= WINDOW
  }

  /** Under a monotone clock a true answer means the history ends in a burst. */
  lemma LimitedEndsInBurst(log: seq<Time>, now: Time)
    requires Limited(log, now) && Monotone(log)
    ensures exists i: nat :: Burst(log, i)
  {
    var i := WindowStart(log);
    assert forall j, k :: i <= j <= k < |log| ==> log[i] <= log[j] <= log[k];
    assert Burst(log, i);
  }

  /** A failure recorded while the address is blocked (by a LOGIN that was checked before)
      prolongs the block if it is within a minute of the start of the window, and otherwise
      ends it at once: the count starts again at one. */
  lemma RecordedWhileBlocked(log: seq<Time>, at: Time, now: Time)
    requires Limited(log, at) && at <= now
    ensures Limited(log + [at], now) <==> at - log[WindowStart(log)] <= WINDOW && now <= at + BLOCK_DURATION
  {
    var more := log + [at];
    assert more[..|more| - 1] == log;
    assert more[WindowStart(log)] == log[WindowStart(log)];
    LogLimited(more, now);
  }

  // ---------------------------------------------------------------- any sequence of calls

  /** One address's share of a run: each operation reads the clock once. */
  datatype Op = Record(at: Time) | Check(at: Time) | Clear

  function After(log: seq<Time>, op: Op): seq<Time> {
    match op
    case Record(t) => log + [t]
    case Check(t) => Checked(log, t)
    case Clear => []
  }

  function Replay(ops: seq<Op>): seq<Time> {
    if ops == [] then [] else After(Replay(ops[..|ops| - 1]), ops[|ops| - 1])
  }

  /** The clock does not run backwards, has left its epoch, and shows `now` at the end. */
  ghost predicate Timely(ops: seq<Op>, now: Time) {
    && (forall i :: 0 <= i < |ops| && !ops[i].Clear? ==> 0 < ops[i].at <= now)
    && forall i, j :: 0 <= i <= j < |ops| && !ops[i].Clear? && !ops[j].Clear? ==> ops[i].at <= ops[j].at
  }

  /** The times of the failures recorded in a stretch of operations. */
  function Recorded(ops: seq<Op>): seq<Time> {
    if ops == [] then []
    else
      var n := |ops| - 1;
      Recorded(ops[..n]) + (if ops[n].Record? then [ops[n].at] else [])
  }

  /** The entry is erased by a successful LOGIN, or by a check that finds no block. */
  ghost predicate Erasing(ops: seq<Op>, i: nat)
    requires i < |ops|
  {
    ops[i].Clear? || (ops[i].Check? && ops[i].at > BlockEnd(Replay(ops[..i])))
  }

  lemma ErasedOrNot(log: seq<Time>, op: Op)
    ensures After(log, op) ==
      if op.Clear? || (op.Check? && op.at > BlockEnd(log)) then [] else log + if op.Record? then [op.at] else []
  {
  }

  lemma RecordedTail(ops: seq<Op>, i: nat)
    requires i < |ops|
    ensures var n := |ops| - 1;
      Recorded(ops[i..]) == Recorded(ops[..n][i..]) + if ops[n].Record? then [ops[n].at] else []
  {
    var tail := ops[i..];
    assert tail[..|tail| - 1] == ops[..|ops| - 1][i..];
  }

  /** Nothing has erased the entry since `cut`, where it was erased or did not exist yet. */
  ghost predicate Since(ops: seq<Op>, cut: nat) {
    && cut <= |ops|
    && (forall i :: cut <= i < |ops| ==> !Erasing(ops, i))
    && (cut > 0 ==> Erasing(ops, cut - 1))
  }

  lemma SinceSnoc(ops: seq<Op>, cut: nat)
    requires ops != [] && Since(ops[..|ops| - 1], cut) && !Erasing(ops, |ops| - 1)
    ensures Since(ops, cut)
  {
    var n := |ops| - 1;
    forall i | 0 <= i < n ensures Erasing(ops[..n], i) <==> Erasing(ops, i) {
      assert ops[..n][..i] == ops[..i];
    }
    hide Erasing;
  }

  /** The history is what was recorded since the last operation that erased the entry. */
  lemma {:induction false} HistorySince(ops: seq<Op>) returns (cut: nat)
    ensures Since(ops, cut) && Replay(ops) == Recorded(ops[cut..])
    decreases |ops|
  {
    cut := 0;
    if ops != [] {
      var n := |ops| - 1;
      ErasedOrNot(Replay(ops[..n]), ops[n]);
      if Erasing(ops, n) {
        cut := |ops|;
      } else {
        cut := HistorySince(ops[..n]);
        SinceSnoc(ops, cut);
        RecordedTail(ops, cut);
        hide Since, After, BlockEnd, Recorded, Erasing;
      }
    }
  }

  /** Since the entry was last erased five failures of one window were recorded, the last one
      at most 300 seconds ago. */
  ghost predicate BlockedSince(ops: seq<Op>, cut: nat, now: Time) {
    && Since(ops, cut)
    && var log := Recorded(ops[cut..]);
       InWindow(log) >= MAX_LOGIN_ATTEMPTS && now <= log[|log| - 1] + BLOCK_DURATION
  }

  lemma NoLaterCut(ops: seq<Op>, a: nat, b: nat)
    requires Since(ops, a) && a < b <= |ops|
    ensures !Erasing(ops, b - 1)
  {
    hide Erasing;
  }

  lemma OneCut(ops: seq<Op>, a: nat, b: nat)
    requires Since(ops, a) && Since(ops, b)
    ensures a == b
  {
    hide Erasing;
    if a < b {
      NoLaterCut(ops, a, b);
    } else if b < a {
      NoLaterCut(ops, b, a);
    }
  }

  /** Exactly when is_rate_limited answers true, in terms of the calls made. */
  lemma LimitedExactly(ops: seq<Op>, now: Time)
    ensures Limited(Replay(ops), now) <==> exists cut: nat :: BlockedSince(ops, cut, now)
  {
    var cut := HistorySince(ops);
    LogLimited(Replay(ops), now);
    hide Replay, Erasing, InWindow, Limited;
    assert Limited(Replay(ops), now) <==> BlockedSince(ops, cut, now);
    forall other: nat | Since(ops, other) ensures other == cut {
      OneCut(ops, cut, other);
    }
  }

  lemma TimelyFront(ops: seq<Op>, n: nat, now: Time)
    requires Timely(ops, now) && n <= |ops|
    ensures Timely(ops[..n], now) && Timely(ops[n..], now)
  {
  }

  lemma {:induction false} RecordedBefore(ops: seq<Op>, now: Time)
    requires forall i :: 0 <= i < |ops| && ops[i].Record? ==> ops[i].at <= now
    ensures forall t <- Recorded(ops) :: t <= now
    decreases |ops|
  {
    if ops != [] {
      RecordedBefore(ops[..|ops| - 1], now);
    }
  }

  /** The clock of the calls is the clock of the history. */
  lemma {:induction false} RecordedMonotone(ops: seq<Op>, now: Time)
    requires Timely(ops, now)
    ensures Monotone(Recorded(ops))
    decreases |ops|
  {
    if ops != [] {
      var n := |ops| - 1;
      TimelyFront(ops, n, now);
      RecordedMonotone(ops[..n], now);
      if ops[n].Record? {
        RecordedBefore(ops[..n], ops[n].at);
        assert forall i :: 0 <= i < |Recorded(ops[..n])| ==> Recorded(ops[..n])[i] in Recorded(ops[..n]);
      }
    }
  }

  /** Nothing has erased the entry since `cut`; what was recorded since then ends in a burst
      whose last failure is at most 300 seconds old. */
  ghost predicate Deserved(ops: seq<Op>, cut: nat, now: Time) {
    && Since(ops, cut)
    && var log := Recorded(ops[cut..]);
       log != [] && now - log[|log| - 1] <= BLOCK_DURATION && exists i: nat :: Burst(log, i)
  }

  /** Soundness over every sequence of record, check and clear calls under a clock that does not
      run backwards: a true answer means at least five failures were recorded within a minute
      since the entry was created or erased, the last of them at most 300 seconds ago. */
  lemma LimitedIsDeserved(ops: seq<Op>, now: Time)
    requires Timely(ops, now) && Limited(Replay(ops), now)
    ensures exists cut: nat :: Deserved(ops, cut, now)
  {
    var cut := HistorySince(ops);
    TimelyFront(ops, cut, now);
    RecordedMonotone(ops[cut..], now);
    LimitedEndsInBurst(Recorded(ops[cut..]), now);
    assert Deserved(ops, cut, now);
  }

  // ---------------------------------------------------------------- what blocks an address

  /** The entry is blocked from its last failure on. */
  predicate Blocked(log: seq<Time>) {
    InWindow(log) >= MAX_LOGIN_ATTEMPTS
  }

  ghost predicate EverBlocked(ops: seq<Op>) {
    exists n: nat :: n <= |ops| && Blocked(Replay(ops[..n]))
  }

  /** Failures recorded one after the other, from the first after a check, a success or the
      beginning, with no call between them, the last five or more in one window. */
  ghost predicate Streak(ops: seq<Op>, i: nat, j: nat) {
    && i <= j <= |ops| && (i == 0 || !ops[i - 1].Record?)
    && (forall k :: i <= k < j ==> ops[k].Record?)
    && Blocked(Recorded(ops[i..j]))
  }

  /** Where the last stretch of records begins. */
  function LastStretch(ops: seq<Op>): (i: nat)
    ensures i <= |ops| && (i == 0 || !ops[i - 1].Record?)
    ensures forall k :: i <= k < |ops| ==> ops[k].Record?
  {
    if ops == [] then 0
    else if ops[|ops| - 1].Record? then
      var i := LastStretch(ops[..|ops| - 1]);
      assert forall k :: i <= k < |ops| - 1 ==> ops[..|ops| - 1][k] == ops[k];
      i
    else |ops|
  }

  lemma EverBlockedBefore(ops: seq<Op>, n: nat)
    requires n <= |ops| && EverBlocked(ops[..n])
    ensures EverBlocked(ops)
  {
    var m: nat :| m <= n && Blocked(Replay(ops[..n][..m]));
    assert ops[..n][..m] == ops[..m];
  }

  lemma NotBlocked(ops: seq<Op>)
    requires !EverBlocked(ops)
    ensures !Blocked(Replay(ops))
  {
    hide Blocked, Replay;
    assert ops[..|ops|] == ops;
  }

  lemma BlockEndSnoc(log: seq<Time>, t: Time)
    requires !Blocked(log + [t])
    ensures BlockEnd(log + [t]) == BlockEnd(log)
  {
    assert (log + [t])[..|log|] == log;
  }

  lemma UnblockedCall(ops: seq<Op>)
    requires ops != [] && !EverBlocked(ops) && (ops[|ops| - 1].Check? ==> ops[|ops| - 1].at > 0)
    requires BlockEnd(Replay(ops[..|ops| - 1])) == 0
    requires var front := ops[..|ops| - 1]; Replay(front) == Recorded(front[LastStretch(front)..])
    ensures BlockEnd(Replay(ops)) == 0 && Replay(ops) == Recorded(ops[LastStretch(ops)..])
  {
    var n := |ops| - 1;
    var i := LastStretch(ops[..n]);
    assert Replay(ops) == After(Replay(ops[..n]), ops[n]);
    ErasedOrNot(Replay(ops[..n]), ops[n]);
    NotBlocked(ops);
    hide EverBlocked, Replay, After;
    if ops[n].Record? {
      RecordedTail(ops, i);
      BlockEndSnoc(Replay(ops[..n]), ops[n].at);
    }
  }

  /** As long as an address has not been blocked, every check erases its entry, so that only
      the last stretch of records is left. */
  lemma {:induction false} Unblocked(ops: seq<Op>, now: Time)
    requires Timely(ops, now) && !EverBlocked(ops)
    ensures BlockEnd(Replay(ops)) == 0 && Replay(ops) == Recorded(ops[LastStretch(ops)..])
    decreases |ops|
  {
    if ops != [] {
      var n := |ops| - 1;
      if EverBlocked(ops[..n]) {
        EverBlockedBefore(ops, n);
      } else {
        TimelyFront(ops, n, now);
        Unblocked(ops[..n], now);
        UnblockedCall(ops);
      }
    }
  }

  /** Records alone add their times. */
  lemma {:induction false} ReplayRecorded(ops: seq<Op>, i: nat)
    requires i <= |ops| && forall k :: i <= k < |ops| ==> ops[k].Record?
    ensures Replay(ops) == Replay(ops[..i]) + Recorded(ops[i..])
    decreases |ops| - i
  {
    if i == |ops| {
      assert ops[..i] == ops;
    } else {
      var n := |ops| - 1;
      ReplayRecorded(ops[..n], i);
      RecordedTail(ops, i);
      assert Replay(ops) == Replay(ops[..n]) + [ops[n].at];
      hide Replay, Recorded;
      assert ops[..n][..i] == ops[..i];
    }
  }

  /** A stretch that begins with no entry is the whole history at its end. */
  lemma StretchIsHistory(ops: seq<Op>, i: nat, j: nat)
    requires i <= j <= |ops| && Replay(ops[..i]) == [] && forall k :: i <= k < j ==> ops[k].Record?
    ensures Replay(ops[..j]) == Recorded(ops[i..j])
  {
    hide Replay, Recorded;
    assert ops[..j][..i] == ops[..i] && ops[..j][i..] == ops[i..j];
    ReplayRecorded(ops[..j], i);
    assert [] + Recorded(ops[i..j]) == Recorded(ops[i..j]);
  }

  lemma BlockedAt(ops: seq<Op>, n: nat)
    requires n <= |ops| && Blocked(Replay(ops[..n]))
    ensures EverBlocked(ops)
  {
    hide Replay, Blocked;
  }

  /** Before a stretch begins an address not yet blocked has no entry. */
  lemma NoEntryBefore(ops: seq<Op>, i: nat, now: Time)
    requires i <= |ops| && (i == 0 || !ops[i - 1].Record?) && Timely(ops, now) && !EverBlocked(ops[..i])
    ensures Replay(ops[..i]) == []
  {
    TimelyFront(ops, i, now);
    Unblocked(ops[..i], now);
    hide EverBlocked, Timely;
    assert LastStretch(ops[..i]) == i;
  }

  lemma StreakBlocks(ops: seq<Op>, i: nat, j: nat, now: Time)
    requires Timely(ops, now) && Streak(ops, i, j)
    ensures EverBlocked(ops)
  {
    hide Replay, Recorded, Blocked, Timely, EverBlocked;
    if EverBlocked(ops[..i]) {
      EverBlockedBefore(ops, i);
    } else {
      NoEntryBefore(ops, i, now);
      StretchIsHistory(ops, i, j);
      BlockedAt(ops, j);
    }
  }

  lemma StreakBefore(ops: seq<Op>, i: nat, j: nat)
    requires ops != [] && Streak(ops[..|ops| - 1], i, j)
    ensures Streak(ops, i, j)
  {
    hide Blocked, Recorded;
    assert ops[..|ops| - 1][i..j] == ops[i..j];
  }

  lemma BlockedEarlier(ops: seq<Op>, m: nat)
    requires m < |ops| && Blocked(Replay(ops[..m]))
    ensures EverBlocked(ops[..|ops| - 1])
  {
    hide Replay, Blocked;
    assert ops[..|ops| - 1][..m] == ops[..m];
  }

  lemma BlockedNow(ops: seq<Op>)
    requires EverBlocked(ops) && (ops == [] || !EverBlocked(ops[..|ops| - 1]))
    ensures ops != [] && Blocked(Replay(ops))
  {
    assert ops[..|ops|] == ops;
    var m: nat :| m <= |ops| && Blocked(Replay(ops[..m]));
    if m < |ops| {
      BlockedEarlier(ops, m);
    }
    assert !Blocked([]);
    hide Replay, Blocked;
  }

  lemma StreakHere(ops: seq<Op>, i: nat)
    requires ops != [] && i == LastStretch(ops[..|ops| - 1]) && ops[|ops| - 1].Record? && Blocked(Recorded(ops[i..]))
    ensures Streak(ops, LastStretch(ops), |ops|)
  {
    hide Recorded, Blocked;
    assert LastStretch(ops) == i;
    assert ops[i..|ops|] == ops[i..];
  }

  lemma BlockingCall(log: seq<Time>, op: Op)
    requires BlockEnd(log) == 0 && (!op.Clear? ==> op.at > 0) && Blocked(After(log, op))
    ensures op.Record? && After(log, op) == log + [op.at]
  {
  }

  /** The call that blocks records a failure, and only its stretch is in the history. */
  lemma NewBlock(ops: seq<Op>, now: Time)
    requires Timely(ops, now) && ops != [] && !EverBlocked(ops[..|ops| - 1]) && Blocked(Replay(ops))
    ensures Streak(ops, LastStretch(ops), |ops|)
  {
    hide EverBlocked, Streak, LastStretch, Recorded, Blocked;
    var n := |ops| - 1;
    var log, i := Replay(ops[..n]), LastStretch(ops[..n]);
    TimelyFront(ops, n, now);
    Unblocked(ops[..n], now);
    BlockingCall(log, ops[n]);
    hide BlockEnd, Replay, After, Timely;
    assert Replay(ops) == log + [ops[n].at];
    RecordedTail(ops, i);
    assert Recorded(ops[i..]) == log + [ops[n].at];
    StreakHere(ops, i);
  }

  lemma {:induction false} BlockIsStreak(ops: seq<Op>, now: Time)
    requires Timely(ops, now) && EverBlocked(ops)
    ensures exists i: nat, j: nat :: Streak(ops, i, j)
    decreases |ops|
  {
    var n := |ops| - 1;
    if ops != [] && EverBlocked(ops[..n]) {
      TimelyFront(ops, n, now);
      BlockIsStreak(ops[..n], now);
      hide EverBlocked, Streak, Timely;
      var i: nat, j: nat :| Streak(ops[..n], i, j);
      StreakBefore(ops, i, j);
    } else {
      BlockedNow(ops);
      hide EverBlocked, Streak;
      NewBlock(ops, now);
    }
  }

  /** The exact condition, for every sequence of calls: an address gets blocked if and only if
      at some point five failures of one window were recorded with no check and no success
      between any two of that stretch.  So failures that do not overlap never block. */
  lemma {:induction false} BlockedExactly(ops: seq<Op>, now: Time)
    requires Timely(ops, now)
    ensures EverBlocked(ops) <==> exists i: nat, j: nat :: Streak(ops, i, j)
    decreases |ops|
  {
    if i: nat, j: nat :| Streak(ops, i, j) {
      StreakBlocks(ops, i, j, now);
    }
    if EverBlocked(ops) {
      BlockIsStreak(ops, now);
    }
  }

  // ---------------------------------------------------------------- through handle_login

  /** A failing handle_login for an address: the check, then, if it lets the LOGIN pass, the
      record. */
  datatype Attempt = Attempt(checkedAt: Time, failedAt: Time)

  function FailingLogin(log: seq<Time>, a: Attempt): seq<Time> {
    if Limited(log, a.checkedAt) then Checked(log, a.checkedAt) else Checked(log, a.checkedAt) + [a.failedAt]
  }

  function FailingLogins(log: seq<Time>, attempts: seq<Attempt>): seq<Time>
    decreases |attempts|
  {
    if attempts == [] then log else FailingLogins(FailingLogin(log, attempts[0]), attempts[1..])
  }

  /** The limiter does not limit failing LOGINs that come one after the other: the check
      erases an entry that was never blocked, since its block end is still the epoch, so no
      window ever holds a second failure.  However many and however fast, none is refused. */
  lemma {:induction false} OneAfterTheOtherIsNeverLimited(log: seq<Time>, attempts: seq<Attempt>, next: Attempt)
    requires |log| <= 1
    requires forall a <- attempts :: a.checkedAt > 0
    ensures |FailingLogins(log, attempts)| <= 1
    ensures !Limited(FailingLogins(log, attempts), next.checkedAt)
    decreases |attempts|
  {
    if attempts != [] {
      var a := attempts[0];
      assert a in attempts;
      assert BlockEnd(log) == 0;
      OneAfterTheOtherIsNeverLimited(FailingLogin(log, a), attempts[1..], next);
    }
  }

  function Checks(times: seq<Time>): seq<Op> {
    seq(|times|, i requires 0 <= i < |times| => Check(times[i]))
  }

  function Records(times: seq<Time>): seq<Op> {
    seq(|times|, i requires 0 <= i < |times| => Record(times[i]))
  }

  lemma {:induction false} ReplayChecks(times: seq<Time>)
    ensures Replay(Checks(times)) == []
    decreases |times|
  {
    if times != [] {
      var n := |times| - 1;
      assert Checks(times)[..n] == Checks(times[..n]);
      ReplayChecks(times[..n]);
    }
  }

  lemma {:induction false} RecordedRecords(times: seq<Time>)
    ensures Recorded(Records(times)) == times
    decreases |times|
  {
    if times != [] {
      var n := |times| - 1;
      assert Records(times)[..n] == Records(times[..n]);
      RecordedRecords(times[..n]);
    }
  }

  lemma {:induction false} OneWindow(log: seq<Time>)
    requires log != [] && forall j :: 0 <= j < |log| ==> log[j] - log[0] <= WINDOW
    ensures WindowStart(log) == 0
    decreases |log|
  {
    if |log| > 1 {
      OneWindow(log[..|log| - 1]);
    }
  }

  /** LOGINs that overlap do block the address: five or more failures within a minute, all
      recorded after all of them had been checked, and the next check within 300 s. */
  lemma OverlappingAreLimited(checks: seq<Time>, fails: seq<Time>, now: Time)
    requires |fails| >= MAX_LOGIN_ATTEMPTS
    requires forall j :: 0 <= j < |fails| ==> fails[j] - fails[0] <= WINDOW
    requires now <= fails[|fails| - 1] + BLOCK_DURATION
    ensures Limited(Replay(Checks(checks) + Records(fails)), now)
  {
    hide Replay, WindowStart, BlockEnd, Recorded;
    var ops := Checks(checks) + Records(fails);
    assert ops[..|checks|] == Checks(checks) && ops[|checks|..] == Records(fails);
    ReplayRecorded(ops, |checks|);
    ReplayChecks(checks);
    RecordedRecords(fails);
    assert [] + fails == fails;
    OneWindow(fails);
    LogLimited(fails, now);
  }
}
