/**
  Many threads sending on one session, one send() at a time.  broadcast and send_to_fd take
  the session's send_mutex_ around send_msg (server/src/epoll_server.cpp:377-380, 396-397);
  send_ok and send_error, which handlers call directly, do not (server/src/protocol.cpp:74-87).

  Two things can tear a frame, and the machine allows both: a call writes while another one
  is inside its frame, and a zero-byte send() in mid-frame makes write_all give up without
  shutting the socket down.  `disciplined` records that neither has happened; calls without
  the mutex are part of a disciplined run as long as they do not overlap another frame.
*/
module WireIntegrity {
  import opened Framing
  import opened Wrappers
  import opened Sender

  type CallId = nat

  datatype Job =
    | Waiting(body: seq<Byte>, locked: bool)
    | Sending(body: seq<Byte>, locked: bool, k: nat)
    | Returned(body: seq<Byte>, ok: bool)

  /** `log` lists the calls that returned true, in order, and `frames` their bodies; `stub`
      is the part of a frame a failed call left on the wire; `writer` is the last call to
      have written a part of its frame, until it has written or given up the rest. */
  datatype Channel = Channel(
    wire: Wire,
    lock: Option<CallId>,
    jobs: map<CallId, Job>,
    log: seq<CallId>,
    frames: seq<seq<Byte>>,
    stub: seq<Byte>,
    writer: Option<CallId>,
    disciplined: bool)

  datatype Action =
    | Call(id: CallId, body: seq<Byte>, locked: bool)
    | Begin(id: CallId)
    | Send(id: CallId, ev: SendEvent)
    | Shutdown

  const START := Channel(Wire([], true), None, map[], [], [], [], None, true)

  function BeginStep(c: Channel, id: CallId, body: seq<Byte>, locked: bool): Channel {
    if |body| > MAX_BODY_LEN then c.(jobs := c.jobs[id := Returned(body, false)])
    else c.(lock := if locked then Some(id) else c.lock, jobs := c.jobs[id := Sending(body, locked, 0)])
  }

  function SendStep(c: Channel, id: CallId, body: seq<Byte>, locked: bool, k: nat, ev: SendEvent): Channel
    requires k < 4 + |body|
  {
    var lock := if locked then None else c.lock;
    match SendTurn(c.wire, body, k, ev)
    case GaveUp(w) =>
      c.(wire := w, lock := lock, jobs := c.jobs[id := Returned(body, false)],
         stub := c.stub + Frame(body)[..k], writer := if c.writer == Some(id) then None else c.writer,
         disciplined := c.disciplined && !(w.open && k > 0))
    case Going(w, k') =>
      var fits := k' == k || c.writer.None? || c.writer == Some(id);
      if k' == 4 + |body| then
        c.(wire := w, lock := lock, jobs := c.jobs[id := Returned(body, true)],
           log := c.log + [id], frames := c.frames + [body], writer := None, disciplined := c.disciplined && fits)
      else
        c.(wire := w, jobs := c.jobs[id := Sending(body, locked, k')],
           writer := if k' == k then c.writer else Some(id), disciplined := c.disciplined && fits)
  }

  /** One step, None when it cannot happen. */
  function Step(c: Channel, a: Action): Option<Channel> {
    match a
    case Call(id, body, locked) =>
      if id in c.jobs || body == [] then None else Some(c.(jobs := c.jobs[id := Waiting(body, locked)]))
    case Begin(id) =>
      if id !in c.jobs || !c.jobs[id].Waiting? || (c.jobs[id].locked && c.lock.Some?) then None
      else Some(BeginStep(c, id, c.jobs[id].body, c.jobs[id].locked))
    case Send(id, ev) =>
      if id !in c.jobs || !c.jobs[id].Sending? || c.jobs[id].k >= 4 + |c.jobs[id].body| then None
      else Some(SendStep(c, id, c.jobs[id].body, c.jobs[id].locked, c.jobs[id].k, ev))
    case Shutdown => Some(c.(wire := c.wire.(open := false)))
  }

  function Run(c: Channel, acts: seq<Action>): Option<Channel>
    decreases |acts|
  {
    if acts == [] then Some(c)
    else match Step(c, acts[0]) case None => None case Some(d) => Run(d, acts[1..])
  }

  // ---------------------------------------------------------------- the invariant

  predicate PartOf(p: seq<Byte>, body: seq<Byte>) {
    LegalBody(body) && |p| < |Frame(body)| && p == Frame(body)[..|p|]
  }

  /** The start of some legal frame, not all of it. */
  ghost predicate FrameStart(p: seq<Byte>) {
    p == [] || exists body :: PartOf(p, body)
  }

  ghost predicate NoDuplicates(s: seq<CallId>) {
    forall i, j :: 0 <= i < j < |s| ==> s[i] != s[j]
  }

  predicate FitJob(j: Job) {
    j.body != [] && (j.Sending? ==> LegalBody(j.body) && j.k < 4 + |j.body|)
  }

  /** Of the calls that take the mutex exactly its holder is sending. */
  ghost predicate Mutex(jobs: map<CallId, Job>, lock: Option<CallId>) {
    && (forall id :: id in jobs ==> FitJob(jobs[id]))
    && (forall id :: id in jobs && jobs[id].Sending? && jobs[id].locked ==> lock == Some(id))
    && (lock.Some? ==> lock.value in jobs && jobs[lock.value].Sending? && jobs[lock.value].locked)
  }

  /** The log holds exactly the calls that returned true, each once. */
  ghost predicate Logged(jobs: map<CallId, Job>, log: seq<CallId>, frames: seq<seq<Byte>>) {
    && |log| == |frames| && NoDuplicates(log) && AllLegal(frames)
    && (forall i :: 0 <= i < |log| ==> log[i] in jobs && jobs[log[i]] == Returned(frames[i], true))
    && (forall id :: id in jobs && jobs[id].Returned? && jobs[id].ok ==> id in log)
  }

  predicate Inside(c: Channel, id: CallId) {
    id in c.jobs && c.jobs[id].Sending? && c.jobs[id].k > 0
  }

  /** Exactly the writer is inside its frame. */
  ghost predicate OneWriter(c: Channel) {
    forall id: CallId :: Inside(c, id) <==> c.writer == Some(id)
  }

  /** The part of the writer's frame that is out. */
  function Partial(c: Channel): seq<Byte> {
    if c.writer.Some? && Inside(c, c.writer.value) && c.jobs[c.writer.value].k <= 4 + |c.jobs[c.writer.value].body| then
      Frame(c.jobs[c.writer.value].body)[..c.jobs[c.writer.value].k]
    else []
  }

  /** Whole frames, then one unfinished frame: the writer's, or what a failed call left on
      a socket that takes nothing more. */
  ghost predicate Shape(c: Channel) {
    && OneWriter(c)
    && c.wire.bytes == Encode(c.frames) + (c.stub + Partial(c))
    && FrameStart(c.stub)
    && (c.stub != [] ==> !c.wire.open && Partial(c) == [])
  }

  ghost predicate Inv(c: Channel) {
    Mutex(c.jobs, c.lock) && Logged(c.jobs, c.log, c.frames) && (c.disciplined ==> Shape(c))
  }

  lemma SendMutex(c: Channel, id: CallId, ev: SendEvent)
    requires Mutex(c.jobs, c.lock) && Step(c, Send(id, ev)).Some?
    ensures var d := Step(c, Send(id, ev)).value; Mutex(d.jobs, d.lock)
  {
    hide SendTurn, Frame;
    var d := Step(c, Send(id, ev)).value;
    assert d.jobs == c.jobs[id := d.jobs[id]] && FitJob(d.jobs[id]);
    assert d.jobs[id].Sending? ==> d.jobs[id].locked == c.jobs[id].locked && d.lock == c.lock;
    hide Step, FitJob;
  }

  lemma MutexKeeps(c: Channel, a: Action)
    requires Mutex(c.jobs, c.lock) && Step(c, a).Some?
    ensures var d := Step(c, a).value; Mutex(d.jobs, d.lock)
  {
    hide SendStep;
    match a
    case Send(id, ev) => SendMutex(c, id, ev);
    case Begin(id) =>
    case Call(id, body, locked) =>
    case Shutdown =>
  }

  /** A call that has not returned true is not in the log. */
  lemma LogSame(jobs: map<CallId, Job>, log: seq<CallId>, frames: seq<seq<Byte>>, id: CallId, j: Job)
    requires Logged(jobs, log, frames) && (id in jobs ==> !jobs[id].Returned?) && !(j.Returned? && j.ok)
    ensures Logged(jobs[id := j], log, frames)
  {
  }

  lemma LogAdd(jobs: map<CallId, Job>, log: seq<CallId>, frames: seq<seq<Byte>>, id: CallId, body: seq<Byte>)
    requires Logged(jobs, log, frames) && (id in jobs ==> !jobs[id].Returned?) && LegalBody(body)
    ensures Logged(jobs[id := Returned(body, true)], log + [id], frames + [body])
  {
    assert id !in log;
  }

  lemma LoggedKeeps(c: Channel, a: Action)
    requires Mutex(c.jobs, c.lock) && Logged(c.jobs, c.log, c.frames) && Step(c, a).Some?
    ensures var d := Step(c, a).value; Logged(d.jobs, d.log, d.frames)
  {
    hide SendTurn, Logged, Frame;
    var d := Step(c, a).value;
    if !a.Shutdown? {
      if d.log != c.log {
        assert LegalBody(c.jobs[a.id].body);
        LogAdd(c.jobs, c.log, c.frames, a.id, c.jobs[a.id].body);
      } else {
        LogSame(c.jobs, c.log, c.frames, a.id, d.jobs[a.id]);
      }
    }
  }

  lemma SplitFrame(body: seq<Byte>, j: nat, k: nat)
    requires j <= k <= 4 + |body|
    ensures Frame(body)[..j] + Frame(body)[j..k] == Frame(body)[..k]
    ensures k == 4 + |body| ==> Frame(body)[..k] == Frame(body)
  {
  }

  /** A job other than the writer's does not show in the partial frame. */
  lemma OtherJob(c: Channel, id: CallId, j: Job)
    requires Shape(c) && id in c.jobs && !Inside(c, id) && !(j.Sending? && j.k > 0)
    ensures var d := c.(jobs := c.jobs[id := j]); Partial(d) == Partial(c) && OneWriter(d)
  {
    hide Encode, FrameStart, Frame;
    var d := c.(jobs := c.jobs[id := j]);
    assert forall g :: Inside(d, g) <==> Inside(c, g);
    assert c.writer != Some(id);
  }

  lemma GiveUpKeepsShape(c: Channel, id: CallId, ev: SendEvent)
    requires Mutex(c.jobs, c.lock) && Shape(c) && Step(c, Send(id, ev)).Some?
    requires SendTurn(c.wire, c.jobs[id].body, c.jobs[id].k, ev).GaveUp?
    requires Step(c, Send(id, ev)).value.disciplined
    ensures Shape(Step(c, Send(id, ev)).value)
  {
    hide SendTurn, Frame, Encode;
    var d := Step(c, Send(id, ev)).value;
    var body, k := c.jobs[id].body, c.jobs[id].k;
    SendTurnMeaning(c.wire, body, k, ev);
    var p := Frame(body)[..k];
    if k == 0 {
      OtherJob(c, id, Returned(body, false));
      assert c.stub + p == c.stub;
    } else {
      assert Inside(c, id);
      assert Partial(c) == p && c.stub == [];
      assert c.stub + p == p && p + [] == p;
      assert PartOf(p, body);
      assert forall g :: !Inside(d, g) by {
        assert forall g :: Inside(d, g) ==> Inside(c, g) && g != id;
      }
    }
  }

  /** Who is inside a frame before and after a turn that writes. */
  lemma WriterMoves(c: Channel, id: CallId, ev: SendEvent)
    requires Mutex(c.jobs, c.lock) && Shape(c) && Step(c, Send(id, ev)).Some?
    requires SendTurn(c.wire, c.jobs[id].body, c.jobs[id].k, ev).Going?
    requires SendTurn(c.wire, c.jobs[id].body, c.jobs[id].k, ev).sent > c.jobs[id].k
    requires Step(c, Send(id, ev)).value.disciplined
    ensures c.stub == [] && Partial(c) == Frame(c.jobs[id].body)[..c.jobs[id].k]
    ensures OneWriter(Step(c, Send(id, ev)).value)
  {
    var d := Step(c, Send(id, ev)).value;
    var body, k := c.jobs[id].body, c.jobs[id].k;
    SendTurnMeaning(c.wire, body, k, ev);
    hide SendTurn, Frame, Encode, FrameStart, Mutex;
    assert k > 0 <==> Inside(c, id);
    assert forall g: CallId :: g != id ==> !Inside(c, g);
    assert Frame(body)[..0] == [];
    assert d.jobs == c.jobs[id := d.jobs[id]];
    forall g: CallId ensures Inside(d, g) <==> d.writer == Some(g) {
      assert g != id && g in d.jobs ==> d.jobs[g] == c.jobs[g];
    }
  }

  /** The bytes of one turn continue the partial frame. */
  lemma ProgressKeepsShape(c: Channel, id: CallId, ev: SendEvent)
    requires Mutex(c.jobs, c.lock) && Shape(c) && Step(c, Send(id, ev)).Some?
    requires SendTurn(c.wire, c.jobs[id].body, c.jobs[id].k, ev).Going?
    requires SendTurn(c.wire, c.jobs[id].body, c.jobs[id].k, ev).sent > c.jobs[id].k
    requires Step(c, Send(id, ev)).value.disciplined
    ensures Shape(Step(c, Send(id, ev)).value)
  {
    var d := Step(c, Send(id, ev)).value;
    var body, k := c.jobs[id].body, c.jobs[id].k;
    var t := SendTurn(c.wire, body, k, ev);
    SendTurnMeaning(c.wire, body, k, ev);
    WriterMoves(c, id, ev);
    hide SendTurn, Frame, Encode, FrameStart;
    SplitFrame(body, k, t.sent);
    var p, more := Frame(body)[..k], Frame(body)[k..t.sent];
    assert c.stub + p == p;
    assert c.wire.bytes == Encode(c.frames) + p;
    Assoc(Encode(c.frames), p, more);
    if t.sent == 4 + |body| {
      EncodeAppend(c.frames, [body]);
      EncodeOne(body);
      assert d.stub + Partial(d) == [];
      assert Encode(d.frames) + [] == Encode(d.frames);
    } else {
      assert d.stub + Partial(d) == Partial(d);
    }
  }

  lemma ShapeKeeps(c: Channel, a: Action)
    requires Inv(c) && c.disciplined && Step(c, a).Some? && Step(c, a).value.disciplined
    ensures Shape(Step(c, a).value)
  {
    hide SendTurn, Frame, Encode, FrameStart;
    var d := Step(c, a).value;
    match a
    case Send(id, ev) =>
      var t := SendTurn(c.wire, c.jobs[id].body, c.jobs[id].k, ev);
      if t.GaveUp? {
        GiveUpKeepsShape(c, id, ev);
      } else if t.sent > c.jobs[id].k {
        ProgressKeepsShape(c, id, ev);
      } else {
        SendTurnMeaning(c.wire, c.jobs[id].body, c.jobs[id].k, ev);
        assert d == c;
      }
    case Begin(id) =>
      OtherJob(c, id, d.jobs[id]);
    case Call(id, body, locked) =>
      assert forall g :: Inside(d, g) <==> Inside(c, g);
    case Shutdown =>
      assert forall g :: Inside(d, g) <==> Inside(c, g);
  }

  lemma DisciplineIsKept(c: Channel, a: Action)
    requires Step(c, a).Some? && Step(c, a).value.disciplined
    ensures c.disciplined
  {
  }

  lemma {:induction false} RunKeeps(c: Channel, acts: seq<Action>)
    requires Inv(c) && Run(c, acts).Some?
    ensures Inv(Run(c, acts).value)
    decreases |acts|
  {
    hide Step;
    if acts != [] {
      MutexKeeps(c, acts[0]);
      LoggedKeeps(c, acts[0]);
      if Step(c, acts[0]).value.disciplined {
        DisciplineIsKept(c, acts[0]);
        ShapeKeeps(c, acts[0]);
      }
      RunKeeps(Step(c, acts[0]).value, acts[1..]);
    }
  }

  // ---------------------------------------------------------------- what it means

  lemma PartHead(p: seq<Byte>, body: seq<Byte>)
    requires PartOf(p, body) && |p| >= 4
    ensures Be32(p) == |body| && |p| < 4 + |body|
  {
    hide Be32, Header;
    HeaderSlice(body, 0, 4);
    assert p == Frame(body)[0..4] + p[4..];
    assert Header(|body|)[0..4] == Header(|body|);
    PrefixDecides(Header(|body|), p[4..]);
  }

  lemma StartIsUnfinished(p: seq<Byte>)
    requires FrameStart(p)
    ensures Unfinished(p)
  {
    if |p| >= 4 {
      var body :| PartOf(p, body);
      PartHead(p, body);
      hide Be32, Frame;
    }
  }

  lemma StartInv()
    ensures Inv(START)
  {
    assert [] + (START.stub + Partial(START)) == START.stub;
  }

  /** Wire integrity, for every interleaving of any number of senders, with and without the
      mutex, with partial writes, retries, timeouts and disconnects, in which no call wrote
      inside another's frame: the wire holds the whole frames of exactly the calls that
      returned true, each once and in the order they finished, followed by at most one
      unfinished frame; a receiver cuts exactly those frames. */
  lemma WholeFrames(acts: seq<Action>)
    requires Run(START, acts).Some? && Run(START, acts).value.disciplined
    ensures var c := Run(START, acts).value;
      && Logged(c.jobs, c.log, c.frames)
      && exists tail :: FrameStart(tail) && c.wire.bytes == Encode(c.frames) + tail
           && Split(c.wire.bytes) == Cut(c.frames, tail, false)
  {
    StartInv();
    RunKeeps(START, acts);
    var c := Run(START, acts).value;
    var tail := c.stub + Partial(c);
    hide Frame, Encode, Split;
    assert FrameStart(tail) by {
      if c.stub == [] {
        assert tail == Partial(c);
        assert Partial(c) != [] ==> PartOf(Partial(c), c.jobs[c.writer.value].body);
      } else {
        assert tail == c.stub;
      }
    }
    StartIsUnfinished(tail);
    SplitUnique(c.frames, tail);
  }

  /** The client, fed any part of the wire from its beginning, cuts a prefix of those frames
      and never sees an unacceptable length. */
  lemma ReceiverSeesPrefix(acts: seq<Action>, n: nat)
    requires Run(START, acts).Some? && Run(START, acts).value.disciplined
    requires n <= |Run(START, acts).value.wire.bytes|
    ensures var c := Run(START, acts).value; var seen := Split(c.wire.bytes[..n]);
      && !seen.bad && |seen.bodies| <= |c.frames| && seen.bodies == c.frames[..|seen.bodies|]
  {
    hide Split, Run;
    WholeFrames(acts);
    var bytes := Run(START, acts).value.wire.bytes;
    assert bytes == bytes[..n] + bytes[n..];
    SplitAppend(bytes[..n], bytes[n..]);
    if Split(bytes[..n]).bad {
      BadStaysBad(bytes[..n], bytes[n..]);
    }
  }

  ghost predicate AllLocked(c: Channel) {
    forall id :: id in c.jobs && !c.jobs[id].Returned? ==> c.jobs[id].locked
  }

  lemma LockedStep(c: Channel, a: Action)
    requires Inv(c) && c.disciplined && AllLocked(c) && Step(c, a).Some?
    requires !(a.Call? && !a.locked) && !(a.Send? && a.ev == Sent(0))
    ensures Step(c, a).value.disciplined && AllLocked(Step(c, a).value)
  {
    if a.Send? {
      var j := c.jobs[a.id];
      SendTurnMeaning(c.wire, j.body, j.k, a.ev);
      assert c.writer.Some? ==> Inside(c, c.writer.value);
    }
    hide SendTurn, Frame, Encode, FrameStart, Logged, Partial, FitJob;
  }

  /** With the mutex alone no call ever writes inside another's frame: as long as every call
      takes it and no send() takes zero bytes, a run is disciplined. */
  lemma {:induction false} LockedRunsAreDisciplined(c: Channel, acts: seq<Action>)
    requires Inv(c) && c.disciplined && AllLocked(c) && Run(c, acts).Some?
    requires forall a <- acts :: !(a.Call? && !a.locked) && !(a.Send? && a.ev == Sent(0))
    ensures Run(c, acts).value.disciplined
    decreases |acts|
  {
    hide Step;
    if acts != [] {
      assert acts[0] in acts;
      LockedStep(c, acts[0]);
      MutexKeeps(c, acts[0]);
      LoggedKeeps(c, acts[0]);
      ShapeKeeps(c, acts[0]);
      LockedRunsAreDisciplined(Step(c, acts[0]).value, acts[1..]);
    }
  }

  // ---------------------------------------------------------------- a torn frame, exactly

  ghost predicate Received(bodies: seq<seq<Byte>>, bytes: seq<Byte>) {
    bodies <= Split(bytes).bodies
  }

  lemma FirstExactly(body: seq<Byte>, z: seq<Byte>)
    requires LegalBody(body)
    ensures Split(z).bodies != [] && Split(z).bodies[0] == body <==> Frame(body) <= z
  {
    if Frame(body) <= z {
      assert z == Frame(body) + z[4 + |body|..];
      FrameHead(body, z[4 + |body|..]);
    } else if Split(z).bodies != [] {
      FrameOf(z);
    }
  }

  lemma AfterFrames(frames: seq<seq<Byte>>, z: seq<Byte>)
    requires AllLegal(frames)
    ensures Split(Encode(frames) + z).bodies == frames + Split(z).bodies
  {
    SplitUnique(frames, []);
    hide Split, Encode;
    assert Encode(frames) + [] == Encode(frames);
    SplitAppend(Encode(frames), z);
    assert [] + z == z;
  }

  /** After whole frames the next one to be cut is `body` exactly when its frame stands there. */
  lemma NextExactly(frames: seq<seq<Byte>>, body: seq<Byte>, z: seq<Byte>)
    requires AllLegal(frames) && LegalBody(body)
    ensures Received(frames + [body], Encode(frames) + z) <==> Frame(body) <= z
  {
    FirstExactly(body, z);
    AfterFrames(frames, z);
    hide Split, Frame, Encode;
    var rest := Split(z).bodies;
    if rest != [] {
      assert (frames + rest)[..|frames| + 1] == frames + [rest[0]];
      assert (frames + [body])[|frames|] == body && (frames + [rest[0]])[|frames|] == rest[0];
    } else {
      assert |Split(Encode(frames) + z).bodies| == |frames|;
    }
  }

  lemma StepGrows(c: Channel, a: Action)
    requires Step(c, a).Some?
    ensures c.wire.bytes <= Step(c, a).value.wire.bytes
  {
    if a.Send? {
      SendTurnMeaning(c.wire, c.jobs[a.id].body, c.jobs[a.id].k, a.ev);
    }
    hide SendTurn, Frame;
  }

  lemma {:induction false} WireGrows(c: Channel, acts: seq<Action>)
    requires Run(c, acts).Some?
    ensures c.wire.bytes <= Run(c, acts).value.wire.bytes
    decreases |acts|
  {
    hide Step;
    if acts != [] {
      StepGrows(c, acts[0]);
      WireGrows(Step(c, acts[0]).value, acts[1..]);
    }
  }

  lemma PrefixFrom(f: seq<Byte>, k: nat, more: seq<Byte>)
    requires k <= |f|
    ensures f <= f[..k] + more <==> f[k..] <= more
  {
    assert f == f[..k] + f[k..];
    if f <= f[..k] + more {
      assert (f[..k] + more)[k..|f|] == f[k..];
    }
  }

  /** The exact condition.  A call is inside its frame, `k` bytes of which are out, and nothing
      has gone wrong so far.  Whatever anybody writes from here on, the receiver cuts that
      frame at its place if and only if the bytes that follow are the rest of it. */
  lemma ArrivesExactly(acts: seq<Action>, more: seq<Action>)
    requires Run(START, acts).Some? && Run(START, acts).value.disciplined && Run(START, acts).value.writer.Some?
    requires Run(Run(START, acts).value, more).Some?
    ensures var c := Run(START, acts).value; var bytes := Run(c, more).value.wire.bytes;
      && Inside(c, c.writer.value) && c.wire.bytes <= bytes
      && var job := c.jobs[c.writer.value];
         && job.k < |Frame(job.body)|
         && (Received(c.frames + [job.body], bytes) <==> Frame(job.body)[job.k..] <= bytes[|c.wire.bytes|..])
  {
    StartInv();
    RunKeeps(START, acts);
    var c := Run(START, acts).value;
    WireGrows(c, more);
    hide Run;
    assert Inside(c, c.writer.value);
    var bytes := Run(c, more).value.wire.bytes;
    var job := c.jobs[c.writer.value];
    var z := Partial(c) + bytes[|c.wire.bytes|..];
    assert c.stub + Partial(c) == Partial(c);
    Assoc(Encode(c.frames), Partial(c), bytes[|c.wire.bytes|..]);
    assert bytes == Encode(c.frames) + z;
    NextExactly(c.frames, job.body, z);
    PrefixFrom(Frame(job.body), job.k, bytes[|c.wire.bytes|..]);
  }

  /** Text has no byte 0 or 1, and the header of a legal frame begins with one. */
  ghost predicate Text(body: seq<Byte>) {
    forall b <- body :: b > 1
  }

  lemma HeaderIsNoText(body: seq<Byte>)
    requires LegalBody(body)
    ensures Header(|body|)[0] <= 1
  {
  }

  lemma TextDiffers(body: seq<Byte>, k: nat, w: seq<Byte>)
    requires Text(body) && 4 <= k < 4 + |body| && w != [] && w[0] <= 1
    ensures !(Frame(body)[k..] <= w)
  {
    BodySlice(body, k - 4, |body|);
    assert Frame(body)[k..][0] == body[k - 4] && body[k - 4] in body;
  }

  lemma FirstByte(c: Channel, id: CallId, ev: SendEvent)
    requires Mutex(c.jobs, c.lock) && id in c.jobs && c.jobs[id].Sending? && c.jobs[id].k == 0
    requires Step(c, Send(id, ev)).Some? && Step(c, Send(id, ev)).value.wire.bytes != c.wire.bytes
    ensures var bytes := Step(c, Send(id, ev)).value.wire.bytes;
      c.wire.bytes <= bytes && |bytes| > |c.wire.bytes| && bytes[|c.wire.bytes|] <= 1
  {
    var body := c.jobs[id].body;
    SendTurnMeaning(c.wire, body, 0, ev);
    HeaderIsNoText(body);
    hide SendTurn, Header;
  }

  /** So a call that begins its frame while another is inside the body of a text message tears
      that message for good, whatever is written afterwards. */
  lemma InterposedTears(acts: seq<Action>, id: CallId, ev: SendEvent, more: seq<Action>)
    requires Run(START, acts).Some? && Run(START, acts).value.disciplined && Run(START, acts).value.writer.Some?
    requires var c := Run(START, acts).value;
      && Inside(c, c.writer.value) && c.jobs[c.writer.value].k >= 4 && Text(c.jobs[c.writer.value].body)
      && id in c.jobs && c.jobs[id].Sending? && c.jobs[id].k == 0
      && Step(c, Send(id, ev)).Some? && Step(c, Send(id, ev)).value.wire.bytes != c.wire.bytes
      && Run(Step(c, Send(id, ev)).value, more).Some?
    ensures var c := Run(START, acts).value;
      !Received(c.frames + [c.jobs[c.writer.value].body], Run(Step(c, Send(id, ev)).value, more).value.wire.bytes)
  {
    var c := Run(START, acts).value;
    var d := Step(c, Send(id, ev)).value;
    var n, job := |c.wire.bytes|, c.jobs[c.writer.value];
    StartInv();
    RunKeeps(START, acts);
    var all := [Send(id, ev)] + more;
    assert all[1..] == more;
    assert Run(c, all) == Run(d, more);
    hide Run, Step;
    WireGrows(d, more);
    FirstByte(c, id, ev);
    ArrivesExactly(acts, all);
    hide Received, Shape, Logged, Mutex;
    TextDiffers(job.body, job.k, Run(d, more).value.wire.bytes[n..]);
  }

  // ---------------------------------------------------------------- a call left alone

  function Sends(id: CallId, script: seq<SendEvent>): (acts: seq<Action>)
    ensures |acts| == |script|
  {
    seq(|script|, i requires 0 <= i < |script| => Send(id, script[i]))
  }

  /** `d` is `c` after call `id` returned: what it wrote, and the mutex free if it held it. */
  ghost predicate ReturnedAs(c: Channel, d: Channel, id: CallId, j: Job, r: Written)
    requires j.Sending?
  {
    && d.wire == r.wire && d.jobs == c.jobs[id := Returned(j.body, r.ok)]
    && d.lock == (if j.locked then None else c.lock)
    && d.log == (if r.ok then c.log + [id] else c.log)
    && d.frames == if r.ok then c.frames + [j.body] else c.frames
  }

  lemma SendReturns(c: Channel, id: CallId, ev: SendEvent)
    requires Step(c, Send(id, ev)).Some?
    ensures var j, d := c.jobs[id], Step(c, Send(id, ev)).value;
      match SendTurn(c.wire, j.body, j.k, ev)
      case GaveUp(w) => forall left :: ReturnedAs(c, d, id, j, Written(w, false, left))
      case Going(w, k) =>
        if k == 4 + |j.body| then forall left :: ReturnedAs(c, d, id, j, Written(w, true, left))
        else
          && d.wire == w && d.jobs == c.jobs[id := Sending(j.body, j.locked, k)]
          && d.lock == c.lock && d.log == c.log && d.frames == c.frames
  {
    hide SendTurn, Frame;
  }

  lemma LastAnswer(w: Wire, body: seq<Byte>, k: nat)
    requires k < 4 + |body|
    ensures SendTurn(w, body, k, TryLater(true)).GaveUp?
  {
    hide Header;
  }

  /** What is left of the call is the same whatever it did before. */
  lemma ReturnedLater(c: Channel, d: Channel, e: Channel, id: CallId, j: Job, i: Job, r: Written)
    requires d.jobs == c.jobs[id := i] && (d.lock, d.log, d.frames) == (c.lock, c.log, c.frames)
    requires i.Sending? && j.Sending? && i.body == j.body && i.locked == j.locked && ReturnedAs(d, e, id, i, r)
    ensures ReturnedAs(c, e, id, j, r)
  {
  }

  lemma NoSends(c: Channel, id: CallId, script: seq<SendEvent>)
    ensures Run(c, Sends(id, script[..0])) == Some(c)
  {
  }

  lemma FirstSend(c: Channel, id: CallId, script: seq<SendEvent>, n: nat, d: Channel)
    requires 0 < n <= |script| && Step(c, Send(id, script[0])) == Some(d)
    ensures Run(c, Sends(id, script[..n])) == Run(d, Sends(id, script[1..][..n - 1]))
  {
    hide Step;
    assert Sends(id, script[..n])[1..] == Sends(id, script[1..][..n - 1]);
  }

  /** The sends of one call with no other call's in between are send_msg; the answers end with
      an expired deadline, so that the call does not outlast them. */
  lemma {:induction false} CallIsSendMsg(c: Channel, id: CallId, script: seq<SendEvent>) returns (n: nat)
    requires id in c.jobs && c.jobs[id].Sending? && c.jobs[id].k < 4 + |c.jobs[id].body|
    requires script != [] && script[|script| - 1] == TryLater(true)
    ensures 0 < n <= |script| && Run(c, Sends(id, script[..n])).Some?
    ensures var j := c.jobs[id];
      ReturnedAs(c, Run(c, Sends(id, script[..n])).value, id, j, TurnRun(c.wire, j.body, j.k, script))
    decreases |script|
  {
    hide SendStep, SendTurn, ReturnedAs, Frame, Sends, Run;
    var j := c.jobs[id];
    var d := Step(c, Send(id, script[0])).value;
    SendReturns(c, id, script[0]);
    LastAnswer(c.wire, j.body, j.k);
    hide Step;
    var t := SendTurn(c.wire, j.body, j.k, script[0]);
    if t.Going? && t.sent < 4 + |j.body| {
      n := CallIsSendMsg(d, id, script[1..]);
      n := n + 1;
      FirstSend(c, id, script, n, d);
      var e := Run(d, Sends(id, script[1..][..n - 1])).value;
      ReturnedLater(c, d, e, id, j, d.jobs[id], TurnRun(c.wire, j.body, j.k, script));
    } else {
      n := 1;
      FirstSend(c, id, script, n, d);
      assert Run(d, Sends(id, script[1..][..0])) == Some(d) by { NoSends(d, id, script[1..]); }
    }
  }

  // ---------------------------------------------------------------- without the mutex

  /** A frame goes out in one send() for the header and one for the body. */
  lemma Whole(w: Wire, body: seq<Byte>)
    requires LegalBody(body) && w.open
    ensures SendTurn(w, body, 0, Sent(4)) == Going(Wire(w.bytes + Header(|body|), true), 4)
    ensures SendTurn(w, body, 4, Sent(|body|)) == Going(Wire(w.bytes + body, true), 4 + |body|)
  {
    assert Header(|body|)[0..4] == Header(|body|);
    assert body[0..|body|] == body;
  }

  /** A broadcast with its header out, and a handler about to send. */
  function Midway(body: seq<Byte>, other: seq<Byte>): Channel {
    Channel(Wire(Header(|body|), true), Some(0), map[0 := Sending(body, true, 4), 1 := Sending(other, false, 0)],
            [], [], [], Some(0), true)
  }

  function ToMidway(body: seq<Byte>, other: seq<Byte>): seq<Action> {
    [Call(0, body, true), Begin(0), Send(0, Sent(4)), Call(1, other, false), Begin(1)]
  }

  lemma RunFive(c: Channel, acts: seq<Action>, c1: Channel, c2: Channel, c3: Channel, c4: Channel, c5: Channel)
    requires |acts| == 5
    requires Step(c, acts[0]) == Some(c1) && Step(c1, acts[1]) == Some(c2) && Step(c2, acts[2]) == Some(c3)
    requires Step(c3, acts[3]) == Some(c4) && Step(c4, acts[4]) == Some(c5)
    ensures Run(c, acts) == Some(c5)
  {
    hide Step;
    assert Run(c5, acts[5..]) == Some(c5);
    assert acts[4..][1..] == acts[5..];
    assert Run(c4, acts[4..]) == Some(c5);
    assert acts[3..][1..] == acts[4..];
    assert Run(c3, acts[3..]) == Some(c5);
    assert acts[2..][1..] == acts[3..];
    assert Run(c2, acts[2..]) == Some(c5);
    assert acts[1..][1..] == acts[2..];
    assert Run(c1, acts[1..]) == Some(c5);
  }

  lemma MidwayReached(body: seq<Byte>, other: seq<Byte>)
    requires LegalBody(body) && LegalBody(other)
    ensures Run(START, ToMidway(body, other)) == Some(Midway(body, other))
  {
    hide Run, SendTurn;
    var c1 := START.(jobs := map[0 := Waiting(body, true)]);
    var c2 := c1.(lock := Some(0), jobs := c1.jobs[0 := Sending(body, true, 0)]);
    var c3 := c2.(wire := Wire(Header(|body|), true), jobs := c2.jobs[0 := Sending(body, true, 4)], writer := Some(0));
    var c4 := c3.(jobs := c3.jobs[1 := Waiting(other, false)]);
    Whole(c2.wire, body);
    assert [] + Header(|body|) == Header(|body|);
    assert c4.jobs[1 := Sending(other, false, 0)] == Midway(body, other).jobs;
    RunFive(START, ToMidway(body, other), c1, c2, c3, c4, Midway(body, other));
  }

  /** Both calls returned true on a working socket, and `body` is not the first one cut. */
  ghost predicate Torn(c: Channel, body: seq<Byte>, other: seq<Byte>) {
    && c.wire.open && c.lock.None? && c.jobs == map[0 := Returned(body, true), 1 := Returned(other, true)]
    && !Received([body], c.wire.bytes)
  }

  lemma TornHere(c: Channel, body: seq<Byte>, other: seq<Byte>)
    requires c.wire.open && c.lock.None? && !Received([body], c.wire.bytes)
    requires c.jobs == map[0 := Returned(body, true), 1 := Returned(other, true)]
    ensures Torn(c, body, other)
  {
  }

  lemma Onwards(c: Channel, acts: seq<Action>, d: Channel, e: Channel)
    requires acts != [] && Step(c, acts[0]) == Some(d) && Run(d, acts[1..]) == Some(e)
    ensures Run(c, acts) == Some(e)
  {
  }

  lemma RunTwo(c: Channel, acts: seq<Action>, d: Channel, e: Channel)
    requires |acts| == 2 && Step(c, acts[0]) == Some(d) && Step(d, acts[1]) == Some(e)
    ensures Run(c, acts) == Some(e)
  {
    hide Step;
    assert acts[1..][1..] == [];
    Onwards(d, acts[1..], e, e);
  }

  lemma {:induction false} RunAppend(c: Channel, a: seq<Action>, b: seq<Action>)
    requires Run(c, a).Some?
    ensures Run(c, a + b) == Run(Run(c, a).value, b)
    decreases |a|
  {
    hide Step;
    if a == [] {
      assert a + b == b;
    } else {
      assert (a + b)[1..] == a[1..] + b;
      RunAppend(Step(c, a[0]).value, a[1..], b);
    }
  }

  /** For every two messages there is a run in which a handler sends one without the mutex
      while a broadcast sends the other: both calls return true, and the broadcast's frame,
      when it is text, is not what a receiver cuts. */
  lemma BypassTearsFrames(body: seq<Byte>, other: seq<Byte>)
    requires LegalBody(body) && LegalBody(other) && Text(body)
    ensures exists acts :: Run(START, acts).Some? && Torn(Run(START, acts).value, body, other)
  {
    hide Run, SendTurn, Torn;
    var c := Midway(body, other);
    MidwayReached(body, other);
    var d1 := c.(wire := Wire(Header(|body|) + Header(|other|), true), jobs := c.jobs[1 := Sending(other, false, 4)],
                 writer := Some(1), disciplined := false);
    Whole(c.wire, other);
    assert Step(c, Send(1, Sent(4))) == Some(d1);
    var d2 := d1.(wire := Wire(d1.wire.bytes + other, true), jobs := d1.jobs[1 := Returned(other, true)],
                  log := [1], frames := [other], writer := None);
    Whole(d1.wire, other);
    assert [] + [other] == [other] && d1.log + [1] == [1];
    assert Step(d1, Send(1, Sent(|other|))) == Some(d2);
    var d3 := d2.(wire := Wire(d2.wire.bytes + body, true), lock := None, jobs := d2.jobs[0 := Returned(body, true)],
                  log := [1, 0], frames := [other, body]);
    Whole(d2.wire, body);
    assert [1] + [0] == [1, 0] && [other] + [body] == [other, body];
    assert Step(d2, Send(0, Sent(|body|))) == Some(d3);
    var more := [Send(1, Sent(|other|)), Send(0, Sent(|body|))];
    RunTwo(d1, more, d2, d3);
    InterposedTears(ToMidway(body, other), 1, Sent(4), more);
    assert c.frames + [body] == [body];
    TornHere(d3, body, other);
    assert ([Send(1, Sent(4))] + more)[1..] == more;
    Onwards(c, [Send(1, Sent(4))] + more, d1, d3);
    RunAppend(START, ToMidway(body, other), [Send(1, Sent(4))] + more);
  }
}
