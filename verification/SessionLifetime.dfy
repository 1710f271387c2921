/**
  Who keeps a connection's descriptor open, and which tasks may still run for it
  (server/src/epoll_server.cpp, server/include/client_session.h).

  Every session object carries the set of shared_ptr variables that point to it: its table
  entry, the event loop's two locals, the captures of queued tasks and the locals of
  senders.  When the last one goes the object is destroyed and its descriptor closed, and
  the kernel may hand the number out again.  The steps are the regions under
  sessions_mutex_, the single send()s and shutdown()s, and the ends of life of single
  shared_ptr variables, in any interleaving of the event loop and any number of workers.
*/
module SessionLifetime {
  import opened Wrappers

  type Fd = nat
  type Session = nat
  type TaskId = nat

  datatype Ref = TableEntry | MainVar | RemovedVar | Capture(task: TaskId) | Local(sender: nat)

  datatype Obj = Obj(fd: Fd, generation: nat, refs: set<Ref>)

  datatype Task =
    | Queued(session: Session, generation: nat)
    | Running(session: Session)
    | Over

  /** A thread between finding a session and letting go of it: the session its variable
      points to, and the one it means to write to. */
  datatype Sender = Sender(holds: Session, aim: Session) | Gone

  /** Where the event loop is: in handle_client_event, or in remove_client after the table
      entry is gone, before and after the generation is raised, or on the way back. */
  datatype Phase = AtLoop | Reading | Unlinked | Raised | Returning

  datatype Main = Main(phase: Phase, fd: Fd, session: Session)

  /** A send() or shutdown() meant for `aim`, performed on the connection `conn`. */
  datatype Op = Op(aim: Session, conn: Session)

  /** `objs` lists every session ever created; `kernel` says to which connection each open
      descriptor belongs; `stale` records a handler called for a removed session. */
  datatype Server = Server(
    sessions: map<Fd, Session>,
    objs: map<Session, Obj>,
    nextGeneration: nat,
    kernel: map<Fd, Session>,
    main: Main,
    tasks: map<TaskId, Task>,
    senders: map<nat, Sender>,
    ops: seq<Op>,
    stale: bool)

  datatype Action =
    | Accept(fd: Fd, s: Session)
    | BeginRead(fd: Fd)
    | Dispatch(t: TaskId)
    | EndRead
    | Unlink
    | RaiseGeneration
    | ShutdownWrite
    | EndRemove
    | Return
    | StartTask(t: TaskId)
    | Reply(t: TaskId)
    | EndTask(t: TaskId)
    | Find(id: nat, fd: Fd)
    | SendLookup(id: nat, x: Session, from: Ref)
    | Write(id: nat)
    | LetGo(id: nat)

  const START := Server(map[], map[], 1, map[], Main(AtLoop, 0, 0), map[], map[], [], false)

  type Objs = map<Session, Obj>

  predicate Alive(objs: Objs, s: Session) {
    s in objs && objs[s].refs != {}
  }

  predicate InTable(objs: Objs, s: Session) {
    s in objs && TableEntry in objs[s].refs
  }

  /** remove_client has raised the session's generation. */
  predicate Removed(objs: Objs, main: Main, s: Session) {
    !InTable(objs, s) && !(main.phase == Unlinked && main.session == s)
  }

  /** A new shared_ptr to `s`. */
  function Hold(v: Server, s: Session, r: Ref): Server
    requires s in v.objs
  {
    v.(objs := v.objs[s := v.objs[s].(refs := v.objs[s].refs + {r})])
  }

  /** A shared_ptr to `s` goes out of scope. */
  function Drop(v: Server, s: Session, r: Ref): Server
    requires s in v.objs
  {
    var o := v.objs[s].(refs := v.objs[s].refs - {r});
    v.(objs := v.objs[s := o], kernel := if o.refs == {} then v.kernel - {o.fd} else v.kernel)
  }

  // ---------------------------------------------------------------- the steps

  /** handle_new_connection: accept4 returns a number that is not open. */
  function DoAccept(v: Server, fd: Fd, s: Session): Option<Server> {
    if v.main.phase != AtLoop || fd in v.kernel || s in v.objs then None
    else
      Some(v.(sessions := v.sessions[fd := s], objs := v.objs[s := Obj(fd, v.nextGeneration, {TableEntry})],
              nextGeneration := v.nextGeneration + 1, kernel := v.kernel[fd := s]))
  }

  /** handle_client_event: copy the shared_ptr out of the table. */
  function DoBeginRead(v: Server, fd: Fd): Option<Server> {
    if v.main.phase != AtLoop || fd !in v.sessions || v.sessions[fd] !in v.objs then None
    else Some(Hold(v, v.sessions[fd], MainVar).(main := Main(Reading, fd, v.sessions[fd])))
  }

  /** handle_client_event: enqueue one message with a copy and the generation. */
  function DoDispatch(v: Server, t: TaskId): Option<Server> {
    var s := v.main.session;
    if v.main.phase != Reading || t in v.tasks || s !in v.objs then None
    else Some(Hold(v, s, Capture(t)).(tasks := v.tasks[t := Queued(s, v.objs[s].generation)]))
  }

  function DoEndRead(v: Server): Option<Server> {
    if v.main.phase != Reading || v.main.session !in v.objs then None
    else Some(Drop(v.(main := v.main.(phase := AtLoop)), v.main.session, MainVar))
  }

  /** remove_client, inside sessions_mutex_: the entry is copied and erased ... */
  function DoUnlink(v: Server): Option<Server> {
    var fd := v.main.fd;
    if v.main.phase != Reading || fd !in v.sessions || v.sessions[fd] !in v.objs then None
    else
      var s := v.sessions[fd];
      Some(Drop(Hold(v, s, RemovedVar), s, TableEntry).(main := Main(Unlinked, fd, s), sessions := v.sessions - {fd}))
  }

  /** ... and then the session's generation is raised. */
  function DoRaise(v: Server): Option<Server> {
    var s := v.main.session;
    if v.main.phase != Unlinked || s !in v.objs then None
    else
      Some(v.(main := v.main.(phase := Raised), nextGeneration := v.nextGeneration + 1,
              objs := v.objs[s := v.objs[s].(generation := v.nextGeneration + 1)]))
  }

  function DoShutdown(v: Server): Option<Server> {
    if v.main.phase != Raised || v.main.fd !in v.kernel then None
    else Some(v.(ops := v.ops + [Op(v.main.session, v.kernel[v.main.fd])]))
  }

  /** remove_client returns: its own variable goes. */
  function DoEndRemove(v: Server): Option<Server> {
    if v.main.phase != Raised || v.main.session !in v.objs then None
    else Some(Drop(v.(main := v.main.(phase := Returning)), v.main.session, RemovedVar))
  }

  /** handle_client_event returns after remove_client. */
  function DoReturn(v: Server): Option<Server> {
    if v.main.phase != Returning || v.main.session !in v.objs then None
    else Some(Drop(v.(main := v.main.(phase := AtLoop)), v.main.session, MainVar))
  }

  /** A worker takes the task: a raised generation drops it, otherwise the handler runs. */
  function DoStart(v: Server, t: TaskId): Option<Server> {
    if t !in v.tasks || !v.tasks[t].Queued? || v.tasks[t].session !in v.objs then None
    else
      var s := v.tasks[t].session;
      if v.objs[s].generation != v.tasks[t].generation then
        Some(Drop(v.(tasks := v.tasks[t := Over]), s, Capture(t)))
      else Some(v.(tasks := v.tasks[t := Running(s)], stale := v.stale || Removed(v.objs, v.main, s)))
  }

  /** send_ok or send_error of a running handler: one send() on the descriptor of its session. */
  function DoReply(v: Server, t: TaskId): Option<Server> {
    if t !in v.tasks || !v.tasks[t].Running? || v.tasks[t].session !in v.objs then None
    else
      var fd := v.objs[v.tasks[t].session].fd;
      if fd !in v.kernel then None else Some(v.(ops := v.ops + [Op(v.tasks[t].session, v.kernel[fd])]))
  }

  function DoEnd(v: Server, t: TaskId): Option<Server> {
    if t !in v.tasks || !v.tasks[t].Running? || v.tasks[t].session !in v.objs then None
    else Some(Drop(v.(tasks := v.tasks[t := Over]), v.tasks[t].session, Capture(t)))
  }

  /** find_session, or one entry of broadcast's list of targets. */
  function DoFind(v: Server, id: nat, fd: Fd): Option<Server> {
    if id in v.senders || fd !in v.sessions || v.sessions[fd] !in v.objs then None
    else Some(Hold(v, v.sessions[fd], Local(id)).(senders := v.senders[id := Sender(v.sessions[fd], v.sessions[fd])]))
  }

  /** send_to_fd(x->fd) by a thread whose reference `from` keeps x alive; false when the
      number is not in the table. */
  function DoSendLookup(v: Server, id: nat, x: Session, from: Ref): Option<Server> {
    if id in v.senders || x !in v.objs || from !in v.objs[x].refs then None
    else if v.objs[x].fd !in v.sessions then Some(v)
    else
      var y := v.sessions[v.objs[x].fd];
      if y !in v.objs then None else Some(Hold(v, y, Local(id)).(senders := v.senders[id := Sender(y, x)]))
  }

  /** One send() on the descriptor of the session the sender holds. */
  function DoWrite(v: Server, id: nat): Option<Server> {
    if id !in v.senders || v.senders[id].Gone? || v.senders[id].holds !in v.objs then None
    else
      var fd := v.objs[v.senders[id].holds].fd;
      if fd !in v.kernel then None else Some(v.(ops := v.ops + [Op(v.senders[id].aim, v.kernel[fd])]))
  }

  function DoLetGo(v: Server, id: nat): Option<Server> {
    if id !in v.senders || v.senders[id].Gone? || v.senders[id].holds !in v.objs then None
    else Some(Drop(v.(senders := v.senders[id := Gone]), v.senders[id].holds, Local(id)))
  }

  /** One step, None when it cannot happen. */
  function Step(v: Server, a: Action): Option<Server> {
    match a
    case Accept(fd, s) => DoAccept(v, fd, s)
    case BeginRead(fd) => DoBeginRead(v, fd)
    case Dispatch(t) => DoDispatch(v, t)
    case EndRead => DoEndRead(v)
    case Unlink => DoUnlink(v)
    case RaiseGeneration => DoRaise(v)
    case ShutdownWrite => DoShutdown(v)
    case EndRemove => DoEndRemove(v)
    case Return => DoReturn(v)
    case StartTask(t) => DoStart(v, t)
    case Reply(t) => DoReply(v, t)
    case EndTask(t) => DoEnd(v, t)
    case Find(id, fd) => DoFind(v, id, fd)
    case SendLookup(id, x, from) => DoSendLookup(v, id, x, from)
    case Write(id) => DoWrite(v, id)
    case LetGo(id) => DoLetGo(v, id)
  }

  function Run(v: Server, acts: seq<Action>): Option<Server>
    decreases |acts|
  {
    if acts == [] then Some(v)
    else match Step(v, acts[0]) case None => None case Some(w) => Run(w, acts[1..])
  }

  // ---------------------------------------------------------------- the invariant

  /** Open descriptors are exactly those of objects still referenced, each its own. */
  ghost predicate Descriptors(objs: Objs, kernel: map<Fd, Session>) {
    && (forall s :: Alive(objs, s) ==> objs[s].fd in kernel && kernel[objs[s].fd] == s)
    && (forall fd :: fd in kernel ==> Alive(objs, kernel[fd]) && objs[kernel[fd]].fd == fd)
  }

  /** sessions_[fd]->fd == fd, and the table's own references are the table entries. */
  ghost predicate Table(objs: Objs, sessions: map<Fd, Session>) {
    && (forall fd :: fd in sessions ==> InTable(objs, sessions[fd]) && objs[sessions[fd]].fd == fd)
    && (forall s :: InTable(objs, s) ==> objs[s].fd in sessions && sessions[objs[s].fd] == s)
  }

  ghost predicate EventLoop(objs: Objs, m: Main) {
    && (m.phase != AtLoop ==> m.session in objs && MainVar in objs[m.session].refs && objs[m.session].fd == m.fd)
    && (m.phase == Reading ==> InTable(objs, m.session))
    && (m.phase == Unlinked || m.phase == Raised ==> RemovedVar in objs[m.session].refs)
    && (m.phase == Unlinked || m.phase == Raised || m.phase == Returning ==> !InTable(objs, m.session))
  }

  /** Sessions in the table have different generations, all below the counter. */
  ghost predicate Generations(objs: Objs, next: nat) {
    && (forall s :: InTable(objs, s) ==> objs[s].generation < next)
    && (forall s, r :: InTable(objs, s) && InTable(objs, r) && s != r ==> objs[s].generation != objs[r].generation)
  }

  /** A queued task captured its session's generation; removal has raised it since. */
  ghost predicate Captures(objs: Objs, tasks: map<TaskId, Task>, main: Main, next: nat) {
    && (forall t :: t in tasks && !tasks[t].Over? ==>
          tasks[t].session in objs && Capture(t) in objs[tasks[t].session].refs)
    && (forall t :: t in tasks && tasks[t].Queued? && tasks[t].session in objs ==>
          var s, g := tasks[t].session, tasks[t].generation;
          && g < next
          && if Removed(objs, main, s) then g < objs[s].generation else g == objs[s].generation)
  }

  /** A sender holds the session it aims at. */
  ghost predicate Senders(objs: Objs, senders: map<nat, Sender>) {
    forall id :: id in senders && senders[id].Sender? ==>
      && senders[id].holds == senders[id].aim && senders[id].holds in objs
      && Local(id) in objs[senders[id].holds].refs
  }

  /** Everything written or shut down so far hit the connection it was meant for. */
  ghost predicate Delivered(ops: seq<Op>) {
    forall i :: 0 <= i < |ops| ==> ops[i].aim == ops[i].conn
  }

  ghost predicate Inv(v: Server) {
    && Descriptors(v.objs, v.kernel) && Table(v.objs, v.sessions) && EventLoop(v.objs, v.main)
    && Generations(v.objs, v.nextGeneration) && Captures(v.objs, v.tasks, v.main, v.nextGeneration)
    && Senders(v.objs, v.senders) && Delivered(v.ops) && !v.stale
  }

  // ---------------------------------------------------------------- holding and dropping

  lemma TableAt(v: Server, fd: Fd)
    requires Table(v.objs, v.sessions) && fd in v.sessions
    ensures InTable(v.objs, v.sessions[fd]) && v.objs[v.sessions[fd]].fd == fd
  {
  }

  lemma HoldKeepsDescriptors(v: Server, s: Session, r: Ref)
    requires s in v.objs && Alive(v.objs, s) && Descriptors(v.objs, v.kernel)
    ensures Descriptors(Hold(v, s, r).objs, v.kernel)
  {
  }

  lemma HoldKeepsTable(v: Server, s: Session, r: Ref)
    requires s in v.objs && r != TableEntry && Table(v.objs, v.sessions)
    ensures Table(Hold(v, s, r).objs, v.sessions)
  {
  }

  lemma HoldKeepsGenerations(v: Server, s: Session, r: Ref)
    requires s in v.objs && r != TableEntry && Generations(v.objs, v.nextGeneration)
    ensures Generations(Hold(v, s, r).objs, v.nextGeneration)
  {
  }

  lemma HoldKeepsCaptures(v: Server, s: Session, r: Ref)
    requires Captures(v.objs, v.tasks, v.main, v.nextGeneration) && s in v.objs && r != TableEntry
    ensures Captures(Hold(v, s, r).objs, v.tasks, v.main, v.nextGeneration)
  {
  }

  lemma HoldKeeps(v: Server, s: Session, r: Ref)
    requires Inv(v) && InTable(v.objs, s) && r != TableEntry
    ensures Inv(Hold(v, s, r))
    ensures var w := Hold(v, s, r);
      w == v.(objs := w.objs) && s in w.objs && w.objs[s] == v.objs[s].(refs := v.objs[s].refs + {r})
  {
    hide Descriptors, Table, Generations, Captures;
    HoldKeepsDescriptors(v, s, r);
    HoldKeepsTable(v, s, r);
    HoldKeepsGenerations(v, s, r);
    HoldKeepsCaptures(v, s, r);
  }

  /** Nothing in the state says that the variable `r` still exists. */
  predicate Forgotten(v: Server, r: Ref) {
    match r
    case TableEntry => false
    case MainVar => v.main.phase == AtLoop
    case RemovedVar => v.main.phase != Unlinked && v.main.phase != Raised
    case Capture(t) => t in v.tasks && v.tasks[t].Over?
    case Local(id) => id in v.senders && v.senders[id].Gone?
  }

  /** Only the last reference closes the descriptor. */
  lemma DropKeepsDescriptors(v: Server, s: Session, r: Ref)
    requires s in v.objs && r in v.objs[s].refs && Descriptors(v.objs, v.kernel)
    ensures Descriptors(Drop(v, s, r).objs, Drop(v, s, r).kernel)
  {
  }

  lemma DropKeepsTable(v: Server, s: Session, r: Ref)
    requires s in v.objs && r != TableEntry && Table(v.objs, v.sessions)
    ensures Table(Drop(v, s, r).objs, v.sessions)
  {
  }

  lemma DropKeepsGenerations(v: Server, s: Session, r: Ref)
    requires s in v.objs && r != TableEntry && Generations(v.objs, v.nextGeneration)
    ensures Generations(Drop(v, s, r).objs, v.nextGeneration)
  {
  }

  lemma DropKeepsCaptures(v: Server, s: Session, r: Ref)
    requires Captures(v.objs, v.tasks, v.main, v.nextGeneration) && s in v.objs && Forgotten(v, r)
    ensures Captures(Drop(v, s, r).objs, v.tasks, v.main, v.nextGeneration)
  {
  }

  lemma DropKeeps(v: Server, s: Session, r: Ref)
    requires Inv(v) && s in v.objs && r in v.objs[s].refs && Forgotten(v, r)
    ensures Inv(Drop(v, s, r))
  {
    hide Descriptors, Table, Generations, Captures;
    DropKeepsDescriptors(v, s, r);
    DropKeepsTable(v, s, r);
    DropKeepsGenerations(v, s, r);
    DropKeepsCaptures(v, s, r);
  }

  // ---------------------------------------------------------------- every step keeps it

  lemma AcceptKeepsDescriptors(v: Server, fd: Fd, s: Session)
    requires Descriptors(v.objs, v.kernel) && DoAccept(v, fd, s).Some?
    ensures var w := DoAccept(v, fd, s).value; Descriptors(w.objs, w.kernel)
  {
  }

  /** A number accept4 returns is not in the table: table entries keep theirs open. */
  lemma AcceptKeepsTable(v: Server, fd: Fd, s: Session)
    requires Descriptors(v.objs, v.kernel) && Table(v.objs, v.sessions) && DoAccept(v, fd, s).Some?
    ensures var w := DoAccept(v, fd, s).value; Table(w.objs, w.sessions)
  {
    assert fd in v.sessions ==> Alive(v.objs, v.sessions[fd]);
    hide Descriptors;
  }

  lemma AcceptKeepsGenerations(v: Server, fd: Fd, s: Session)
    requires Generations(v.objs, v.nextGeneration) && DoAccept(v, fd, s).Some?
    ensures var w := DoAccept(v, fd, s).value; Generations(w.objs, w.nextGeneration)
  {
  }

  lemma AcceptKeepsCaptures(v: Server, fd: Fd, s: Session)
    requires Captures(v.objs, v.tasks, v.main, v.nextGeneration) && DoAccept(v, fd, s).Some?
    ensures var w := DoAccept(v, fd, s).value; Captures(w.objs, w.tasks, w.main, w.nextGeneration)
  {
  }

  lemma AcceptKeeps(v: Server, fd: Fd, s: Session)
    requires Inv(v) && DoAccept(v, fd, s).Some?
    ensures Inv(DoAccept(v, fd, s).value)
  {
    hide Descriptors, Table, Generations, Captures;
    AcceptKeepsDescriptors(v, fd, s);
    AcceptKeepsTable(v, fd, s);
    AcceptKeepsGenerations(v, fd, s);
    AcceptKeepsCaptures(v, fd, s);
  }

  lemma BeginReadKeeps(v: Server, fd: Fd)
    requires Inv(v) && DoBeginRead(v, fd).Some?
    ensures Inv(DoBeginRead(v, fd).value)
  {
    hide Descriptors, Table, Generations, Senders, Delivered, Hold;
    TableAt(v, fd);
    HoldKeeps(v, v.sessions[fd], MainVar);
  }

  lemma NewCapture(v: Server, t: TaskId)
    requires Captures(v.objs, v.tasks, v.main, v.nextGeneration) && Generations(v.objs, v.nextGeneration)
    requires InTable(v.objs, v.main.session) && Capture(t) in v.objs[v.main.session].refs
    ensures var queued := Queued(v.main.session, v.objs[v.main.session].generation);
      Captures(v.objs, v.tasks[t := queued], v.main, v.nextGeneration)
  {
  }

  lemma DispatchKeeps(v: Server, t: TaskId)
    requires Inv(v) && DoDispatch(v, t).Some?
    ensures Inv(DoDispatch(v, t).value)
  {
    hide Descriptors, Table, Senders, Delivered, Hold;
    HoldKeeps(v, v.main.session, Capture(t));
    NewCapture(Hold(v, v.main.session, Capture(t)), t);
  }

  lemma EndReadKeeps(v: Server)
    requires Inv(v) && DoEndRead(v).Some?
    ensures Inv(DoEndRead(v).value)
  {
    hide Descriptors, Table, Generations, Senders, Delivered, Drop;
    DropKeeps(v.(main := v.main.(phase := AtLoop)), v.main.session, MainVar);
  }

  lemma InTableOnce(v: Server, s: Session)
    requires Table(v.objs, v.sessions) && InTable(v.objs, s)
    ensures v.objs[s].fd in v.sessions && v.sessions[v.objs[s].fd] == s
  {
  }

  lemma UnlinkKeepsDescriptors(v: Server)
    requires Descriptors(v.objs, v.kernel) && DoUnlink(v).Some?
    requires InTable(v.objs, v.sessions[v.main.fd])
    ensures var w := DoUnlink(v).value; Descriptors(w.objs, w.kernel)
  {
    assert RemovedVar in DoUnlink(v).value.objs[v.sessions[v.main.fd]].refs;
  }

  lemma UnlinkKeepsTable(v: Server)
    requires Table(v.objs, v.sessions) && DoUnlink(v).Some?
    ensures var w := DoUnlink(v).value; Table(w.objs, w.sessions)
  {
  }

  lemma UnlinkKeepsGenerations(v: Server)
    requires Generations(v.objs, v.nextGeneration) && DoUnlink(v).Some?
    ensures var w := DoUnlink(v).value; Generations(w.objs, w.nextGeneration)
  {
  }

  lemma UnlinkKeepsCaptures(v: Server)
    requires Captures(v.objs, v.tasks, v.main, v.nextGeneration) && DoUnlink(v).Some?
    requires InTable(v.objs, v.sessions[v.main.fd])
    ensures var w := DoUnlink(v).value; Captures(w.objs, w.tasks, w.main, w.nextGeneration)
  {
  }

  lemma UnlinkKeeps(v: Server)
    requires Inv(v) && DoUnlink(v).Some?
    ensures Inv(DoUnlink(v).value)
  {
    hide Descriptors, Table, Generations, Captures;
    TableAt(v, v.main.fd);
    InTableOnce(v, v.main.session);
    UnlinkKeepsDescriptors(v);
    UnlinkKeepsTable(v);
    UnlinkKeepsGenerations(v);
    UnlinkKeepsCaptures(v);
  }

  lemma RaiseKeepsDescriptors(v: Server)
    requires Descriptors(v.objs, v.kernel) && DoRaise(v).Some?
    ensures var w := DoRaise(v).value; Descriptors(w.objs, w.kernel)
  {
  }

  lemma RaiseKeepsTable(v: Server)
    requires Table(v.objs, v.sessions) && Generations(v.objs, v.nextGeneration)
    requires DoRaise(v).Some? && !InTable(v.objs, v.main.session)
    ensures var w := DoRaise(v).value; Table(w.objs, w.sessions) && Generations(w.objs, w.nextGeneration)
  {
  }

  lemma RaiseKeepsCaptures(v: Server)
    requires Captures(v.objs, v.tasks, v.main, v.nextGeneration) && DoRaise(v).Some? && !InTable(v.objs, v.main.session)
    ensures var w := DoRaise(v).value; Captures(w.objs, w.tasks, w.main, w.nextGeneration)
  {
  }

  lemma RaiseKeeps(v: Server)
    requires Inv(v) && DoRaise(v).Some?
    ensures Inv(DoRaise(v).value)
  {
    hide Descriptors, Table, Generations, Captures;
    RaiseKeepsDescriptors(v);
    RaiseKeepsTable(v);
    RaiseKeepsCaptures(v);
  }

  lemma ShutdownKeeps(v: Server)
    requires Inv(v) && DoShutdown(v).Some?
    ensures Inv(DoShutdown(v).value)
  {
    hide Table, Generations, Captures, Senders;
    assert Alive(v.objs, v.main.session);
  }

  lemma EndRemoveKeeps(v: Server)
    requires Inv(v) && DoEndRemove(v).Some?
    ensures Inv(DoEndRemove(v).value)
  {
    hide Descriptors, Table, Generations, Senders, Delivered, Drop;
    DropKeeps(v.(main := v.main.(phase := Returning)), v.main.session, RemovedVar);
  }

  lemma ReturnKeeps(v: Server)
    requires Inv(v) && DoReturn(v).Some?
    ensures Inv(DoReturn(v).value)
  {
    hide Descriptors, Table, Generations, Senders, Delivered, Drop;
    DropKeeps(v.(main := v.main.(phase := AtLoop)), v.main.session, MainVar);
  }

  lemma StartKeeps(v: Server, t: TaskId)
    requires Inv(v) && DoStart(v, t).Some?
    ensures Inv(DoStart(v, t).value)
  {
    hide Descriptors, Table, Generations, Senders, Delivered, Drop, EventLoop;
    assert Capture(t) in v.objs[v.tasks[t].session].refs;
    if v.objs[v.tasks[t].session].generation != v.tasks[t].generation {
      DropKeeps(v.(tasks := v.tasks[t := Over]), v.tasks[t].session, Capture(t));
    }
  }

  lemma ReplyKeeps(v: Server, t: TaskId)
    requires Inv(v) && DoReply(v, t).Some?
    ensures Inv(DoReply(v, t).value)
  {
    hide Table, Generations, EventLoop, Senders;
    assert Alive(v.objs, v.tasks[t].session);
  }

  lemma EndKeeps(v: Server, t: TaskId)
    requires Inv(v) && DoEnd(v, t).Some?
    ensures Inv(DoEnd(v, t).value)
  {
    hide Descriptors, Table, Generations, Senders, Delivered, Drop, EventLoop;
    DropKeeps(v.(tasks := v.tasks[t := Over]), v.tasks[t].session, Capture(t));
  }

  lemma FindKeeps(v: Server, id: nat, fd: Fd)
    requires Inv(v) && DoFind(v, id, fd).Some?
    ensures Inv(DoFind(v, id, fd).value)
  {
    hide Descriptors, Table, Generations, Captures, Delivered, EventLoop, Hold;
    TableAt(v, fd);
    HoldKeeps(v, v.sessions[fd], Local(id));
  }

  /** The table entry under a live session's descriptor is that session. */
  lemma SameDescriptor(v: Server, x: Session)
    requires Descriptors(v.objs, v.kernel) && Table(v.objs, v.sessions) && Alive(v.objs, x)
    requires v.objs[x].fd in v.sessions
    ensures v.sessions[v.objs[x].fd] == x
  {
    assert Alive(v.objs, v.sessions[v.objs[x].fd]);
  }

  lemma SendLookupKeeps(v: Server, id: nat, x: Session, from: Ref)
    requires Inv(v) && DoSendLookup(v, id, x, from).Some?
    ensures Inv(DoSendLookup(v, id, x, from).value)
  {
    hide Descriptors, Table, Generations, Captures, Delivered, EventLoop, Hold;
    if v.objs[x].fd in v.sessions {
      SameDescriptor(v, x);
      TableAt(v, v.objs[x].fd);
      HoldKeeps(v, x, Local(id));
    }
  }

  lemma WriteKeeps(v: Server, id: nat)
    requires Inv(v) && DoWrite(v, id).Some?
    ensures Inv(DoWrite(v, id).value)
  {
    hide Table, Generations, Captures, EventLoop;
    assert Alive(v.objs, v.senders[id].holds);
  }

  lemma LetGoKeeps(v: Server, id: nat)
    requires Inv(v) && DoLetGo(v, id).Some?
    ensures Inv(DoLetGo(v, id).value)
  {
    hide Descriptors, Table, Generations, Captures, Delivered, Drop, EventLoop;
    assert Local(id) in v.objs[v.senders[id].holds].refs;
    DropKeeps(v.(senders := v.senders[id := Gone]), v.senders[id].holds, Local(id));
  }

  lemma StepKeeps(v: Server, a: Action)
    requires Inv(v) && Step(v, a).Some?
    ensures Inv(Step(v, a).value)
  {
    hide Inv;
    match a
    case Accept(fd, s) => AcceptKeeps(v, fd, s);
    case BeginRead(fd) => BeginReadKeeps(v, fd);
    case Dispatch(t) => DispatchKeeps(v, t);
    case EndRead => EndReadKeeps(v);
    case Unlink => UnlinkKeeps(v);
    case RaiseGeneration => RaiseKeeps(v);
    case ShutdownWrite => ShutdownKeeps(v);
    case EndRemove => EndRemoveKeeps(v);
    case Return => ReturnKeeps(v);
    case StartTask(t) => StartKeeps(v, t);
    case Reply(t) => ReplyKeeps(v, t);
    case EndTask(t) => EndKeeps(v, t);
    case Find(id, fd) => FindKeeps(v, id, fd);
    case SendLookup(id, x, from) => SendLookupKeeps(v, id, x, from);
    case Write(id) => WriteKeeps(v, id);
    case LetGo(id) => LetGoKeeps(v, id);
  }

  lemma {:induction false} RunKeeps(v: Server, acts: seq<Action>)
    requires Inv(v) && Run(v, acts).Some?
    ensures Inv(Run(v, acts).value)
    decreases |acts|
  {
    hide Inv, Step;
    if acts != [] {
      StepKeeps(v, acts[0]);
      RunKeeps(Step(v, acts[0]).value, acts[1..]);
    }
  }

  lemma StartInv()
    ensures Inv(START)
  {
  }

  lemma Reachable(acts: seq<Action>)
    requires Run(START, acts).Some?
    ensures Inv(Run(START, acts).value)
  {
    hide Run, Inv;
    StartInv();
    RunKeeps(START, acts);
  }

  // ---------------------------------------------------------------- what it means

  /** Sessions that still exist have different descriptors, each open and connected to that
      session, and the table maps a descriptor to the session that owns it. */
  ghost predicate Owned(v: Server) {
    && (forall s, r :: Alive(v.objs, s) && Alive(v.objs, r) && s != r ==> v.objs[s].fd != v.objs[r].fd)
    && (forall s :: Alive(v.objs, s) ==> v.objs[s].fd in v.kernel && v.kernel[v.objs[s].fd] == s)
    && (forall fd :: fd in v.kernel ==> Alive(v.objs, v.kernel[fd]))
    && (forall fd :: fd in v.sessions ==> v.sessions[fd] in v.objs && v.objs[v.sessions[fd]].fd == fd)
  }

  lemma InvOwned(v: Server)
    requires Inv(v)
    ensures Owned(v)
  {
    hide Generations, Captures, Senders, EventLoop;
  }

  /** In every run descriptors are owned, and everything sent or shut down so far, through
      whatever descriptor number, hit the connection it was meant for. */
  lemma DescriptorsAreOwned(acts: seq<Action>)
    requires Run(START, acts).Some?
    ensures Owned(Run(START, acts).value) && Delivered(Run(START, acts).value.ops)
  {
    hide Run;
    Reachable(acts);
    InvOwned(Run(START, acts).value);
  }

  /** A thread that sends to the descriptor of a session it keeps alive gets hold of that
      session when the descriptor is in the table, and of none otherwise: in every reachable
      state. */
  lemma SendReachesItsTarget(acts: seq<Action>, id: nat, x: Session, from: Ref)
    requires Run(START, acts).Some?
    requires var v := Run(START, acts).value; id !in v.senders && x in v.objs && from in v.objs[x].refs
    ensures var v := Run(START, acts).value;
      DoSendLookup(v, id, x, from) == Some(
        if v.objs[x].fd in v.sessions then Hold(v, x, Local(id)).(senders := v.senders[id := Sender(x, x)]) else v)
  {
    hide Run;
    Reachable(acts);
    var v := Run(START, acts).value;
    hide Generations, Captures, Senders, EventLoop;
    if v.objs[x].fd in v.sessions {
      SameDescriptor(v, x);
    }
  }

  lemma QueuedForRemoved(v: Server, t: TaskId)
    requires Captures(v.objs, v.tasks, v.main, v.nextGeneration)
    requires t in v.tasks && v.tasks[t].Queued? && Removed(v.objs, v.main, v.tasks[t].session)
    ensures DoStart(v, t).Some? && DoStart(v, t).value.tasks[t] == Over
  {
  }

  /** In every run no handler was ever called for a session whose removal had raised its
      generation, and the tasks still queued for such sessions can only be dropped; sessions
      in the table have different generations below the counter. */
  lemma StaleTasksNeverRun(acts: seq<Action>, t: TaskId)
    requires Run(START, acts).Some?
    ensures var v := Run(START, acts).value;
      && !v.stale
      && Generations(v.objs, v.nextGeneration)
      && (t in v.tasks && v.tasks[t].Queued? && Removed(v.objs, v.main, v.tasks[t].session) ==>
            DoStart(v, t).Some? && DoStart(v, t).value.tasks[t] == Over)
  {
    hide Run;
    Reachable(acts);
    var v := Run(START, acts).value;
    if t in v.tasks && v.tasks[t].Queued? && Removed(v.objs, v.main, v.tasks[t].session) {
      QueuedForRemoved(v, t);
    }
    hide Descriptors, Table, Generations, Captures, Senders, EventLoop;
  }

  // ---------------------------------------------------------------- what happens

  /** While it reads, the event loop works for the session under its descriptor. */
  lemma ReadingFacts(v: Server)
    requires Inv(v) && v.main.phase == Reading
    ensures var s, fd := v.main.session, v.main.fd;
      && fd in v.sessions && v.sessions[fd] == s && s in v.objs && v.objs[s].fd == fd
      && v.objs[s].generation < v.nextGeneration && MainVar in v.objs[s].refs
  {
    hide Descriptors, Captures, Senders;
  }

  /** A free descriptor can be accepted: a new session in the table, alone under a generation
      of its own. */
  lemma AcceptWorks(acts: seq<Action>, fd: Fd, s: Session)
    requires Run(START, acts).Some?
    requires var v := Run(START, acts).value; v.main.phase == AtLoop && fd !in v.kernel && s !in v.objs
    ensures var v := Run(START, acts).value; var w := DoAccept(v, fd, s);
      && w.Some? && w.value.sessions == v.sessions[fd := s] && w.value.kernel == v.kernel[fd := s]
      && w.value.objs == v.objs[s := Obj(fd, v.nextGeneration, {TableEntry})]
      && forall r :: InTable(v.objs, r) ==> v.objs[r].generation < v.nextGeneration
  {
    hide Run;
    Reachable(acts);
    hide Descriptors, Table, EventLoop, Captures, Senders;
  }

  /** An event on a descriptor in the table reads from the session it stands for, ... */
  lemma ReadWorks(acts: seq<Action>, fd: Fd)
    requires Run(START, acts).Some?
    requires var v := Run(START, acts).value; v.main.phase == AtLoop && fd in v.sessions
    ensures var v := Run(START, acts).value; var w := DoBeginRead(v, fd);
      w.Some? && w.value.main == Main(Reading, fd, v.sessions[fd]) && w.value.tasks == v.tasks
  {
    hide Run;
    Reachable(acts);
    TableAt(Run(START, acts).value, fd);
    hide Descriptors, Table, Generations, EventLoop, Captures, Senders;
  }

  /** ... each message becomes a task of that session, with its generation and a reference, ... */
  lemma DispatchWorks(acts: seq<Action>, t: TaskId)
    requires Run(START, acts).Some?
    requires var v := Run(START, acts).value; v.main.phase == Reading && t !in v.tasks
    ensures var v := Run(START, acts).value; var s, w := v.main.session, DoDispatch(v, t);
      && v.main.fd in v.sessions && v.sessions[v.main.fd] == s && s in v.objs
      && w.Some? && w.value.tasks == v.tasks[t := Queued(s, v.objs[s].generation)]
      && w.value.sessions == v.sessions && Capture(t) in w.value.objs[s].refs
  {
    hide Run;
    Reachable(acts);
    hide Descriptors, Generations, Captures, Senders;
  }

  /** ... and when all are dispatched the event loop lets go of the session. */
  lemma ReadEnds(acts: seq<Action>)
    requires Run(START, acts).Some? && Run(START, acts).value.main.phase == Reading
    ensures var v := Run(START, acts).value; var s, w := v.main.session, DoEndRead(v);
      && w.Some? && w.value.main.phase == AtLoop && (w.value.sessions, w.value.tasks) == (v.sessions, v.tasks)
      && s in v.objs && w.value.kernel == v.kernel
      && w.value.objs == v.objs[s := v.objs[s].(refs := v.objs[s].refs - {MainVar})]
  {
    hide Run;
    Reachable(acts);
    var v := Run(START, acts).value;
    ReadingFacts(v);
    TableAt(v, v.main.fd);
    hide Inv;
    assert TableEntry in v.objs[v.main.session].refs - {MainVar};
  }

  /** When a task starts its handler runs, unless the session's removal has raised its
      generation: then, and only then, the task is dropped. */
  lemma StartsExactly(acts: seq<Action>, t: TaskId)
    requires Run(START, acts).Some?
    requires var v := Run(START, acts).value; t in v.tasks && v.tasks[t].Queued?
    ensures var v := Run(START, acts).value; var s, w := v.tasks[t].session, DoStart(v, t);
      && w.Some? && s in v.objs
      && (InTable(v.objs, s) ==> w.value == v.(tasks := v.tasks[t := Running(s)]))
      && (v.main.phase == Unlinked && v.main.session == s ==> w.value == v.(tasks := v.tasks[t := Running(s)]))
      && (!InTable(v.objs, s) && !(v.main.phase == Unlinked && v.main.session == s) ==>
            w.value.tasks == v.tasks[t := Over] && Capture(t) !in w.value.objs[s].refs)
      && (w.value.tasks[t] == Over <==> v.objs[s].generation > v.tasks[t].generation)
  {
    hide Run;
    Reachable(acts);
    hide Descriptors, Table, Generations, EventLoop, Senders;
  }

  /** A running handler can reply on its own connection, and lets its session go at its end. */
  lemma HandlerWorks(acts: seq<Action>, t: TaskId)
    requires Run(START, acts).Some?
    requires var v := Run(START, acts).value; t in v.tasks && v.tasks[t].Running?
    ensures var v := Run(START, acts).value; var s := v.tasks[t].session;
      && s in v.objs
      && DoReply(v, t) == Some(v.(ops := v.ops + [Op(s, s)]))
      && DoEnd(v, t).Some? && DoEnd(v, t).value.tasks == v.tasks[t := Over]
      && DoEnd(v, t).value.objs[s].refs == v.objs[s].refs - {Capture(t)}
  {
    hide Run;
    Reachable(acts);
    var v := Run(START, acts).value;
    assert Capture(t) in v.objs[v.tasks[t].session].refs;
    assert Alive(v.objs, v.tasks[t].session);
    hide Table, Generations, EventLoop, Captures, Senders;
  }

  /** find_session, or a broadcast's list: whatever is in the table can be taken hold of. */
  lemma FindWorks(acts: seq<Action>, id: nat, fd: Fd)
    requires Run(START, acts).Some?
    requires var v := Run(START, acts).value; id !in v.senders && fd in v.sessions
    ensures var v := Run(START, acts).value; var s, w := v.sessions[fd], DoFind(v, id, fd);
      && w.Some? && w.value.senders == v.senders[id := Sender(s, s)]
      && s in w.value.objs && Local(id) in w.value.objs[s].refs
  {
    hide Run;
    Reachable(acts);
    TableAt(Run(START, acts).value, fd);
    hide Descriptors, Table, Generations, EventLoop, Captures, Senders;
  }

  /** Who has taken hold of a session writes to its connection, and lets it go once. */
  lemma SenderWorks(acts: seq<Action>, id: nat)
    requires Run(START, acts).Some?
    requires var v := Run(START, acts).value; id in v.senders && v.senders[id].Sender?
    ensures var v := Run(START, acts).value; var x := v.senders[id].aim;
      && x in v.objs
      && DoWrite(v, id) == Some(v.(ops := v.ops + [Op(x, x)]))
      && DoLetGo(v, id).Some? && DoLetGo(v, id).value.senders == v.senders[id := Gone]
      && DoLetGo(v, id).value.objs[x].refs == v.objs[x].refs - {Local(id)}
  {
    hide Run;
    Reachable(acts);
    var v := Run(START, acts).value;
    assert Local(id) in v.objs[v.senders[id].holds].refs;
    assert Alive(v.objs, v.senders[id].holds);
    hide Table, Generations, EventLoop, Captures;
  }

  lemma UnlinkStep(v: Server) returns (w: Server)
    requires Inv(v) && v.main.phase == Reading
    ensures Step(v, Unlink) == Some(w) && Inv(w) && w.main == v.main.(phase := Unlinked)
    ensures w.sessions == v.sessions - {v.main.fd}
    ensures (w.tasks, w.ops, w.nextGeneration) == (v.tasks, v.ops, v.nextGeneration)
    ensures var s := v.main.session;
      s in v.objs && s in w.objs && w.objs[s].refs == v.objs[s].refs + {RemovedVar} - {TableEntry}
      && w.objs[s].generation == v.objs[s].generation < v.nextGeneration && w.objs[s].fd == v.main.fd
  {
    ReadingFacts(v);
    hide Inv;
    w := DoUnlink(v).value;
    UnlinkKeeps(v);
  }

  lemma RaiseStep(v: Server) returns (w: Server)
    requires Inv(v) && v.main.phase == Unlinked
    ensures Step(v, RaiseGeneration) == Some(w) && Inv(w) && w.main == v.main.(phase := Raised)
    ensures (w.sessions, w.tasks, w.ops) == (v.sessions, v.tasks, v.ops)
    ensures var s := v.main.session;
      s in v.objs && w.objs == v.objs[s := v.objs[s].(generation := v.nextGeneration + 1)]
  {
    w := DoRaise(v).value;
    RaiseKeeps(v);
    hide Descriptors, Table, Generations, Captures, Senders;
  }

  lemma ShutdownStep(v: Server) returns (w: Server)
    requires Inv(v) && v.main.phase == Raised
    ensures Step(v, ShutdownWrite) == Some(w) && Inv(w) && w == v.(ops := v.ops + [Op(v.main.session, v.main.session)])
  {
    w := v.(ops := v.ops + [Op(v.main.session, v.main.session)]);
    assert Alive(v.objs, v.main.session);
    assert DoShutdown(v) == Some(w) by {
      hide Table, Generations, Captures, Senders;
    }
    ShutdownKeeps(v);
  }

  lemma EndRemoveStep(v: Server) returns (w: Server)
    requires Inv(v) && v.main.phase == Raised
    ensures Step(v, EndRemove) == Some(w) && Inv(w) && w.main == v.main.(phase := Returning)
    ensures (w.sessions, w.tasks, w.ops) == (v.sessions, v.tasks, v.ops)
    ensures var s := v.main.session;
      s in v.objs && w.objs == v.objs[s := v.objs[s].(refs := v.objs[s].refs - {RemovedVar})]
  {
    w := DoEndRemove(v).value;
    EndRemoveKeeps(v);
    hide Descriptors, Table, Generations, Captures, Senders;
  }

  lemma ReturnStep(v: Server) returns (w: Server)
    requires Inv(v) && v.main.phase == Returning
    ensures Step(v, Return) == Some(w) && Inv(w) && w.main.phase == AtLoop
    ensures (w.sessions, w.tasks, w.ops) == (v.sessions, v.tasks, v.ops)
    ensures var s := v.main.session;
      && s in v.objs && w.objs == v.objs[s := v.objs[s].(refs := v.objs[s].refs - {MainVar})]
      && (v.objs[s].fd in w.kernel <==> w.objs[s].refs != {})
  {
    w := DoReturn(v).value;
    ReturnKeeps(v);
    assert Alive(v.objs, v.main.session);
    hide Table, Generations, Captures, Senders;
  }

  lemma RunFive(v: Server, acts: seq<Action>, v1: Server, v2: Server, v3: Server, v4: Server, v5: Server)
    requires |acts| == 5
    requires Step(v, acts[0]) == Some(v1) && Step(v1, acts[1]) == Some(v2) && Step(v2, acts[2]) == Some(v3)
    requires Step(v3, acts[3]) == Some(v4) && Step(v4, acts[4]) == Some(v5)
    ensures Run(v, acts) == Some(v5)
  {
    hide Step;
    assert Run(v5, acts[5..]) == Some(v5);
    assert acts[4..][1..] == acts[5..];
    assert Run(v4, acts[4..]) == Some(v5);
    assert acts[3..][1..] == acts[4..];
    assert Run(v3, acts[3..]) == Some(v5);
    assert acts[2..][1..] == acts[3..];
    assert Run(v2, acts[2..]) == Some(v5);
    assert acts[1..][1..] == acts[2..];
    assert Run(v1, acts[1..]) == Some(v5);
  }

  lemma RemovalSteps(v: Server)
    requires Inv(v) && v.main.phase == Reading
    ensures var s, fd := v.main.session, v.main.fd;
      var w := Run(v, [Unlink, RaiseGeneration, ShutdownWrite, EndRemove, Return]);
      && w.Some? && w.value.main.phase == AtLoop && w.value.sessions == v.sessions - {fd} && w.value.tasks == v.tasks
      && s in v.objs && s in w.value.objs && w.value.ops == v.ops + [Op(s, s)]
      && w.value.objs[s].refs == v.objs[s].refs - {TableEntry, MainVar, RemovedVar}
      && w.value.objs[s].generation == v.nextGeneration + 1 > v.objs[s].generation
      && (fd in w.value.kernel <==> w.value.objs[s].refs != {})
  {
    hide Inv, Step;
    var all := [Unlink, RaiseGeneration, ShutdownWrite, EndRemove, Return];
    var s := v.main.session;
    var v1 := UnlinkStep(v);
    var refs := v.objs[s].refs;
    var v2 := RaiseStep(v1);
    var v3 := ShutdownStep(v2);
    var v4 := EndRemoveStep(v3);
    assert v4.objs[s].refs == refs + {RemovedVar} - {TableEntry} - {RemovedVar};
    var v5 := ReturnStep(v4);
    assert v5.objs[s].refs == refs - {TableEntry, MainVar, RemovedVar};
    RunFive(v, all, v1, v2, v3, v4, v5);
    hide Run;
  }

  /** remove_client from the table entry to its return. */
  lemma RemovalWorks(acts: seq<Action>)
    requires Run(START, acts).Some? && Run(START, acts).value.main.phase == Reading
    ensures var v := Run(START, acts).value; var s, fd := v.main.session, v.main.fd;
      var w := Run(v, [Unlink, RaiseGeneration, ShutdownWrite, EndRemove, Return]);
      && w.Some? && w.value.main.phase == AtLoop && w.value.sessions == v.sessions - {fd} && w.value.tasks == v.tasks
      && s in v.objs && s in w.value.objs && w.value.ops == v.ops + [Op(s, s)]
      && w.value.objs[s].refs == v.objs[s].refs - {TableEntry, MainVar, RemovedVar}
      && w.value.objs[s].generation == v.nextGeneration + 1 > v.objs[s].generation
      && (fd in w.value.kernel <==> w.value.objs[s].refs != {})
  {
    var v := Run(START, acts).value;
    hide Run;
    Reachable(acts);
    RemovalSteps(v);
  }
}
