/**
  The worker pool (server/src/thread_pool.cpp) as a machine whose steps are the regions
  under its mutex and the condition-variable signals, in any interleaving.

  A worker is Awake when it is about to take the mutex and look at the predicate, Asleep
  inside cv_.wait, Running a task outside the mutex, or Exited.  `owed` counts enqueue()
  calls that have released the mutex and not yet called notify_one.
*/
module ThreadPool {
  import opened Wrappers

  datatype Worker<T> = Awake | Asleep | Running(task: T) | Exited {
    predicate Up() {
      Awake? || Running?
    }
  }

  /** `accepted`, `popped` and `done` are histories: tasks taken by enqueue, tasks taken off
      the queue, both in order, and tasks that have returned. */
  datatype Pool<T> = Pool(
    tasks: seq<T>,
    stop: bool,
    workers: seq<Worker<T>>,
    owed: nat,
    owedAll: bool,
    accepted: seq<T>,
    popped: seq<T>,
    done: multiset<T>)

  datatype Action<T> =
    | Enqueue(task: T)
    | NotifyOne(woken: Option<nat>)
    | Look(w: nat)
    | WakeSpuriously(w: nat)
    | Finish(w: nat)
    | Stop
    | NotifyAll

  function Start<T>(n: nat): Pool<T> {
    Pool([], false, seq(n, _ => Awake), 0, false, [], [], multiset{})
  }

  function WakeAll<T>(ws: seq<Worker<T>>): (r: seq<Worker<T>>)
    ensures |r| == |ws|
    ensures forall i :: 0 <= i < |ws| ==> r[i] == if ws[i].Asleep? then Awake else ws[i]
  {
    seq(|ws|, i requires 0 <= i < |ws| => if ws[i].Asleep? then Awake else ws[i])
  }

  ghost predicate SomeAsleep<T>(ws: seq<Worker<T>>) {
    exists i :: 0 <= i < |ws| && ws[i].Asleep?
  }

  /** One step, None when it cannot happen.  enqueue() after stop throws and changes
      nothing, so it is no step. */
  ghost function Step<T>(p: Pool<T>, a: Action<T>): Option<Pool<T>> {
    match a
    case Enqueue(t) =>
      if p.stop then None
      else Some(p.(tasks := p.tasks + [t], accepted := p.accepted + [t], owed := p.owed + 1))
    case NotifyOne(woken) =>
      if p.owed == 0 then None
      else if woken.None? then if SomeAsleep(p.workers) then None else Some(p.(owed := p.owed - 1))
      else if woken.value >= |p.workers| || !p.workers[woken.value].Asleep? then None
      else Some(p.(owed := p.owed - 1, workers := p.workers[woken.value := Awake]))
    case Look(w) =>
      if w >= |p.workers| || !p.workers[w].Awake? then None
      else if p.tasks == [] then Some(p.(workers := p.workers[w := if p.stop then Exited else Asleep]))
      else
        Some(p.(tasks := p.tasks[1..], popped := p.popped + [p.tasks[0]],
                workers := p.workers[w := Running(p.tasks[0])]))
    case WakeSpuriously(w) =>
      if w >= |p.workers| || !p.workers[w].Asleep? then None else Some(p.(workers := p.workers[w := Awake]))
    case Finish(w) =>
      if w >= |p.workers| || !p.workers[w].Running? then None
      else Some(p.(done := p.done + multiset{p.workers[w].task}, workers := p.workers[w := Awake]))
    case Stop => if p.stop then None else Some(p.(stop := true, owedAll := true))
    case NotifyAll => if !p.owedAll then None else Some(p.(owedAll := false, workers := WakeAll(p.workers)))
  }

  ghost function Run<T>(p: Pool<T>, acts: seq<Action<T>>): Option<Pool<T>>
    decreases |acts|
  {
    if acts == [] then Some(p)
    else match Step(p, acts[0]) case None => None case Some(q) => Run(q, acts[1..])
  }

  // ---------------------------------------------------------------- the invariant

  function Hand<T>(w: Worker<T>): multiset<T> {
    if w.Running? then multiset{w.task} else multiset{}
  }

  /** The tasks being run. */
  function InHand<T>(ws: seq<Worker<T>>): multiset<T> {
    if ws == [] then multiset{} else InHand(ws[..|ws| - 1]) + Hand(ws[|ws| - 1])
  }

  /** Tasks leave the queue in the order they came; what left is running or has run. */
  ghost predicate Conserved<T>(p: Pool<T>) {
    && p.accepted == p.popped + p.tasks
    && multiset(p.popped) == p.done + InHand(p.workers)
  }

  /** A task in the queue has somebody coming for it. */
  ghost predicate NoLostWakeUp<T>(p: Pool<T>) {
    p.tasks != [] ==>
      && (p.owed > 0 || exists i :: 0 <= i < |p.workers| && p.workers[i].Up())
      && forall i :: 0 <= i < |p.workers| ==> !p.workers[i].Exited?
  }

  ghost predicate StopIsSeen<T>(p: Pool<T>) {
    && (forall i :: 0 <= i < |p.workers| && p.workers[i].Exited? ==> p.stop)
    && (p.stop && SomeAsleep(p.workers) ==> p.owedAll)
  }

  ghost predicate Inv<T>(p: Pool<T>) {
    |p.workers| > 0 && Conserved(p) && NoLostWakeUp(p) && StopIsSeen(p)
  }

  lemma AddToBoth<T>(a: multiset<T>, b: multiset<T>, more: multiset<T>, x: multiset<T>, y: multiset<T>)
    requires a + x == b + y
    ensures (a + more) + x == (b + more) + y
  {
    assert (a + more) + x == (a + x) + more;
  }

  lemma {:induction false} InHandUpdate<T>(ws: seq<Worker<T>>, i: nat, w: Worker<T>)
    requires i < |ws|
    ensures InHand(ws[i := w]) + Hand(ws[i]) == InHand(ws) + Hand(w)
    decreases |ws|
  {
    hide Hand;
    var n, xs := |ws| - 1, ws[i := w];
    if i == n {
      assert xs[..n] == ws[..n];
      AddToBoth(InHand(ws[..n]), InHand(ws[..n]), Hand(w), Hand(ws[n]), Hand(ws[n]));
    } else {
      assert xs[..n] == ws[..n][i := w];
      InHandUpdate(ws[..n], i, w);
      AddToBoth(InHand(xs[..n]), InHand(ws[..n]), Hand(ws[n]), Hand(ws[i]), Hand(w));
    }
  }

  lemma InHandIdle<T>(ws: seq<Worker<T>>, i: nat, w: Worker<T>)
    requires i < |ws| && !ws[i].Running? && !w.Running?
    ensures InHand(ws[i := w]) == InHand(ws)
  {
    InHandUpdate(ws, i, w);
    assert InHand(ws[i := w]) + multiset{} == InHand(ws[i := w]);
  }

  lemma {:induction false} InHandWakeAll<T>(ws: seq<Worker<T>>)
    ensures InHand(WakeAll(ws)) == InHand(ws)
    decreases |ws|
  {
    if ws != [] {
      assert WakeAll(ws)[..|ws| - 1] == WakeAll(ws[..|ws| - 1]);
      InHandWakeAll(ws[..|ws| - 1]);
    }
  }

  lemma {:induction false} InHandStart<T>(n: nat)
    ensures InHand(Start<T>(n).workers) == multiset{}
    decreases n
  {
    if n > 0 {
      assert Start<T>(n).workers[..n - 1] == Start<T>(n - 1).workers;
      InHandStart<T>(n - 1);
    }
  }

  lemma OrderKeeps<T>(p: Pool<T>, a: Action<T>)
    requires p.accepted == p.popped + p.tasks && Step(p, a).Some?
    ensures var q := Step(p, a).value; q.accepted == q.popped + q.tasks
  {
    if a.Enqueue? {
      assert p.popped + (p.tasks + [a.task]) == (p.popped + p.tasks) + [a.task];
    } else if a.Look? && p.tasks != [] {
      assert p.popped + p.tasks == (p.popped + [p.tasks[0]]) + p.tasks[1..];
    }
  }

  /** What a step does to the workers, seen from the tasks in hand. */
  lemma HandsKeep<T>(p: Pool<T>, a: Action<T>)
    requires Step(p, a).Some?
    ensures var q := Step(p, a).value;
      && (a.Look? && p.tasks != [] ==>
            InHand(q.workers) == InHand(p.workers) + multiset{p.tasks[0]} && q.popped == p.popped + [p.tasks[0]])
      && (a.Finish? ==> InHand(q.workers) + multiset{p.workers[a.w].task} == InHand(p.workers) && q.popped == p.popped)
      && (!(a.Look? && p.tasks != []) && !a.Finish? ==>
            InHand(q.workers) == InHand(p.workers) && q.popped == p.popped && q.done == p.done)
  {
    hide InHand;
    var q := Step(p, a).value;
    if a.NotifyAll? {
      InHandWakeAll(p.workers);
    } else if a.NotifyOne? && a.woken.Some? {
      InHandIdle(p.workers, a.woken.value, Awake);
    } else if a.WakeSpuriously? || (a.Look? && p.tasks == []) {
      InHandIdle(p.workers, a.w, q.workers[a.w]);
    } else if a.Look? {
      InHandUpdate(p.workers, a.w, q.workers[a.w]);
      assert InHand(q.workers) + multiset{} == InHand(q.workers);
    } else if a.Finish? {
      InHandUpdate(p.workers, a.w, Awake);
      assert InHand(p.workers) + multiset{} == InHand(p.workers);
    }
  }

  lemma CountKeeps<T>(p: Pool<T>, a: Action<T>)
    requires multiset(p.popped) == p.done + InHand(p.workers) && Step(p, a).Some?
    ensures var q := Step(p, a).value; multiset(q.popped) == q.done + InHand(q.workers)
  {
    hide InHand;
    HandsKeep(p, a);
    var q := Step(p, a).value;
    if a.Finish? {
      assert p.done + (InHand(q.workers) + multiset{p.workers[a.w].task}) == q.done + InHand(q.workers);
    } else if a.Look? && p.tasks != [] {
      assert multiset(q.popped) == multiset(p.popped) + multiset{p.tasks[0]};
    }
  }

  lemma ConservedKeeps<T>(p: Pool<T>, a: Action<T>)
    requires Conserved(p) && Step(p, a).Some?
    ensures Conserved(Step(p, a).value)
  {
    hide Step;
    OrderKeeps(p, a);
    CountKeeps(p, a);
  }

  lemma WakeUpKeeps<T>(p: Pool<T>, a: Action<T>)
    requires |p.workers| > 0 && NoLostWakeUp(p) && StopIsSeen(p) && Step(p, a).Some?
    ensures NoLostWakeUp(Step(p, a).value) && StopIsSeen(Step(p, a).value)
  {
    var q := Step(p, a).value;
    match a
    case Enqueue(t) =>
    case NotifyOne(None) => assert p.workers[0].Up() || p.workers[0].Exited?;
    case NotifyOne(Some(w)) => assert q.workers[w].Up();
    case Look(w) => assert q.tasks != [] ==> q.workers[w].Up();
    case WakeSpuriously(w) => assert q.workers[w].Up();
    case Finish(w) => assert q.workers[w].Up();
    case Stop =>
    case NotifyAll =>
      forall i | 0 <= i < |p.workers| && p.workers[i].Up() ensures q.workers[i].Up() {
      }
  }

  lemma WorkersStay<T>(p: Pool<T>, a: Action<T>)
    requires Step(p, a).Some?
    ensures |Step(p, a).value.workers| == |p.workers|
  {
  }

  lemma {:induction false} RunKeeps<T>(p: Pool<T>, acts: seq<Action<T>>)
    requires Inv(p) && Run(p, acts).Some?
    ensures Inv(Run(p, acts).value)
    decreases |acts|
  {
    hide Step, Conserved, NoLostWakeUp, StopIsSeen;
    if acts != [] {
      ConservedKeeps(p, acts[0]);
      WakeUpKeeps(p, acts[0]);
      WorkersStay(p, acts[0]);
      RunKeeps(Step(p, acts[0]).value, acts[1..]);
    }
  }

  /** In every reachable state of a pool of `n` workers: tasks are taken in the order they
      were accepted, each accepted task is queued, running or done exactly once, and a
      queued task always has an awake worker or an owed notify_one, with no worker gone. */
  lemma EveryReachableState<T>(n: nat, acts: seq<Action<T>>)
    requires n > 0 && Run(Start<T>(n), acts).Some?
    ensures var p := Run(Start<T>(n), acts).value;
      && p.accepted == p.popped + p.tasks
      && multiset(p.accepted) == multiset(p.tasks) + InHand(p.workers) + p.done
      && NoLostWakeUp(p)
  {
    InHandStart<T>(n);
    RunKeeps(Start<T>(n), acts);
  }

  /** The tasks handed to enqueue() calls that did not throw. */
  function Handed<T>(acts: seq<Action<T>>): seq<T> {
    if acts == [] then [] else (if acts[0].Enqueue? then [acts[0].task] else []) + Handed(acts[1..])
  }

  /** enqueue() succeeds exactly until the pool is stopped, which happens at most once, and
      every task of a call that succeeded is accepted, in the order of the calls. */
  lemma {:induction false} HandedIsAccepted<T>(p: Pool<T>, acts: seq<Action<T>>, next: T)
    requires Run(p, acts).Some?
    ensures var q := Run(p, acts).value;
      && q.accepted == p.accepted + Handed(acts)
      && (q.stop <==> p.stop || Stop in acts)
      && (Step(q, Enqueue(next)).Some? <==> !p.stop && Stop !in acts)
      && (Step(q, Stop).Some? <==> !p.stop && Stop !in acts)
    decreases |acts|
  {
    if acts != [] {
      var q := Step(p, acts[0]).value;
      assert acts == [acts[0]] + acts[1..];
      HandedIsAccepted(q, acts[1..], next);
      assert q.accepted + Handed(acts[1..]) == p.accepted + Handed(acts);
    } else {
      assert p.accepted + [] == p.accepted;
    }
  }

  // ---------------------------------------------------------------- draining

  function Rank<T>(w: Worker<T>): nat {
    match w case Running(_) => 3 case Asleep => 2 case Awake => 1 case Exited => 0
  }

  function Sum<T>(ws: seq<Worker<T>>, weigh: Worker<T> -> nat): nat {
    if ws == [] then 0 else Sum(ws[..|ws| - 1], weigh) + weigh(ws[|ws| - 1])
  }

  function Ranks<T>(ws: seq<Worker<T>>): nat {
    Sum(ws, Rank)
  }

  /** Bounds the number of steps a stopped pool can still take. */
  function Measure<T>(p: Pool<T>): nat {
    3 * |p.tasks| + Ranks(p.workers) + p.owed + if p.owedAll then 1 else 0
  }

  lemma {:induction false} SumUpdate<T>(ws: seq<Worker<T>>, weigh: Worker<T> -> nat, i: nat, w: Worker<T>)
    requires i < |ws|
    ensures Sum(ws[i := w], weigh) + weigh(ws[i]) == Sum(ws, weigh) + weigh(w)
    decreases |ws|
  {
    var n := |ws| - 1;
    if i == n {
      assert ws[i := w][..n] == ws[..n];
    } else {
      assert ws[i := w][..n] == ws[..n][i := w];
      SumUpdate(ws[..n], weigh, i, w);
    }
  }

  lemma RanksUpdate<T>(ws: seq<Worker<T>>, i: nat, w: Worker<T>)
    requires i < |ws|
    ensures Ranks(ws[i := w]) + Rank(ws[i]) == Ranks(ws) + Rank(w)
  {
    SumUpdate(ws, Rank, i, w);
  }

  lemma {:induction false} RanksWakeAll<T>(ws: seq<Worker<T>>)
    ensures Ranks(WakeAll(ws)) <= Ranks(ws)
    decreases |ws|
  {
    if ws != [] {
      assert WakeAll(ws)[..|ws| - 1] == WakeAll(ws[..|ws| - 1]);
      RanksWakeAll(ws[..|ws| - 1]);
    }
  }

  lemma EveryStepDescends<T>(p: Pool<T>, a: Action<T>)
    requires p.stop && Step(p, a).Some?
    ensures Step(p, a).value.stop && Measure(Step(p, a).value) < Measure(p)
  {
    var q := Step(p, a).value;
    match a
    case NotifyOne(Some(w)) => RanksUpdate(p.workers, w, Awake);
    case Look(w) => RanksUpdate(p.workers, w, q.workers[w]);
    case WakeSpuriously(w) => RanksUpdate(p.workers, w, Awake);
    case Finish(w) => RanksUpdate(p.workers, w, Awake);
    case NotifyAll => RanksWakeAll(p.workers);
    case _ =>
  }

  /** After stop_ is set no schedule runs for more than `Measure` steps. */
  lemma {:induction false} DrainIsBounded<T>(p: Pool<T>, acts: seq<Action<T>>)
    requires p.stop && Run(p, acts).Some?
    ensures |acts| + Measure(Run(p, acts).value) <= Measure(p)
    decreases |acts|
  {
    if acts != [] {
      EveryStepDescends(p, acts[0]);
      DrainIsBounded(Step(p, acts[0]).value, acts[1..]);
    }
  }

  lemma {:induction false} NobodyRunning<T>(ws: seq<Worker<T>>)
    requires forall i :: 0 <= i < |ws| ==> !ws[i].Running?
    ensures InHand(ws) == multiset{}
    decreases |ws|
  {
    if ws != [] {
      NobodyRunning(ws[..|ws| - 1]);
    }
  }

  lemma AllGone<T>(p: Pool<T>)
    requires Inv(p) && forall i :: 0 <= i < |p.workers| ==> p.workers[i].Exited?
    ensures p.tasks == [] && p.done == multiset(p.accepted)
  {
    assert p.workers[0].Exited?;
    NobodyRunning(p.workers);
    assert p.popped + [] == p.popped;
  }

  /** A stopped pool in which nothing can happen any more has run everything and every
      worker has exited; until then some step other than a spurious wake-up is possible. */
  lemma DrainEndsEmpty<T>(p: Pool<T>)
    requires Inv(p) && p.stop
    requires forall a: Action<T> :: a.WakeSpuriously? || Step(p, a).None?
    ensures forall i :: 0 <= i < |p.workers| ==> p.workers[i].Exited?
    ensures p.tasks == [] && p.done == multiset(p.accepted)
  {
    forall i | 0 <= i < |p.workers| ensures p.workers[i].Exited? {
      assert Step(p, Look(i)).None? && Step(p, Finish(i)).None? && Step(p, NotifyAll).None?;
    }
    AllGone(p);
  }

  // ---------------------------------------------------------------- while it is not stopped

  function Toil<T>(w: Worker<T>): nat {
    match w case Running(_) => 2 case Awake => 1 case _ => 0
  }

  /** Bounds the number of steps a pool that is left alone can take before it rests. */
  function Effort<T>(p: Pool<T>): nat {
    2 * |p.tasks| + Sum(p.workers, Toil) + 2 * p.owed
  }

  /** Something from outside: a new task, the destructor, or a spurious wake-up. */
  predicate FromOutside<T>(a: Action<T>) {
    a.Enqueue? || a.WakeSpuriously? || a.Stop? || a.NotifyAll?
  }

  lemma WorkDescends<T>(p: Pool<T>, a: Action<T>)
    requires !p.stop && !FromOutside(a) && Step(p, a).Some?
    ensures !Step(p, a).value.stop && Step(p, a).value.accepted == p.accepted
    ensures Effort(Step(p, a).value) < Effort(p)
  {
    var q := Step(p, a).value;
    match a
    case NotifyOne(Some(w)) => SumUpdate(p.workers, Toil, w, Awake);
    case Look(w) => SumUpdate(p.workers, Toil, w, q.workers[w]);
    case Finish(w) => SumUpdate(p.workers, Toil, w, Awake);
    case _ =>
  }

  /** A pool left alone comes to rest within `Effort` steps, whatever the schedule. */
  lemma {:induction false} WorkIsBounded<T>(p: Pool<T>, acts: seq<Action<T>>)
    requires !p.stop && Run(p, acts).Some? && forall a <- acts :: !FromOutside(a)
    ensures var q := Run(p, acts).value;
      !q.stop && q.accepted == p.accepted && |acts| + Effort(q) <= Effort(p)
    decreases |acts|
  {
    hide Step, Effort, FromOutside;
    if acts != [] {
      WorkDescends(p, acts[0]);
      WorkIsBounded(Step(p, acts[0]).value, acts[1..]);
    }
  }

  /** An unstopped pool that can only go on by something from outside has run every task it
      accepted, and its workers are all waiting for more. */
  lemma RestsWhenDone<T>(p: Pool<T>)
    requires Inv(p) && !p.stop
    requires forall a: Action<T> :: FromOutside(a) || Step(p, a).None?
    ensures p.tasks == [] && p.done == multiset(p.accepted) && p.owed == 0
    ensures forall i :: 0 <= i < |p.workers| ==> p.workers[i].Asleep?
  {
    forall i | 0 <= i < |p.workers| ensures p.workers[i].Asleep? {
      assert Step(p, Look(i)).None? && Step(p, Finish(i)).None?;
    }
    assert Step(p, NotifyOne(Some(0))).None?;
    NobodyRunning(p.workers);
    assert p.popped + [] == p.popped;
  }

  // ---------------------------------------------------------------- the code

  lemma NobodyAsleep<T>(p: Pool<T>)
    requires StopIsSeen(p) && p.stop && !p.owedAll
    ensures forall i :: 0 <= i < |p.workers| ==> !p.workers[i].Asleep?
  {
  }

  lemma Follows<T>(p: Pool<T>, a: Action<T>)
    requires Inv(p) && Step(p, a).Some?
    ensures Inv(Step(p, a).value)
    ensures p.stop ==> Measure(Step(p, a).value) < Measure(p)
  {
    hide Step;
    ConservedKeeps(p, a);
    WakeUpKeeps(p, a);
    WorkersStay(p, a);
    if p.stop {
      EveryStepDescends(p, a);
    }
  }

  /** The pool object; each method is one region under mutex_ or one signal. */
  class ThreadPool<T(==)> {
    var tasks: seq<T>
    var stop: bool
    var workers: seq<Worker<T>>
    ghost var owed: nat
    ghost var owedAll: bool
    ghost var accepted: seq<T>
    ghost var popped: seq<T>
    ghost var done: multiset<T>

    ghost function View(): Pool<T>
      reads this
    {
      Pool(tasks, stop, workers, owed, owedAll, accepted, popped, done)
    }

    constructor (n: nat)
      requires n > 0
      ensures View() == Start(n)
    {
      tasks, stop, workers := [], false, seq(n, _ => Awake);
      owed, owedAll, accepted, popped, done := 0, false, [], [], multiset{};
    }

    /** The locked part of enqueue(); false when it throws. */
    method Enqueue(task: T) returns (ok: bool)
      modifies this
      ensures ok == !old(stop)
      ensures ok ==> Step(old(View()), Action.Enqueue(task)) == Some(View())
      ensures !ok ==> View() == old(View()) && Step(old(View()), Action.Enqueue(task)) == None
    {
      if stop {
        return false;
      }
      tasks := tasks + [task];
      accepted, owed := accepted + [task], owed + 1;
      ok := true;
    }

    /** One evaluation of the wait predicate by worker `w` and what follows under the lock:
        exit, sleep, or take the front task. */
    method Look(w: nat) returns (task: Option<T>)
      requires w < |workers| && workers[w].Awake?
      modifies this`tasks, this`workers, this`popped
      ensures Step(old(View()), Action.Look(w)) == Some(View())
      ensures task == if old(tasks) == [] then None else Some(old(tasks)[0])
    {
      if !(stop || tasks != []) {
        workers := workers[w := Asleep];
        return None;
      }
      if stop && tasks == [] {
        workers := workers[w := Exited];
        return None;
      }
      task := Some(tasks[0]);
      workers := workers[w := Running(tasks[0])];
      popped := popped + [tasks[0]];
      tasks := tasks[1..];
    }

    method Finish(w: nat)
      requires w < |workers| && workers[w].Running?
      modifies this`workers, this`done
      ensures Step(old(View()), Action.Finish(w)) == Some(View())
    {
      done := done + multiset{workers[w].task};
      workers := workers[w := Awake];
    }

    /** The destructor: set stop_, notify_all, join.  While it joins, the workers are
        scheduled in any order until none is left. */
    method Destroy()
      requires Inv(View()) && !stop
      modifies this
      ensures Inv(View()) && stop
      ensures forall i :: 0 <= i < |workers| ==> workers[i].Exited?
      ensures tasks == [] && accepted == old(accepted) && done == multiset(accepted)
    {
      hide Conserved, NoLostWakeUp, StopIsSeen, Measure;
      stop, owedAll := true, true;
      Follows(old(View()), Action<T>.Stop);
      ghost var stopped := View();
      workers, owedAll := WakeAll(workers), false;
      Follows(stopped, Action<T>.NotifyAll);
      var alive := set i | 0 <= i < |workers| && !workers[i].Exited?;
      while alive != {}
        invariant Inv(View()) && stop && !owedAll && accepted == old(accepted)
        invariant alive == set i | 0 <= i < |workers| && !workers[i].Exited?
        decreases Measure(View())
      {
        var w :| w in alive;
        NobodyAsleep(View());
        Turn(w);
        alive := set i | 0 <= i < |workers| && !workers[i].Exited?;
      }
      forall i | 0 <= i < |workers| ensures workers[i].Exited? {
        assert i !in alive;
      }
      AllGone(View());
    }

    /** Worker `w` of a stopped pool gets the processor once. */
    method Turn(w: nat)
      requires Inv(View()) && stop && w < |workers| && workers[w].Up()
      modifies this`tasks, this`workers, this`popped, this`done
      ensures Inv(View()) && Measure(View()) < Measure(old(View()))
    {
      if workers[w].Awake? {
        var _ := Look(w);
        Follows(old(View()), Action.Look(w));
      } else {
        Finish(w);
        Follows(old(View()), Action.Finish(w));
      }
    }
  }
}
