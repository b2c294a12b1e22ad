/**
 The bounded thread pool as an interleaving machine: a fixed number of workers, any number of
 Enqueue and TryEnqueue callers, and the destructor. An event is one section under the mutex, one
 notification sent after the mutex was given up, one task run, or one spurious wakeup.
 */
module PoolProtocol {
  import opened Collections

  type Task = nat

  datatype WorkerState =
    | Checking             // about to take the mutex and test its predicate
    | Asleep               // in task_available_.wait
    | Announcing(task: Task) // took a task; space_available_.notify_one comes next
    | Running(task: Task)
    | Exited

  datatype CallerState =
    | Entering(task: Task)  // an Enqueue about to take the mutex and test its predicate
    | Blocked(task: Task)   // in space_available_.wait
    | Notifying             // queued its task; task_available_.notify_one comes next
    | Returned(accepted: bool) // false: Enqueue threw or TryEnqueue refused

  datatype Destructor = Alive | NotifyTasks | NotifySpace | Joining(k: nat) | Destroyed

  /** The fields of the source, its threads, and the history from `accepted` on. */
  datatype Pool = Pool(
    limit: nat,
    tasks: seq<Task>,
    stopping: bool,
    workers: seq<WorkerState>,
    callers: seq<CallerState>,
    destructor: Destructor,
    accepted: seq<Task>,
    dequeued: seq<Task>,
    finished: seq<Task>)

  datatype Event =
    | EnqueueCall(task: Task)
    | EnqueueSection(c: nat)
    | TryEnqueue(task: Task)
    | NotifyOneTask(c: nat, sleeper: Option<nat>)
    | SpuriousWorker(w: nat)
    | SpuriousCaller(c: nat)
    | WorkerSection(w: nat)
    | NotifyOneSpace(w: nat, caller: Option<nat>)
    | Finish(w: nat)
    | Stop
    | NotifyAllTasks
    | NotifyAllSpace
    | Join

  /** notify_one wakes some sleeper if there is one. */
  ghost predicate PicksWorker(s: Pool, w: Option<nat>) {
    match w
    case Some(i) => i < |s.workers| && s.workers[i] == Asleep
    case None => forall i :: 0 <= i < |s.workers| ==> s.workers[i] != Asleep
  }

  ghost predicate PicksCaller(s: Pool, c: Option<nat>) {
    match c
    case Some(i) => i < |s.callers| && s.callers[i].Blocked?
    case None => forall i :: 0 <= i < |s.callers| ==> !s.callers[i].Blocked?
  }

  ghost predicate Enabled(s: Pool, e: Event) {
    match e
    case EnqueueCall(_) => true
    case EnqueueSection(c) => c < |s.callers| && s.callers[c].Entering?
    case TryEnqueue(_) => true
    case NotifyOneTask(c, w) => c < |s.callers| && s.callers[c] == Notifying && PicksWorker(s, w)
    case SpuriousWorker(w) => w < |s.workers| && s.workers[w] == Asleep
    case SpuriousCaller(c) => c < |s.callers| && s.callers[c].Blocked?
    case WorkerSection(w) => w < |s.workers| && s.workers[w] == Checking
    case NotifyOneSpace(w, c) => w < |s.workers| && s.workers[w].Announcing? && PicksCaller(s, c)
    case Finish(w) => w < |s.workers| && s.workers[w].Running?
    case Stop => s.destructor == Alive
    case NotifyAllTasks => s.destructor == NotifyTasks
    case NotifyAllSpace => s.destructor == NotifySpace
    case Join => s.destructor.Joining? && (s.destructor.k < |s.workers| ==> s.workers[s.destructor.k] == Exited)
  }

  function WokenWorkers(ws: seq<WorkerState>): seq<WorkerState> {
    seq(|ws|, i requires 0 <= i < |ws| => if ws[i] == Asleep then Checking else ws[i])
  }

  function WokenCallers(cs: seq<CallerState>): seq<CallerState> {
    seq(|cs|, i requires 0 <= i < |cs| => if cs[i].Blocked? then Entering(cs[i].task) else cs[i])
  }

  function WakeWorker(ws: seq<WorkerState>, w: Option<nat>): seq<WorkerState> {
    if w.Some? && w.value < |ws| then ws[w.value := Checking] else ws
  }

  function WakeCaller(cs: seq<CallerState>, c: Option<nat>): seq<CallerState> {
    if c.Some? && c.value < |cs| && cs[c.value].Blocked? then cs[c.value := Entering(cs[c.value].task)] else cs
  }

  function EnqueueStep(s: Pool, c: nat): Pool
    requires c < |s.callers| && s.callers[c].Entering?
  {
    var t := s.callers[c].task;
    if s.stopping then s.(callers := s.callers[c := Returned(false)])
    else if |s.tasks| >= s.limit then s.(callers := s.callers[c := Blocked(t)])
    else s.(tasks := s.tasks + [t], accepted := s.accepted + [t], callers := s.callers[c := Notifying])
  }

  function TryEnqueueStep(s: Pool, t: Task): Pool {
    if s.stopping || |s.tasks| >= s.limit then s.(callers := s.callers + [Returned(false)])
    else s.(tasks := s.tasks + [t], accepted := s.accepted + [t], callers := s.callers + [Notifying])
  }

  function WorkerStep(s: Pool, w: nat): Pool
    requires w < |s.workers|
  {
    if |s.tasks| == 0 then s.(workers := s.workers[w := if s.stopping then Exited else Asleep])
    else s.(tasks := s.tasks[1..], dequeued := s.dequeued + [s.tasks[0]],
            workers := s.workers[w := Announcing(s.tasks[0])])
  }

  function Step(s: Pool, e: Event): Pool
    requires Enabled(s, e)
  {
    match e
    case EnqueueCall(t) => s.(callers := s.callers + [Entering(t)])
    case EnqueueSection(c) => EnqueueStep(s, c)
    case TryEnqueue(t) => TryEnqueueStep(s, t)
    case NotifyOneTask(c, w) => s.(callers := s.callers[c := Returned(true)], workers := WakeWorker(s.workers, w))
    case SpuriousWorker(w) => s.(workers := s.workers[w := Checking])
    case SpuriousCaller(c) => s.(callers := s.callers[c := Entering(s.callers[c].task)])
    case WorkerSection(w) => WorkerStep(s, w)
    case NotifyOneSpace(w, c) =>
      s.(workers := s.workers[w := Running(s.workers[w].task)], callers := WakeCaller(s.callers, c))
    case Finish(w) => s.(workers := s.workers[w := Checking], finished := s.finished + [s.workers[w].task])
    case Stop => s.(stopping := true, destructor := NotifyTasks)
    case NotifyAllTasks => s.(workers := WokenWorkers(s.workers), destructor := NotifySpace)
    case NotifyAllSpace => s.(callers := WokenCallers(s.callers), destructor := Joining(0))
    case Join => s.(destructor := if s.destructor.k < |s.workers| then Joining(s.destructor.k + 1) else Destroyed)
  }

  /** The constructor refuses an empty pool and an empty queue. */
  function Created(threads: nat, limit: nat): Option<Pool> {
    if threads == 0 || limit == 0 then None
    else Some(Pool(limit, [], false, seq(threads, i => Checking), [], Alive, [], [], []))
  }

  ghost function Execute(s: Pool, events: seq<Event>): Option<Pool> {
    if |events| == 0 then Some(s) else
    var before := Execute(s, events[..|events| - 1]);
    var e := events[|events| - 1];
    if before.Some? && Enabled(before.value, e) then Some(Step(before.value, e)) else None
  }

  ghost predicate Reachable(s: Pool) {
    exists threads, limit, events ::
      Created(threads, limit).Some? && Execute(Created(threads, limit).value, events) == Some(s)
  }

  // ----- counts

  function IsChecking(w: WorkerState): nat { if w == Checking then 1 else 0 }
  function IsAnnouncing(w: WorkerState): nat { if w.Announcing? then 1 else 0 }
  function IsNotifying(c: CallerState): nat { if c == Notifying then 1 else 0 }
  function IsEntering(c: CallerState): nat { if c.Entering? then 1 else 0 }

  function Holds(x: Task): WorkerState -> nat {
    (w: WorkerState) => if (w.Announcing? || w.Running?) && w.task == x then 1 else 0
  }

  // ----- invariants

  /** First in, first out, each task once: waiting, in the hands of one worker, or finished. */
  ghost predicate TasksAccounted(s: Pool) {
    && |s.tasks| <= s.limit
    && s.accepted == s.dequeued + s.tasks
    && (forall x :: Sum(s.dequeued, Is(x)) == Sum(s.finished, Is(x)) + Sum(s.workers, Holds(x)))
  }

  /** A task that waits while a worker sleeps is covered by a notification still to be sent or by
      a worker about to look. */
  ghost predicate NoLostTaskWakeup(s: Pool) {
    (exists w :: 0 <= w < |s.workers| && s.workers[w] == Asleep) ==>
      |s.tasks| <= Sum(s.callers, IsNotifying) + Sum(s.workers, IsChecking)
  }

  /** The same for free slots and blocked callers, until the pool stops. */
  ghost predicate NoLostSpaceWakeup(s: Pool) {
    (exists c :: 0 <= c < |s.callers| && s.callers[c].Blocked?) && !s.stopping ==>
      s.limit - |s.tasks| <= Sum(s.workers, IsAnnouncing) + Sum(s.callers, IsEntering)
  }

  ghost predicate Shutdown(s: Pool) {
    && s.limit > 0 && |s.workers| > 0
    && (s.stopping <==> s.destructor != Alive)
    && (s.destructor != Alive && s.destructor != NotifyTasks ==>
          forall w :: 0 <= w < |s.workers| ==> s.workers[w] != Asleep)
    && (s.destructor.Joining? || s.destructor == Destroyed ==>
          forall c :: 0 <= c < |s.callers| ==> !s.callers[c].Blocked?)
    && (forall w :: 0 <= w < |s.workers| && s.workers[w] == Exited ==> s.stopping && s.tasks == [])
    && (s.destructor.Joining? ==>
          && s.destructor.k <= |s.workers|
          && forall w :: 0 <= w < s.destructor.k ==> s.workers[w] == Exited)
    && (s.destructor == Destroyed ==> forall w :: 0 <= w < |s.workers| ==> s.workers[w] == Exited)
  }

  ghost predicate Inv(s: Pool) {
    TasksAccounted(s) && NoLostTaskWakeup(s) && NoLostSpaceWakeup(s) && Shutdown(s)
  }

  lemma TakeKeepsTasks(s: Pool, w: nat)
    requires Inv(s) && w < |s.workers| && s.workers[w] == Checking
    ensures TasksAccounted(WorkerStep(s, w))
  {
    var t := WorkerStep(s, w);
    forall x
      ensures Sum(t.dequeued, Is(x)) == Sum(t.finished, Is(x)) + Sum(t.workers, Holds(x))
    {
      SumUpdate(s.workers, w, t.workers[w], Holds(x));
      if |s.tasks| > 0 {
        SumSnoc(s.dequeued, s.tasks[0], Is(x));
      }
    }
    if |s.tasks| > 0 {
      assert s.tasks == [s.tasks[0]] + s.tasks[1..];
    }
  }

  lemma FinishKeepsTasks(s: Pool, w: nat)
    requires Inv(s) && w < |s.workers| && s.workers[w].Running?
    ensures TasksAccounted(Step(s, Finish(w)))
  {
    var t := Step(s, Finish(w));
    forall x
      ensures Sum(t.dequeued, Is(x)) == Sum(t.finished, Is(x)) + Sum(t.workers, Holds(x))
    {
      SumUpdate(s.workers, w, Checking, Holds(x));
      SumSnoc(s.finished, s.workers[w].task, Is(x));
    }
  }

  lemma WakeKeepsTasks(s: Pool, e: Event)
    requires Inv(s) && Enabled(s, e)
    requires e.NotifyOneTask? || e.SpuriousWorker? || e.NotifyOneSpace? || e.NotifyAllTasks?
    ensures TasksAccounted(Step(s, e))
  {
    var t := Step(s, e);
    forall x
      ensures Sum(t.workers, Holds(x)) == Sum(s.workers, Holds(x))
    {
      match e {
        case NotifyOneTask(_, w) =>
          if w.Some? {
            SumUpdate(s.workers, w.value, Checking, Holds(x));
          }
        case SpuriousWorker(w) => SumUpdate(s.workers, w, Checking, Holds(x));
        case NotifyOneSpace(w, _) => SumUpdate(s.workers, w, t.workers[w], Holds(x));
        case NotifyAllTasks =>
          SumMonotone(s.workers, t.workers, Holds(x));
          SumMonotone(t.workers, s.workers, Holds(x));
      }
    }
  }

  lemma CallerKeepsTasks(s: Pool, e: Event)
    requires Inv(s) && Enabled(s, e)
    requires e.EnqueueCall? || e.EnqueueSection? || e.TryEnqueue? || e.SpuriousCaller?
    ensures TasksAccounted(Step(s, e))
  {
    var t := Step(s, e);
    assert t.workers == s.workers && t.dequeued == s.dequeued && t.finished == s.finished;
  }

  lemma StepKeepsTasks(s: Pool, e: Event)
    requires Inv(s) && Enabled(s, e)
    ensures TasksAccounted(Step(s, e))
  {
    match e {
      case WorkerSection(w) => TakeKeepsTasks(s, w);
      case Finish(w) => FinishKeepsTasks(s, w);
      case NotifyOneTask(_, _) => WakeKeepsTasks(s, e);
      case SpuriousWorker(_) => WakeKeepsTasks(s, e);
      case NotifyOneSpace(_, _) => WakeKeepsTasks(s, e);
      case NotifyAllTasks => WakeKeepsTasks(s, e);
      case EnqueueCall(_) => CallerKeepsTasks(s, e);
      case EnqueueSection(_) => CallerKeepsTasks(s, e);
      case TryEnqueue(_) => CallerKeepsTasks(s, e);
      case SpuriousCaller(_) => CallerKeepsTasks(s, e);
      case _ =>
    }
  }

  lemma SectionKeepsTaskWakeups(s: Pool, e: Event)
    requires Inv(s) && Enabled(s, e) && (e.EnqueueSection? || e.TryEnqueue? || e.EnqueueCall? || e.SpuriousCaller?)
    ensures NoLostTaskWakeup(Step(s, e))
  {
    var t := Step(s, e);
    match e {
      case EnqueueSection(c) => SumUpdate(s.callers, c, t.callers[c], IsNotifying);
      case SpuriousCaller(c) => SumUpdate(s.callers, c, t.callers[c], IsNotifying);
      case TryEnqueue(_) => SumSnoc(s.callers, t.callers[|s.callers|], IsNotifying);
      case EnqueueCall(_) => SumSnoc(s.callers, t.callers[|s.callers|], IsNotifying);
    }
  }

  lemma NotifyKeepsTaskWakeups(s: Pool, c: nat, w: Option<nat>)
    requires Inv(s) && Enabled(s, NotifyOneTask(c, w))
    ensures NoLostTaskWakeup(Step(s, NotifyOneTask(c, w)))
  {
    SumUpdate(s.callers, c, Returned(true), IsNotifying);
    if w.Some? {
      SumUpdate(s.workers, w.value, Checking, IsChecking);
    }
  }

  lemma WorkerKeepsTaskWakeups(s: Pool, e: Event)
    requires Inv(s) && Enabled(s, e)
    requires e.SpuriousWorker? || e.WorkerSection? || e.NotifyOneSpace? || e.Finish?
    ensures NoLostTaskWakeup(Step(s, e))
  {
    var t := Step(s, e);
    SumUpdate(s.workers, e.w, t.workers[e.w], IsChecking);
    if e.NotifyOneSpace? && e.caller.Some? {
      SumUpdate(s.callers, e.caller.value, t.callers[e.caller.value], IsNotifying);
    }
  }

  lemma StepKeepsTaskWakeups(s: Pool, e: Event)
    requires Inv(s) && Enabled(s, e)
    ensures NoLostTaskWakeup(Step(s, e))
  {
    match e {
      case EnqueueSection(_) => SectionKeepsTaskWakeups(s, e);
      case SpuriousCaller(_) => SectionKeepsTaskWakeups(s, e);
      case TryEnqueue(_) => SectionKeepsTaskWakeups(s, e);
      case EnqueueCall(_) => SectionKeepsTaskWakeups(s, e);
      case NotifyOneTask(c, w) => NotifyKeepsTaskWakeups(s, c, w);
      case SpuriousWorker(_) => WorkerKeepsTaskWakeups(s, e);
      case WorkerSection(_) => WorkerKeepsTaskWakeups(s, e);
      case NotifyOneSpace(_, _) => WorkerKeepsTaskWakeups(s, e);
      case Finish(_) => WorkerKeepsTaskWakeups(s, e);
      case _ =>
    }
  }

  lemma CallerKeepsSpaceWakeups(s: Pool, e: Event)
    requires Inv(s) && Enabled(s, e) && (e.EnqueueSection? || e.TryEnqueue? || e.EnqueueCall? || e.SpuriousCaller?)
    ensures NoLostSpaceWakeup(Step(s, e))
  {
    var t := Step(s, e);
    match e {
      case EnqueueSection(c) => SumUpdate(s.callers, c, t.callers[c], IsEntering);
      case SpuriousCaller(c) => SumUpdate(s.callers, c, t.callers[c], IsEntering);
      case TryEnqueue(_) => SumSnoc(s.callers, t.callers[|s.callers|], IsEntering);
      case EnqueueCall(_) => SumSnoc(s.callers, t.callers[|s.callers|], IsEntering);
    }
  }

  lemma WorkerKeepsSpaceWakeups(s: Pool, e: Event)
    requires Inv(s) && Enabled(s, e) && (e.SpuriousWorker? || e.WorkerSection? || e.Finish? || e.NotifyOneTask?)
    ensures NoLostSpaceWakeup(Step(s, e))
  {
    var t := Step(s, e);
    if e.NotifyOneTask? {
      SumUpdate(s.callers, e.c, Returned(true), IsEntering);
      if e.sleeper.Some? {
        SumUpdate(s.workers, e.sleeper.value, Checking, IsAnnouncing);
      }
    } else {
      SumUpdate(s.workers, e.w, t.workers[e.w], IsAnnouncing);
    }
  }

  lemma NotifyKeepsSpaceWakeups(s: Pool, w: nat, c: Option<nat>)
    requires Inv(s) && Enabled(s, NotifyOneSpace(w, c))
    ensures NoLostSpaceWakeup(Step(s, NotifyOneSpace(w, c)))
  {
    var t := Step(s, NotifyOneSpace(w, c));
    SumUpdate(s.workers, w, t.workers[w], IsAnnouncing);
    if c.Some? {
      SumUpdate(s.callers, c.value, t.callers[c.value], IsEntering);
    }
  }

  lemma StepKeepsSpaceWakeups(s: Pool, e: Event)
    requires Inv(s) && Enabled(s, e)
    ensures NoLostSpaceWakeup(Step(s, e))
  {
    match e {
      case EnqueueSection(_) => CallerKeepsSpaceWakeups(s, e);
      case SpuriousCaller(_) => CallerKeepsSpaceWakeups(s, e);
      case TryEnqueue(_) => CallerKeepsSpaceWakeups(s, e);
      case EnqueueCall(_) => CallerKeepsSpaceWakeups(s, e);
      case NotifyOneTask(_, _) => WorkerKeepsSpaceWakeups(s, e);
      case SpuriousWorker(_) => WorkerKeepsSpaceWakeups(s, e);
      case WorkerSection(_) => WorkerKeepsSpaceWakeups(s, e);
      case Finish(_) => WorkerKeepsSpaceWakeups(s, e);
      case NotifyOneSpace(w, c) => NotifyKeepsSpaceWakeups(s, w, c);
      case _ =>
    }
  }

  predicate OfDestructor(e: Event) { e.Stop? || e.NotifyAllTasks? || e.NotifyAllSpace? || e.Join? }

  lemma DestructorKeepsShutdown(s: Pool, e: Event)
    requires Inv(s) && Enabled(s, e) && OfDestructor(e)
    ensures Shutdown(Step(s, e))
  {
  }

  predicate OfWorker(e: Event) { e.SpuriousWorker? || e.WorkerSection? || e.NotifyOneSpace? || e.Finish? }

  lemma WorkerKeepsShutdown(s: Pool, e: Event)
    requires Inv(s) && Enabled(s, e) && OfWorker(e)
    ensures Shutdown(Step(s, e))
  {
    assert s.workers[e.w] != Exited;
  }

  lemma StepKeepsShutdown(s: Pool, e: Event)
    requires Inv(s) && Enabled(s, e)
    ensures Shutdown(Step(s, e))
  {
    if OfDestructor(e) {
      DestructorKeepsShutdown(s, e);
    } else if OfWorker(e) {
      WorkerKeepsShutdown(s, e);
    }
  }

  lemma StepKeepsInv(s: Pool, e: Event)
    requires Inv(s) && Enabled(s, e)
    ensures Inv(Step(s, e))
  {
    StepKeepsTasks(s, e);
    StepKeepsTaskWakeups(s, e);
    StepKeepsSpaceWakeups(s, e);
    StepKeepsShutdown(s, e);
  }

  lemma {:induction false} NothingHeld(ws: seq<WorkerState>, x: Task)
    requires forall i :: 0 <= i < |ws| ==> ws[i] == Checking || ws[i] == Asleep || ws[i] == Exited
    ensures Sum(ws, Holds(x)) == 0
  {
    if |ws| > 0 {
      NothingHeld(ws[..|ws| - 1], x);
    }
  }

  lemma CreatedIsInv(threads: nat, limit: nat)
    requires Created(threads, limit).Some?
    ensures Inv(Created(threads, limit).value)
  {
    var s := Created(threads, limit).value;
    forall x ensures Sum(s.workers, Holds(x)) == 0 { NothingHeld(s.workers, x); }
  }

  lemma {:induction false} ExecuteKeepsInv(s: Pool, events: seq<Event>)
    requires Inv(s) && Execute(s, events).Some?
    ensures Inv(Execute(s, events).value)
  {
    if |events| > 0 {
      ExecuteKeepsInv(s, events[..|events| - 1]);
      StepKeepsInv(Execute(s, events[..|events| - 1]).value, events[|events| - 1]);
    }
  }

  /** No wakeup is lost in any run: the two counting invariants, with the order and the ownership
      of tasks and the state of the shutdown. */
  lemma ReachableIsInv(s: Pool)
    requires Reachable(s)
    ensures Inv(s)
  {
    var threads, limit, events :|
      Created(threads, limit).Some? && Execute(Created(threads, limit).value, events) == Some(s);
    CreatedIsInv(threads, limit);
    ExecuteKeepsInv(Created(threads, limit).value, events);
  }

  // ----- progress

  /** Events of the pool's own threads, of callers inside it, and of the destructor, no arrivals
      and no luck. */
  predicate IsOwn(e: Event) {
    !e.EnqueueCall? && !e.TryEnqueue? && !e.SpuriousWorker? && !e.SpuriousCaller? && !e.Stop?
  }

  lemma SomeCallerPick(s: Pool) returns (c: Option<nat>)
    ensures PicksCaller(s, c)
  {
    if i :| 0 <= i < |s.callers| && s.callers[i].Blocked? {
      c := Some(i);
    } else {
      c := None;
    }
  }

  lemma SomeWorkerPick(s: Pool) returns (w: Option<nat>)
    ensures PicksWorker(s, w)
  {
    if i :| 0 <= i < |s.workers| && s.workers[i] == Asleep {
      w := Some(i);
    } else {
      w := None;
    }
  }

  /** A worker that neither sleeps nor has left can move by itself. */
  lemma AwakeWorkerMoves(s: Pool, w: nat) returns (e: Event)
    requires w < |s.workers| && s.workers[w] != Asleep && s.workers[w] != Exited
    ensures IsOwn(e) && Enabled(s, e)
  {
    match s.workers[w] {
      case Checking => e := WorkerSection(w);
      case Announcing(_) =>
        var c := SomeCallerPick(s);
        e := NotifyOneSpace(w, c);
      case Running(_) => e := Finish(w);
    }
  }

  /** A waiting task is never stranded: some thread can take a step that is not a lucky one. */
  lemma QueuedTaskIsNotStranded(s: Pool) returns (e: Event)
    requires Reachable(s) && s.tasks != []
    ensures IsOwn(e) && Enabled(s, e)
  {
    ReachableIsInv(s);
    if w :| 0 <= w < |s.workers| && s.workers[w] == Asleep {
      if Sum(s.callers, IsNotifying) > 0 {
        var c := SumPositive(s.callers, IsNotifying);
        var pick := SomeWorkerPick(s);
        e := NotifyOneTask(c, pick);
      } else {
        var k := SumPositive(s.workers, IsChecking);
        e := WorkerSection(k);
      }
    } else {
      e := AwakeWorkerMoves(s, 0);
    }
  }

  /** Nor is a blocked Enqueue caller. */
  lemma BlockedCallerIsNotStranded(s: Pool, c: nat) returns (e: Event)
    requires Reachable(s) && !s.stopping && c < |s.callers| && s.callers[c].Blocked?
    ensures IsOwn(e) && Enabled(s, e)
  {
    ReachableIsInv(s);
    if s.tasks != [] {
      e := QueuedTaskIsNotStranded(s);
    } else if Sum(s.workers, IsAnnouncing) > 0 {
      var w := SumPositive(s.workers, IsAnnouncing);
      e := AwakeWorkerMoves(s, w);
    } else {
      var k := SumPositive(s.callers, IsEntering);
      e := EnqueueSection(k);
    }
  }

  // ----- work

  /** What a thread, a caller and a queued task can still cost a running pool, in steps. */
  function WorkerEffort(w: WorkerState): nat {
    match w
    case Checking => 1
    case Running(_) => 2
    case Announcing(_) => 4
    case _ => 0
  }

  function CallerEffort(c: CallerState): nat {
    match c
    case Entering(_) => 7
    case Blocked(_) => 6
    case Notifying => 2
    case Returned(_) => 0
  }

  function Effort(s: Pool): nat {
    4 * |s.tasks| + Sum(s.workers, WorkerEffort) + Sum(s.callers, CallerEffort)
  }

  /** What an event from outside brings in, itself included. */
  function Budget(e: Event): nat {
    match e
    case EnqueueCall(_) => 8
    case TryEnqueue(_) => 8
    case SpuriousWorker(_) => 2
    case SpuriousCaller(_) => 2
    case _ => 0
  }

  lemma CallerEffortFalls(s: Pool, e: Event)
    requires Inv(s) && !s.stopping && Enabled(s, e)
    requires e.EnqueueSection? || e.SpuriousCaller? || e.NotifyOneTask?
    ensures Effort(Step(s, e)) + 1 <= Effort(s) + Budget(e)
  {
    var t := Step(s, e);
    SumUpdate(s.callers, e.c, t.callers[e.c], CallerEffort);
    if e.NotifyOneTask? && e.sleeper.Some? {
      SumUpdate(s.workers, e.sleeper.value, Checking, WorkerEffort);
    }
  }

  lemma ArrivalEffort(s: Pool, e: Event)
    requires Inv(s) && !s.stopping && Enabled(s, e) && (e.EnqueueCall? || e.TryEnqueue?)
    ensures Effort(Step(s, e)) + 1 <= Effort(s) + Budget(e)
  {
    var t := Step(s, e);
    SumSnoc(s.callers, t.callers[|s.callers|], CallerEffort);
  }

  lemma WorkerEffortFalls(s: Pool, e: Event)
    requires Inv(s) && !s.stopping && Enabled(s, e)
    requires e.SpuriousWorker? || e.WorkerSection? || e.NotifyOneSpace? || e.Finish?
    ensures Effort(Step(s, e)) + 1 <= Effort(s) + Budget(e)
  {
    var t := Step(s, e);
    SumUpdate(s.workers, e.w, t.workers[e.w], WorkerEffort);
    if e.NotifyOneSpace? && e.caller.Some? {
      SumUpdate(s.callers, e.caller.value, t.callers[e.caller.value], CallerEffort);
    }
  }

  lemma StepCostsEffort(s: Pool, e: Event)
    requires Inv(s) && !s.stopping && Enabled(s, e) && !e.Stop?
    ensures Effort(Step(s, e)) + 1 <= Effort(s) + Budget(e) && !Step(s, e).stopping
  {
    match e {
      case EnqueueSection(_) => CallerEffortFalls(s, e);
      case SpuriousCaller(_) => CallerEffortFalls(s, e);
      case NotifyOneTask(_, _) => CallerEffortFalls(s, e);
      case EnqueueCall(_) => ArrivalEffort(s, e);
      case TryEnqueue(_) => ArrivalEffort(s, e);
      case SpuriousWorker(_) => WorkerEffortFalls(s, e);
      case WorkerSection(_) => WorkerEffortFalls(s, e);
      case NotifyOneSpace(_, _) => WorkerEffortFalls(s, e);
      case Finish(_) => WorkerEffortFalls(s, e);
    }
  }

  /** A running pool works only as much as it is given: whatever the schedule, a run has at most
      eight steps for each call made during it and two for each spurious wakeup, beyond the effort
      there was at its start. */
  lemma {:induction false} WorkIsBounded(s: Pool, events: seq<Event>)
    requires Inv(s) && !s.stopping && Execute(s, events).Some?
    requires Stop !in events
    ensures !Execute(s, events).value.stopping
    ensures |events| + Effort(Execute(s, events).value) <= Effort(s) + Sum(events, Budget)
  {
    if |events| > 0 {
      var before := events[..|events| - 1];
      WorkIsBounded(s, before);
      ExecuteKeepsInv(s, before);
      StepCostsEffort(Execute(s, before).value, events[|events| - 1]);
    }
  }

  lemma QuietCallerHasReturned(s: Pool, c: nat)
    requires Reachable(s) && !s.stopping && c < |s.callers|
    requires forall e :: IsOwn(e) ==> !Enabled(s, e)
    ensures s.callers[c].Returned?
  {
    match s.callers[c] {
      case Returned(_) =>
      case Entering(_) => assert Enabled(s, EnqueueSection(c));
      case Notifying =>
        var w := SomeWorkerPick(s);
        assert Enabled(s, NotifyOneTask(c, w));
      case Blocked(_) => var e := BlockedCallerIsNotStranded(s, c);
    }
  }

  /** When no thread of a running pool can take a step, its work is done: the queue is empty, nobody
      is blocked in Enqueue, and every accepted task has run exactly once. */
  lemma QuietPoolHasDoneItsWork(s: Pool)
    requires Reachable(s) && !s.stopping
    requires forall e :: IsOwn(e) ==> !Enabled(s, e)
    ensures s.tasks == [] && s.dequeued == s.accepted && multiset(s.finished) == multiset(s.accepted)
    ensures forall w :: 0 <= w < |s.workers| ==> s.workers[w] == Asleep
    ensures forall c :: 0 <= c < |s.callers| ==> s.callers[c].Returned?
  {
    ReachableIsInv(s);
    if s.tasks != [] {
      var e := QueuedTaskIsNotStranded(s);
    }
    forall w | 0 <= w < |s.workers|
      ensures s.workers[w] == Asleep
    {
      if s.workers[w] != Asleep {
        var e := AwakeWorkerMoves(s, w);
      }
    }
    forall c | 0 <= c < |s.callers|
      ensures s.callers[c].Returned?
    {
      QuietCallerHasReturned(s, c);
    }
    assert s.dequeued + [] == s.dequeued;
    forall x ensures multiset(s.finished)[x] == multiset(s.accepted)[x] {
      NothingHeld(s.workers, x);
      CountIsMultiplicity(s.finished, x);
      CountIsMultiplicity(s.accepted, x);
    }
  }

  // ----- what becomes of a call

  predicate IsArrival(e: Event) { e.EnqueueCall? || e.TryEnqueue? }

  /** The tasks of the calls of a run, in the order of the calls. */
  function Asked(events: seq<Event>): seq<Task> {
    if |events| == 0 then [] else
    var e := events[|events| - 1];
    Asked(events[..|events| - 1]) + if IsArrival(e) then [e.task] else []
  }

  /** The task that a caller still has in its hands. */
  function Carries(x: Task): CallerState -> nat {
    (c: CallerState) => if (c.Entering? || c.Blocked?) && c.task == x then 1 else 0
  }

  predicate NobodyRefused(s: Pool) { forall c :: 0 <= c < |s.callers| ==> s.callers[c] != Returned(false) }

  /** A call is answered with a refusal only by a TryEnqueue that finds the queue full, or once the
      pool is stopping. */
  lemma RefusalHasAReason(s: Pool, e: Event)
    requires Inv(s) && Enabled(s, e) && NobodyRefused(s) && !NobodyRefused(Step(s, e))
    ensures s.stopping || (e.TryEnqueue? && |s.tasks| == s.limit)
  {
  }

  lemma RefusesNobody(s: Pool, e: Event)
    requires Inv(s) && !s.stopping && Enabled(s, e) && NobodyRefused(s)
    requires e.TryEnqueue? ==> |s.tasks| < s.limit
    ensures NobodyRefused(Step(s, e))
  {
    if !NobodyRefused(Step(s, e)) {
      RefusalHasAReason(s, e);
    }
  }

  lemma QueueIsAccepted(s: Pool)
    requires Inv(s)
    ensures |s.tasks| <= |s.accepted|
  {
  }

  lemma {:induction false} KeepsItsLimit(threads: nat, limit: nat, events: seq<Event>)
    requires Created(threads, limit).Some? && Execute(Created(threads, limit).value, events).Some?
    ensures Execute(Created(threads, limit).value, events).value.limit == limit
  {
    if |events| > 0 {
      KeepsItsLimit(threads, limit, events[..|events| - 1]);
    }
  }

  lemma {:induction false} RunStaysRunning(s: Pool, events: seq<Event>)
    requires Inv(s) && !s.stopping && Execute(s, events).Some? && Stop !in events
    ensures !Execute(s, events).value.stopping && Inv(Execute(s, events).value)
  {
    WorkIsBounded(s, events);
    ExecuteKeepsInv(s, events);
  }

  /** While the pool runs, Enqueue never fails. */
  lemma {:induction false} EnqueueNeverFails(threads: nat, limit: nat, events: seq<Event>)
    requires Created(threads, limit).Some? && Execute(Created(threads, limit).value, events).Some?
    requires Stop !in events && forall i :: 0 <= i < |events| ==> !events[i].TryEnqueue?
    ensures NobodyRefused(Execute(Created(threads, limit).value, events).value)
  {
    var start := Created(threads, limit).value;
    if |events| > 0 {
      var before := events[..|events| - 1];
      EnqueueNeverFails(threads, limit, before);
      CreatedIsInv(threads, limit);
      RunStaysRunning(start, before);
      RefusesNobody(Execute(start, before).value, events[|events| - 1]);
    }
  }

  /** Calls that have got their task in, or been refused. */
  function Settled(c: CallerState): nat { if c.Notifying? || c.Returned? then 1 else 0 }

  lemma {:induction false} SettledAreCallers(callers: seq<CallerState>)
    ensures Sum(callers, Settled) <= |callers|
  {
    if |callers| > 0 {
      SettledAreCallers(callers[..|callers| - 1]);
    }
  }

  lemma ArrivalKeepsSettled(s: Pool, e: Event)
    requires IsArrival(e) && |s.accepted| <= Sum(s.callers, Settled)
    ensures |Step(s, e).accepted| <= Sum(Step(s, e).callers, Settled)
  {
    SumSnoc(s.callers, Step(s, e).callers[|s.callers|], Settled);
  }

  lemma CallerKeepsSettled(s: Pool, e: Event)
    requires Enabled(s, e) && (e.EnqueueSection? || e.NotifyOneTask? || e.SpuriousCaller?)
    requires |s.accepted| <= Sum(s.callers, Settled)
    ensures |Step(s, e).accepted| <= Sum(Step(s, e).callers, Settled)
  {
    SumUpdate(s.callers, e.c, Step(s, e).callers[e.c], Settled);
  }

  lemma StepKeepsSettled(s: Pool, e: Event)
    requires Enabled(s, e) && |s.accepted| <= Sum(s.callers, Settled)
    ensures |Step(s, e).accepted| <= Sum(Step(s, e).callers, Settled)
  {
    if IsArrival(e) {
      ArrivalKeepsSettled(s, e);
    } else if e.EnqueueSection? || e.NotifyOneTask? || e.SpuriousCaller? {
      CallerKeepsSettled(s, e);
    } else if e.NotifyOneSpace? && e.caller.Some? {
      SumUpdate(s.callers, e.caller.value, Step(s, e).callers[e.caller.value], Settled);
    } else if e.NotifyAllSpace? {
      SumMonotone(s.callers, Step(s, e).callers, Settled);
    }
  }

  lemma {:induction false} RunKeepsSettled(threads: nat, limit: nat, events: seq<Event>)
    requires Created(threads, limit).Some? && Execute(Created(threads, limit).value, events).Some?
    ensures var s := Execute(Created(threads, limit).value, events).value;
            |s.accepted| <= Sum(s.callers, Settled) <= |s.callers| == |Asked(events)|
  {
    var start := Created(threads, limit).value;
    if |events| > 0 {
      var before, e := events[..|events| - 1], events[|events| - 1];
      RunKeepsSettled(threads, limit, before);
      StepKeepsSettled(Execute(start, before).value, e);
    }
    SettledAreCallers(Execute(start, events).value.callers);
  }

  /** As many calls as the queue has places are never refused while the pool runs. */
  lemma {:induction false} FewCallsAreNeverRefused(threads: nat, limit: nat, events: seq<Event>)
    requires Created(threads, limit).Some? && Execute(Created(threads, limit).value, events).Some?
    requires Stop !in events && |Asked(events)| <= limit
    ensures NobodyRefused(Execute(Created(threads, limit).value, events).value)
  {
    var start := Created(threads, limit).value;
    if |events| > 0 {
      var before, e := events[..|events| - 1], events[|events| - 1];
      FewCallsAreNeverRefused(threads, limit, before);
      CreatedIsInv(threads, limit);
      RunStaysRunning(start, before);
      RunKeepsSettled(threads, limit, before);
      QueueIsAccepted(Execute(start, before).value);
      KeepsItsLimit(threads, limit, before);
      RefusesNobody(Execute(start, before).value, e);
    }
  }

  // each task asked for is accepted or still in its caller's hands

  ghost predicate CallsAccounted(s: Pool, events: seq<Event>, x: Task) {
    Sum(Asked(events), Is(x)) == Sum(s.accepted, Is(x)) + Sum(s.callers, Carries(x))
  }

  lemma {:induction false} WakingKeepsCarried(cs: seq<CallerState>, x: Task)
    ensures Sum(WokenCallers(cs), Carries(x)) == Sum(cs, Carries(x))
  {
    if |cs| > 0 {
      var n := |cs| - 1;
      WakingKeepsCarried(cs[..n], x);
      assert WokenCallers(cs)[..n] == WokenCallers(cs[..n]);
    }
  }

  lemma ArrivalKeepsAccount(s: Pool, e: Event, x: Task)
    requires IsArrival(e) && NobodyRefused(Step(s, e))
    ensures Sum(Step(s, e).accepted, Is(x)) + Sum(Step(s, e).callers, Carries(x))
         == Sum(s.accepted, Is(x)) + Sum(s.callers, Carries(x)) + Is(x)(e.task)
  {
    var t := Step(s, e);
    assert t.callers[|s.callers|] != Returned(false);
    SumSnoc(s.callers, t.callers[|s.callers|], Carries(x));
    SumSnoc(s.accepted, e.task, Is(x));
  }

  lemma CallerKeepsAccount(s: Pool, e: Event, x: Task)
    requires Enabled(s, e) && (e.EnqueueSection? || e.NotifyOneTask? || e.SpuriousCaller?) && NobodyRefused(Step(s, e))
    ensures var t := Step(s, e);
            Sum(t.accepted, Is(x)) + Sum(t.callers, Carries(x)) == Sum(s.accepted, Is(x)) + Sum(s.callers, Carries(x))
  {
    var t := Step(s, e);
    assert t.callers[e.c] != Returned(false);
    SumUpdate(s.callers, e.c, t.callers[e.c], Carries(x));
    if e.EnqueueSection? {
      SumSnoc(s.accepted, s.callers[e.c].task, Is(x));
    }
  }

  lemma OtherKeepsAccount(s: Pool, e: Event, x: Task)
    requires Enabled(s, e) && !IsArrival(e) && !e.EnqueueSection? && !e.NotifyOneTask? && !e.SpuriousCaller?
    ensures Step(s, e).accepted == s.accepted && Sum(Step(s, e).callers, Carries(x)) == Sum(s.callers, Carries(x))
  {
    if e.NotifyOneSpace? && e.caller.Some? {
      SumUpdate(s.callers, e.caller.value, Step(s, e).callers[e.caller.value], Carries(x));
    } else if e.NotifyAllSpace? {
      WakingKeepsCarried(s.callers, x);
    }
  }

  lemma RefusalStays(s: Pool, e: Event, c: nat)
    requires Enabled(s, e) && c < |s.callers| && s.callers[c] == Returned(false)
    ensures c < |Step(s, e).callers| && Step(s, e).callers[c] == Returned(false)
  {
  }

  lemma StepKeepsRefused(s: Pool, e: Event)
    requires Enabled(s, e) && NobodyRefused(Step(s, e))
    ensures NobodyRefused(s)
  {
    if c :| 0 <= c < |s.callers| && s.callers[c] == Returned(false) {
      RefusalStays(s, e, c);
    }
  }

  lemma {:induction false} RunKeepsAccount(threads: nat, limit: nat, events: seq<Event>, x: Task)
    requires Created(threads, limit).Some? && Execute(Created(threads, limit).value, events).Some?
    requires NobodyRefused(Execute(Created(threads, limit).value, events).value)
    ensures CallsAccounted(Execute(Created(threads, limit).value, events).value, events, x)
  {
    var start := Created(threads, limit).value;
    if |events| > 0 {
      var before, e := events[..|events| - 1], events[|events| - 1];
      var s := Execute(start, before).value;
      StepKeepsRefused(s, e);
      RunKeepsAccount(threads, limit, before, x);
      if IsArrival(e) {
        ArrivalKeepsAccount(s, e, x);
        SumSnoc(Asked(before), e.task, Is(x));
      } else {
        assert Asked(before) + [] == Asked(before);
        if e.EnqueueSection? || e.NotifyOneTask? || e.SpuriousCaller? {
          CallerKeepsAccount(s, e, x);
        } else {
          OtherKeepsAccount(s, e, x);
        }
      }
    }
  }

  lemma {:induction false} NothingCarried(cs: seq<CallerState>, x: Task)
    requires forall c :: 0 <= c < |cs| ==> cs[c].Returned?
    ensures Sum(cs, Carries(x)) == 0
  {
    if |cs| > 0 {
      NothingCarried(cs[..|cs| - 1], x);
    }
  }

  /** A running pool whose threads have nothing left to do has run every task it was called with
      exactly once, if it was called with Enqueue only or with no more tasks than it has places. */
  lemma EveryCallIsServed(threads: nat, limit: nat, events: seq<Event>)
    requires Created(threads, limit).Some? && Execute(Created(threads, limit).value, events).Some?
    requires Stop !in events
    requires |Asked(events)| <= limit || forall i :: 0 <= i < |events| ==> !events[i].TryEnqueue?
    requires forall e :: IsOwn(e) ==> !Enabled(Execute(Created(threads, limit).value, events).value, e)
    ensures multiset(Execute(Created(threads, limit).value, events).value.finished) == multiset(Asked(events))
  {
    var start := Created(threads, limit).value;
    var s := Execute(start, events).value;
    if |Asked(events)| <= limit {
      FewCallsAreNeverRefused(threads, limit, events);
    } else {
      EnqueueNeverFails(threads, limit, events);
    }
    assert Reachable(s);
    CreatedIsInv(threads, limit);
    RunStaysRunning(start, events);
    QuietPoolHasDoneItsWork(s);
    forall x ensures multiset(s.finished)[x] == multiset(Asked(events))[x] {
      RunKeepsAccount(threads, limit, events, x);
      NothingCarried(s.callers, x);
      CountIsMultiplicity(s.accepted, x);
      CountIsMultiplicity(Asked(events), x);
    }
  }

  /** The destructor is never stuck before it has returned. */
  lemma DestructorIsNotStuck(s: Pool) returns (e: Event)
    requires Reachable(s) && s.stopping && s.destructor != Destroyed
    ensures IsOwn(e) && Enabled(s, e)
  {
    ReachableIsInv(s);
    match s.destructor {
      case NotifyTasks => e := NotifyAllTasks;
      case NotifySpace => e := NotifyAllSpace;
      case Joining(k) =>
        if k == |s.workers| || s.workers[k] == Exited {
          e := Join;
        } else {
          e := AwakeWorkerMoves(s, k);
        }
    }
  }

  // ----- drain

  function WorkerRank(w: WorkerState): nat {
    match w
    case Exited => 0
    case Checking => 1
    case Announcing(_) => 3
    case _ => 2
  }

  function CallerRank(c: CallerState): nat {
    match c
    case Returned(_) => 0
    case Blocked(_) => 2
    case _ => 1
  }

  function DestructorRank(d: Destructor, n: nat): nat {
    match d
    case Alive => n + 5
    case NotifyTasks => n + 4
    case NotifySpace => n + 3
    case Joining(k) => if k <= n then n + 2 - k else 1
    case Destroyed => 0
  }

  /** Steps a stopping pool can still take. */
  function Remaining(s: Pool): nat {
    3 * |s.tasks| + Sum(s.workers, WorkerRank) + Sum(s.callers, CallerRank)
    + DestructorRank(s.destructor, |s.workers|)
  }

  lemma CallerStepRank(s: Pool, e: Event)
    requires Inv(s) && s.stopping && Enabled(s, e) && (e.EnqueueSection? || e.SpuriousCaller? || e.NotifyOneTask?)
    ensures Remaining(Step(s, e)) < Remaining(s)
  {
    var t := Step(s, e);
    SumUpdate(s.callers, e.c, t.callers[e.c], CallerRank);
    if e.NotifyOneTask? && e.sleeper.Some? {
      SumUpdate(s.workers, e.sleeper.value, Checking, WorkerRank);
    }
  }

  lemma WorkerStepRank(s: Pool, e: Event)
    requires Inv(s) && s.stopping && Enabled(s, e)
    requires e.SpuriousWorker? || e.WorkerSection? || e.NotifyOneSpace? || e.Finish?
    ensures Remaining(Step(s, e)) < Remaining(s)
  {
    var t := Step(s, e);
    SumUpdate(s.workers, e.w, t.workers[e.w], WorkerRank);
    if e.NotifyOneSpace? && e.caller.Some? {
      SumUpdate(s.callers, e.caller.value, t.callers[e.caller.value], CallerRank);
    }
  }

  lemma StepLowersRemaining(s: Pool, e: Event)
    requires Inv(s) && s.stopping && Enabled(s, e) && !IsArrival(e)
    ensures Remaining(Step(s, e)) < Remaining(s)
  {
    match e {
      case EnqueueSection(_) => CallerStepRank(s, e);
      case SpuriousCaller(_) => CallerStepRank(s, e);
      case NotifyOneTask(_, _) => CallerStepRank(s, e);
      case SpuriousWorker(w) => WorkerStepRank(s, e);
      case WorkerSection(w) => WorkerStepRank(s, e);
      case NotifyOneSpace(w, _) => WorkerStepRank(s, e);
      case Finish(w) => WorkerStepRank(s, e);
      case NotifyAllTasks => SumMonotone(Step(s, e).workers, s.workers, WorkerRank);
      case NotifyAllSpace => SumMonotone(Step(s, e).callers, s.callers, CallerRank);
      case Join =>
    }
  }

  lemma StoppedStep(s: Pool, e: Event)
    requires s.stopping && Enabled(s, e)
    ensures Step(s, e).stopping && Step(s, e).accepted == s.accepted
  {
  }

  /** Once the destructor has begun, a run without new callers has a bounded number of steps. */
  lemma {:induction false} DestructionTerminates(s: Pool, events: seq<Event>)
    requires Inv(s) && s.stopping && Execute(s, events).Some?
    requires forall i :: 0 <= i < |events| ==> !IsArrival(events[i])
    ensures |events| + Remaining(Execute(s, events).value) <= Remaining(s)
    ensures Execute(s, events).value.stopping
  {
    if |events| > 0 {
      var before := events[..|events| - 1];
      DestructionTerminates(s, before);
      ExecuteKeepsInv(s, before);
      StoppedStep(Execute(s, before).value, events[|events| - 1]);
      StepLowersRemaining(Execute(s, before).value, events[|events| - 1]);
    }
  }

  /** When the destructor has returned, every accepted task has been run, once, and was taken in
      the order of acceptance. */
  lemma DestroyedMeansDrained(s: Pool)
    requires Reachable(s) && s.destructor == Destroyed
    ensures s.tasks == [] && s.dequeued == s.accepted
    ensures multiset(s.finished) == multiset(s.accepted)
  {
    ReachableIsInv(s);
    assert s.workers[0] == Exited;
    assert s.dequeued + [] == s.dequeued;
    forall x ensures multiset(s.finished)[x] == multiset(s.accepted)[x] {
      NothingHeld(s.workers, x);
      CountIsMultiplicity(s.finished, x);
      CountIsMultiplicity(s.accepted, x);
    }
  }
}

/**
 The pool object: a queue and a flag under a mutex. Each method is one section of the source
 between taking and giving up the mutex, or one notification, and does what the machine says.
 */
module ThreadPool {
  import opened Collections
  import P = PoolProtocol

  class Pool {
    const maxPendingTasks: nat
    var tasks: seq<P.Task>
    var stopping: bool
    var workers: seq<P.WorkerState>
    var callers: seq<P.CallerState>
    var destructor: P.Destructor
    ghost var accepted: seq<P.Task>
    ghost var dequeued: seq<P.Task>
    ghost var finished: seq<P.Task>

    ghost function View(): P.Pool
      reads this
    {
      P.Pool(maxPendingTasks, tasks, stopping, workers, callers, destructor, accepted, dequeued, finished)
    }

    constructor (threadCount: nat, limit: nat)
      requires P.Created(threadCount, limit).Some?
      ensures View() == P.Created(threadCount, limit).value
    {
      maxPendingTasks := limit;
      tasks, stopping, callers, destructor := [], false, [], P.Alive;
      workers := seq(threadCount, i => P.Checking);
      accepted, dequeued, finished := [], [], [];
    }

    /** Enqueue, from taking the mutex to waiting, throwing, or giving the mutex up. */
    method EnqueueSection(c: nat)
      requires c < |callers| && callers[c].Entering?
      modifies this
      ensures View() == P.Step(old(View()), P.EnqueueSection(c))
      ensures var task, full := old(callers[c].task), |old(tasks)| >= maxPendingTasks;
              && callers[c] == (if old(stopping) then P.Returned(false) else if full then P.Blocked(task) else P.Notifying)
              && tasks == old(tasks) + (if !old(stopping) && !full then [task] else [])
    {
      var task := callers[c].task;
      if !(stopping || |tasks| < maxPendingTasks) {
        callers := callers[c := P.Blocked(task)];
        return;
      }
      if stopping {
        callers := callers[c := P.Returned(false)];
        return;
      }
      tasks := tasks + [task];
      accepted := accepted + [task];
      callers := callers[c := P.Notifying];
    }

    method TryEnqueue(task: P.Task) returns (queued: bool)
      modifies this
      ensures View() == P.Step(old(View()), P.TryEnqueue(task))
      ensures queued <==> !old(stopping) && |old(tasks)| < maxPendingTasks
      ensures tasks == old(tasks) + if queued then [task] else []
    {
      if stopping || |tasks| >= maxPendingTasks {
        callers := callers + [P.Returned(false)];
        return false;
      }
      tasks := tasks + [task];
      accepted := accepted + [task];
      callers := callers + [P.Notifying];
      return true;
    }

    /** task_available_.notify_one, after the mutex was given up. */
    method NotifyOneTask(c: nat, sleeper: Option<nat>)
      requires P.Enabled(View(), P.NotifyOneTask(c, sleeper))
      modifies this
      ensures View() == P.Step(old(View()), P.NotifyOneTask(c, sleeper))
    {
      if sleeper.Some? {
        workers := workers[sleeper.value := P.Checking];
      }
      callers := callers[c := P.Returned(true)];
    }

    /** The worker loop's locked section: sleep, leave, or take the oldest task. */
    method WorkerSection(w: nat)
      requires w < |workers| && workers[w] == P.Checking
      modifies this
      ensures View() == P.Step(old(View()), P.WorkerSection(w))
    {
      if !(stopping || |tasks| != 0) {
        workers := workers[w := P.Asleep];
        return;
      }
      if stopping && |tasks| == 0 {
        workers := workers[w := P.Exited];
        return;
      }
      var task := tasks[0];
      tasks := tasks[1..];
      dequeued := dequeued + [task];
      workers := workers[w := P.Announcing(task)];
    }

    /** space_available_.notify_one; the worker then runs its task. */
    method NotifyOneSpace(w: nat, caller: Option<nat>)
      requires P.Enabled(View(), P.NotifyOneSpace(w, caller))
      modifies this
      ensures View() == P.Step(old(View()), P.NotifyOneSpace(w, caller))
    {
      if caller.Some? {
        callers := callers[caller.value := P.Entering(callers[caller.value].task)];
      }
      workers := workers[w := P.Running(workers[w].task)];
    }

    method StopSection()
      requires destructor == P.Alive
      modifies this
      ensures View() == P.Step(old(View()), P.Stop)
    {
      stopping := true;
      destructor := P.NotifyTasks;
    }

    method WakeWorkers()
      modifies this`workers
      ensures workers == P.WokenWorkers(old(workers))
    {
      var i := 0;
      while i < |workers|
        invariant 0 <= i <= |workers| == |old(workers)|
        invariant forall j :: 0 <= j < i ==> workers[j] == P.WokenWorkers(old(workers))[j]
        invariant forall j :: i <= j < |workers| ==> workers[j] == old(workers)[j]
      {
        if workers[i] == P.Asleep {
          workers := workers[i := P.Checking];
        }
        i := i + 1;
      }
    }

    method WakeCallers()
      modifies this`callers
      ensures callers == P.WokenCallers(old(callers))
    {
      var i := 0;
      while i < |callers|
        invariant 0 <= i <= |callers| == |old(callers)|
        invariant forall j :: 0 <= j < i ==> callers[j] == P.WokenCallers(old(callers))[j]
        invariant forall j :: i <= j < |callers| ==> callers[j] == old(callers)[j]
      {
        if callers[i].Blocked? {
          callers := callers[i := P.Entering(callers[i].task)];
        }
        i := i + 1;
      }
    }

    method NotifyAllTasks()
      requires destructor == P.NotifyTasks
      modifies this
      ensures View() == P.Step(old(View()), P.NotifyAllTasks)
    {
      WakeWorkers();
      destructor := P.NotifySpace;
    }

    method NotifyAllSpace()
      requires destructor == P.NotifySpace
      modifies this
      ensures View() == P.Step(old(View()), P.NotifyAllSpace)
    {
      WakeCallers();
      destructor := P.Joining(0);
    }
  }
}
