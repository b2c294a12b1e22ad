/**
 The double-buffer hand-off of the asynchronous logger as an interleaving machine: any number of
 Push and Stop callers and one consumer thread. Each event is one section run under the mutex, one
 notification, or one step outside the mutex; a wait gives the mutex up and may wake spuriously.
 */
module AsyncProtocol {
  import opened Arithmetic
  import opened Collections
  import opened AsyncBuffer

  type Message = seq<byte>

  datatype Consumer =
    | Checking  // about to take the mutex and test its predicate
    | Asleep    // in consumer_ready_.wait
    | Holding   // has swapped; the callback comes next
    | Flushing  // the callback has returned; Reset comes next
    | Exited

  datatype Pusher =
    | Entering(message: Message)
    | Sleeping(message: Message)
    | Returned(accepted: bool)
    | Threw(message: Message)

  datatype Stopper = Calling | NotifyConsumer | NotifyProducers | Joining | Done(joined: bool)

  /** The fields of the source, the state of its threads, and (from `accepted` on) the history. */
  datatype Worker = Worker(
    safe: bool,
    config: Config,
    producer: seq<byte>,
    producerCap: nat,
    consumer: seq<byte>,
    consumerCap: nat,
    stopping: bool,
    thread: Consumer,
    pushers: seq<Pusher>,
    stoppers: seq<Stopper>,
    accepted: seq<Message>,
    waiting: seq<Message>,
    taken: seq<Message>,
    batches: seq<seq<Message>>,
    flushed: seq<seq<byte>>,
    leader: Option<nat>)

  datatype Event =
    | PushCall(message: Message)
    | PushSection(p: nat)
    | SpuriousPusher(p: nat)
    | ConsumerSection
    | SpuriousConsumer
    | Callback
    | ResetBuffer
    | StopCall
    | StopSection(k: nat)
    | WakeConsumer(k: nat)
    | WakeProducers(k: nat)
    | Join(k: nat)

  predicate MayPush(s: Worker, m: Message) {
    s.stopping || s.producer == [] || |m| <= s.producerCap - |s.producer|
  }

  function Woken(pushers: seq<Pusher>): seq<Pusher> {
    seq(|pushers|, i requires 0 <= i < |pushers| =>
      if pushers[i].Sleeping? then Entering(pushers[i].message) else pushers[i])
  }

  function Notified(thread: Consumer): Consumer { if thread == Asleep then Checking else thread }

  predicate Enabled(s: Worker, e: Event) {
    match e
    case PushCall(m) => |m| <= SIZE_MAX
    case PushSection(p) => p < |s.pushers| && s.pushers[p].Entering?
    case SpuriousPusher(p) => p < |s.pushers| && s.pushers[p].Sleeping?
    case ConsumerSection => s.thread == Checking
    case SpuriousConsumer => s.thread == Asleep
    case Callback => s.thread == Holding
    case ResetBuffer => s.thread == Flushing
    case StopCall => true
    case StopSection(k) => k < |s.stoppers| && s.stoppers[k] == Calling
    case WakeConsumer(k) => k < |s.stoppers| && s.stoppers[k] == NotifyConsumer
    case WakeProducers(k) => k < |s.stoppers| && s.stoppers[k] == NotifyProducers
    case Join(k) => k < |s.stoppers| && s.stoppers[k] == Joining && s.thread == Exited
  }

  function Accept(s: Worker, p: nat, m: Message): Worker
    requires ValidConfig(s.config) && p < |s.pushers|
  {
    s.(producer := s.producer + m,
       producerCap := CapacityAfter(s.producerCap, |s.producer|, |m|, s.config),
       thread := Notified(s.thread),
       pushers := s.pushers[p := Returned(true)],
       accepted := s.accepted + [m],
       waiting := s.waiting + [m])
  }

  function PushStep(s: Worker, p: nat): Worker
    requires ValidConfig(s.config) && Enabled(s, PushSection(p))
  {
    var m := s.pushers[p].message;
    if s.safe && !MayPush(s, m) then
      s.(pushers := s.pushers[p := Sleeping(m)])
    else if s.stopping then
      s.(pushers := s.pushers[p := Returned(false)])
    else if |m| > 0 && |s.producer| + |m| > SIZE_MAX then
      s.(pushers := s.pushers[p := Threw(m)])
    else
      Accept(s, p, m)
  }

  function ConsumeStep(s: Worker): Worker {
    if s.producer == [] then
      s.(thread := if s.stopping then Exited else Asleep)
    else
      s.(producer := s.consumer, producerCap := s.consumerCap,
         consumer := s.producer, consumerCap := s.producerCap,
         thread := Holding,
         pushers := Woken(s.pushers),
         waiting := [],
         taken := s.waiting)
  }

  function Step(s: Worker, e: Event): Worker
    requires ValidConfig(s.config) && Enabled(s, e)
  {
    match e
    case PushCall(m) => s.(pushers := s.pushers + [Entering(m)])
    case PushSection(p) => PushStep(s, p)
    case SpuriousPusher(p) => s.(pushers := s.pushers[p := Entering(s.pushers[p].message)])
    case ConsumerSection => ConsumeStep(s)
    case SpuriousConsumer => s.(thread := Checking)
    case Callback =>
      if s.consumer == [] then s.(thread := Flushing) else
      s.(thread := Flushing, flushed := s.flushed + [s.consumer], batches := s.batches + [s.taken], taken := [])
    case ResetBuffer => s.(thread := Checking, consumer := [])
    case StopCall => s.(stoppers := s.stoppers + [Calling])
    case StopSection(k) =>
      if s.stopping then s.(stoppers := s.stoppers[k := Done(false)])
      else s.(stopping := true, stoppers := s.stoppers[k := NotifyConsumer], leader := Some(k))
    case WakeConsumer(k) => s.(thread := Notified(s.thread), stoppers := s.stoppers[k := NotifyProducers])
    case WakeProducers(k) => s.(pushers := Woken(s.pushers), stoppers := s.stoppers[k := Joining])
    case Join(k) => s.(stoppers := s.stoppers[k := Done(true)])
  }

  function Initial(safe: bool, c: Config): Worker {
    Worker(safe, c, [], c.bufferSize, [], c.bufferSize, false, Checking, [], [], [], [], [], [], [], None)
  }

  /** The state a sequence of events leads to, if each was enabled in its turn. */
  function Execute(s: Worker, events: seq<Event>): (r: Option<Worker>)
    requires ValidConfig(s.config)
    ensures r.Some? ==> r.value.config == s.config && r.value.safe == s.safe
  {
    if |events| == 0 then Some(s) else
    var before := Execute(s, events[..|events| - 1]);
    var e := events[|events| - 1];
    if before.Some? && Enabled(before.value, e) then Some(Step(before.value, e)) else None
  }

  ghost predicate Reachable(s: Worker) {
    ValidConfig(s.config) && exists events :: Execute(Initial(s.safe, s.config), events) == Some(s)
  }

  // ----- invariants

  /** Bytes and messages: what was accepted is flushed, in flight or waiting, in lock order. */
  ghost predicate Conserved(s: Worker) {
    && s.accepted == Flatten(s.batches) + s.taken + s.waiting
    && s.producer == Flatten(s.waiting)
    && |s.batches| == |s.flushed|
    && (forall i :: 0 <= i < |s.batches| ==> s.flushed[i] == Flatten(s.batches[i]) && s.flushed[i] != [])
    && (s.thread == Holding ==> s.consumer != [] && s.consumer == Flatten(s.taken))
    && (s.thread != Holding ==> s.taken == [])
    && (s.thread != Holding && s.thread != Flushing ==> s.consumer == [])
  }

  /** Who sleeps, sleeps for a reason that still holds. */
  ghost predicate SleepersAreRight(s: Worker) {
    && (s.thread == Asleep ==> s.producer == [])
    && (s.thread == Exited ==> s.stopping && s.producer == [])
    && (forall i :: 0 <= i < |s.pushers| && s.pushers[i].Sleeping? ==>
          s.safe && s.producer != [] && |s.pushers[i].message| > s.producerCap - |s.producer|)
  }

  /** After stopping, a thread sleeps only while the stopper's notification is still to come. */
  ghost predicate StopInProgress(s: Worker) {
    && (s.stopping <==> s.leader.Some?)
    && (forall k :: 0 <= k < |s.stoppers| && s.leader != Some(k) ==> s.stoppers[k] in {Calling, Done(false)})
    && (s.stopping ==>
          && s.leader.value < |s.stoppers|
          && var lead := s.stoppers[s.leader.value];
          && lead in {NotifyConsumer, NotifyProducers, Joining, Done(true)}
          && (s.thread == Asleep ==> lead == NotifyConsumer)
          && (lead in {Joining, Done(true)} ==>
                forall i :: 0 <= i < |s.pushers| ==> !s.pushers[i].Sleeping?)
          && (lead == Done(true) ==> s.thread == Exited))
  }

  ghost predicate Roomy(s: Worker) {
    && 0 < s.producerCap && |s.producer| <= s.producerCap <= SIZE_MAX
    && 0 < s.consumerCap && |s.consumer| <= s.consumerCap <= SIZE_MAX
    && (forall i :: 0 <= i < |s.pushers| && (s.pushers[i].Entering? || s.pushers[i].Sleeping?) ==>
          |s.pushers[i].message| <= SIZE_MAX)
  }

  ghost predicate Inv(s: Worker) {
    ValidConfig(s.config) && Conserved(s) && SleepersAreRight(s) && StopInProgress(s) && Roomy(s)
  }

  lemma CapacityGrows(capacity: nat, used: nat, len: nat, c: Config)
    requires ValidConfig(c) && 0 < capacity && used <= capacity <= SIZE_MAX && used + len <= SIZE_MAX
    ensures used + len <= CapacityAfter(capacity, used, len, c) <= SIZE_MAX
    ensures capacity <= CapacityAfter(capacity, used, len, c)
  {
    if len > 0 && used + len > capacity {
      GrownIsEnoughAndBounded(capacity, used + len, c);
    }
  }

  lemma AcceptKeepsConserved(s: Worker, p: nat, m: Message)
    requires Inv(s) && p < |s.pushers| && !s.stopping
    ensures Conserved(Accept(s, p, m))
  {
    FlattenSnoc(s.waiting, m);
    assert Flatten(s.batches) + s.taken + (s.waiting + [m]) == s.accepted + [m];
  }

  lemma PushKeepsConserved(s: Worker, p: nat)
    requires Inv(s) && Enabled(s, PushSection(p))
    ensures Conserved(PushStep(s, p))
  {
    if !s.stopping {
      AcceptKeepsConserved(s, p, s.pushers[p].message);
    }
  }

  lemma SwapKeepsConserved(s: Worker)
    requires Inv(s) && s.thread == Checking
    ensures Conserved(ConsumeStep(s))
  {
    if s.producer != [] {
      assert Flatten(s.batches) + s.taken + s.waiting == Flatten(s.batches) + s.waiting + [];
    }
  }

  lemma CallbackKeepsConserved(s: Worker)
    requires Inv(s) && s.thread == Holding
    ensures Conserved(Step(s, Callback))
  {
    var t := Step(s, Callback);
    FlattenSnoc(s.batches, s.taken);
    assert Flatten(t.batches) + [] + s.waiting == Flatten(s.batches) + s.taken + s.waiting;
  }

  lemma StepKeepsConserved(s: Worker, e: Event)
    requires Inv(s) && Enabled(s, e)
    ensures Conserved(Step(s, e))
  {
    match e {
      case PushSection(p) => PushKeepsConserved(s, p);
      case ConsumerSection => SwapKeepsConserved(s);
      case Callback => CallbackKeepsConserved(s);
      case _ =>
    }
  }

  lemma PushKeepsSleepers(s: Worker, p: nat)
    requires Inv(s) && Enabled(s, PushSection(p))
    ensures SleepersAreRight(PushStep(s, p))
  {
    var m, t := s.pushers[p].message, PushStep(s, p);
    if t.accepted != s.accepted && s.safe && s.producer != [] {
      assert t.producerCap == s.producerCap && |t.producer| >= |s.producer|;
    }
  }

  lemma StepKeepsSleepers(s: Worker, e: Event)
    requires Inv(s) && Enabled(s, e)
    ensures SleepersAreRight(Step(s, e))
  {
    if e.PushSection? {
      PushKeepsSleepers(s, e.p);
    }
  }

  predicate OfStopper(e: Event) {
    e.StopCall? || e.StopSection? || e.WakeConsumer? || e.WakeProducers? || e.Join?
  }

  lemma StopperKeepsStop(s: Worker, e: Event)
    requires Inv(s) && Enabled(s, e) && OfStopper(e)
    ensures StopInProgress(Step(s, e))
  {
    if !e.StopCall? {
      assert s.stoppers[e.k] != Done(false);
    }
  }

  lemma StepKeepsStop(s: Worker, e: Event)
    requires Inv(s) && Enabled(s, e)
    ensures StopInProgress(Step(s, e))
  {
    if OfStopper(e) {
      StopperKeepsStop(s, e);
    } else {
      var t := Step(s, e);
      assert t.stoppers == s.stoppers && t.leader == s.leader && t.stopping == s.stopping;
      assert s.stopping ==> forall i :: 0 <= i < |t.pushers| && t.pushers[i].Sleeping? ==> i < |s.pushers| && s.pushers[i].Sleeping?;
    }
  }

  lemma StepKeepsRoom(s: Worker, e: Event)
    requires Inv(s) && Enabled(s, e)
    ensures Roomy(Step(s, e))
  {
    if e.PushSection? {
      var m := s.pushers[e.p].message;
      if |s.producer| + |m| <= SIZE_MAX {
        CapacityGrows(s.producerCap, |s.producer|, |m|, s.config);
      }
    }
  }

  lemma StepKeepsInv(s: Worker, e: Event)
    requires Inv(s) && Enabled(s, e)
    ensures Inv(Step(s, e))
  {
    StepKeepsConserved(s, e);
    StepKeepsSleepers(s, e);
    StepKeepsStop(s, e);
    StepKeepsRoom(s, e);
  }

  lemma {:induction false} ExecuteKeepsInv(s: Worker, events: seq<Event>)
    requires Inv(s) && Execute(s, events).Some?
    ensures Inv(Execute(s, events).value)
  {
    if |events| > 0 {
      ExecuteKeepsInv(s, events[..|events| - 1]);
      StepKeepsInv(Execute(s, events[..|events| - 1]).value, events[|events| - 1]);
    }
  }

  lemma ReachableIsInv(s: Worker)
    requires Reachable(s)
    ensures Inv(s)
  {
    var events :| Execute(Initial(s.safe, s.config), events) == Some(s);
    ExecuteKeepsInv(Initial(s.safe, s.config), events);
  }

  // ----- conservation

  lemma {:induction false} FlushedBytes(batches: seq<seq<Message>>, flushed: seq<seq<byte>>)
    requires |batches| == |flushed|
    requires forall i :: 0 <= i < |batches| ==> flushed[i] == Flatten(batches[i])
    ensures Flatten(flushed) == Flatten(Flatten(batches))
  {
    if |batches| > 0 {
      var n := |batches| - 1;
      FlushedBytes(batches[..n], flushed[..n]);
      FlattenConcat(Flatten(batches[..n]), batches[n]);
    }
  }

  /** Flushed, in-flight and waiting bytes are the accepted messages in lock order. */
  lemma BytesAreConserved(s: Worker)
    requires Reachable(s)
    ensures Flatten(s.flushed) + (if s.thread == Flushing then [] else s.consumer) + s.producer == Flatten(s.accepted)
  {
    ReachableIsInv(s);
    FlushedBytes(s.batches, s.flushed);
    FlattenConcat(Flatten(s.batches) + s.taken, s.waiting);
    FlattenConcat(Flatten(s.batches), s.taken);
  }

  /** Each flushed batch is a run of whole messages, and the batches follow the accepted order. */
  lemma BatchesAreWholeMessages(s: Worker)
    requires Reachable(s)
    ensures |s.batches| == |s.flushed| && Flatten(s.batches) <= s.accepted
    ensures forall i :: 0 <= i < |s.flushed| ==> s.flushed[i] == Flatten(s.batches[i]) && s.flushed[i] != []
  {
    ReachableIsInv(s);
    StartsWith(Flatten(s.batches), s.taken, s.waiting);
  }

  // ----- shutdown

  /** When the consumer thread is gone, all that was accepted has been flushed. */
  lemma ExitMeansDrained(s: Worker)
    requires Reachable(s) && s.thread == Exited
    ensures Flatten(s.flushed) == Flatten(s.accepted) && s.stopping
  {
    ReachableIsInv(s);
    BytesAreConserved(s);
  }

  /** The Stop caller that joins the thread returns only then. */
  lemma JoinedStopMeansDrained(s: Worker, k: nat)
    requires Reachable(s) && k < |s.stoppers| && s.stoppers[k] == Done(true)
    ensures s.thread == Exited && Flatten(s.flushed) == Flatten(s.accepted)
  {
    ReachableIsInv(s);
    ExitMeansDrained(s);
  }

  lemma StoppedStep(s: Worker, e: Event)
    requires Inv(s) && s.stopping && Enabled(s, e)
    ensures Step(s, e).stopping && Step(s, e).accepted == s.accepted
    ensures s.thread == Exited ==> Step(s, e).thread == Exited && Step(s, e).flushed == s.flushed
  {
  }

  /** Once stopping, nothing more is accepted, whatever callers still try. */
  lemma {:induction false} NothingAcceptedAfterStop(s: Worker, events: seq<Event>)
    requires Inv(s) && s.stopping && Execute(s, events).Some?
    ensures var t := Execute(s, events).value;
            && t.stopping && t.accepted == s.accepted
            && (s.thread == Exited ==> t.thread == Exited && t.flushed == s.flushed)
  {
    if |events| > 0 {
      var before := events[..|events| - 1];
      NothingAcceptedAfterStop(s, before);
      ExecuteKeepsInv(s, before);
      StoppedStep(Execute(s, before).value, events[|events| - 1]);
    }
  }

  function PusherRank(p: Pusher): nat {
    match p
    case Entering(_) => 1
    case Sleeping(_) => 2
    case _ => 0
  }

  function StopperRank(k: Stopper): nat {
    match k
    case NotifyConsumer => 3
    case NotifyProducers => 2
    case Done(_) => 0
    case _ => 1
  }

  function ThreadRank(t: Consumer): nat {
    match t
    case Exited => 0
    case Checking => 1
    case Holding => 3
    case _ => 2
  }

  /** Steps a stopping worker can still take. */
  function Remaining(s: Worker): nat {
    (if s.producer == [] then 0 else 4) + ThreadRank(s.thread)
    + Sum(s.pushers, PusherRank) + Sum(s.stoppers, StopperRank)
  }

  predicate IsArrival(e: Event) { e.PushCall? || e.StopCall? }

  lemma WakingLowersRank(pushers: seq<Pusher>)
    ensures Sum(Woken(pushers), PusherRank) <= Sum(pushers, PusherRank)
  {
    SumMonotone(Woken(pushers), pushers, PusherRank);
  }

  lemma PusherStepRank(s: Worker, e: Event)
    requires Inv(s) && s.stopping && Enabled(s, e) && (e.PushSection? || e.SpuriousPusher?)
    ensures Remaining(Step(s, e)) < Remaining(s)
  {
    SumUpdate(s.pushers, e.p, Step(s, e).pushers[e.p], PusherRank);
  }

  lemma StopperStepRank(s: Worker, e: Event)
    requires Inv(s) && s.stopping && Enabled(s, e) && OfStopper(e) && !e.StopCall?
    ensures Remaining(Step(s, e)) < Remaining(s)
  {
    SumUpdate(s.stoppers, e.k, Step(s, e).stoppers[e.k], StopperRank);
    WakingLowersRank(s.pushers);
  }

  lemma StepLowersRemaining(s: Worker, e: Event)
    requires Inv(s) && s.stopping && Enabled(s, e) && !IsArrival(e)
    ensures Remaining(Step(s, e)) < Remaining(s)
  {
    if e.PushSection? || e.SpuriousPusher? {
      PusherStepRank(s, e);
    } else if OfStopper(e) {
      StopperStepRank(s, e);
    } else {
      WakingLowersRank(s.pushers);
    }
  }

  /** A stopping worker without new callers makes a bounded number of steps, spurious ones included. */
  lemma {:induction false} StopTerminates(s: Worker, events: seq<Event>)
    requires Reachable(s) && s.stopping && Execute(s, events).Some?
    requires forall i :: 0 <= i < |events| ==> !IsArrival(events[i])
    ensures |events| + Remaining(Execute(s, events).value) <= Remaining(s)
  {
    if |events| > 0 {
      var before := events[..|events| - 1];
      StopTerminates(s, before);
      ReachableIsInv(s);
      ExecuteKeepsInv(s, before);
      NothingAcceptedAfterStop(s, before);
      StepLowersRemaining(Execute(s, before).value, events[|events| - 1]);
    }
  }

  // ----- no deadlock

  predicate OfConsumer(e: Event) { e.ConsumerSection? || e.Callback? || e.ResetBuffer? }

  /** Bytes not yet flushed, or a producer asleep: the consumer itself can take a step. */
  lemma NoDeadlock(s: Worker) returns (e: Event)
    requires Reachable(s)
    requires s.producer != [] || s.consumer != [] || exists i :: 0 <= i < |s.pushers| && s.pushers[i].Sleeping?
    ensures OfConsumer(e) && Enabled(s, e)
  {
    ReachableIsInv(s);
    e := if s.thread == Checking then ConsumerSection else if s.thread == Holding then Callback else ResetBuffer;
  }

  /** A worker that is asked to stop is never stuck before its stopper has joined the thread. */
  lemma StopNeverSticks(s: Worker, k: nat) returns (e: Event)
    requires Reachable(s) && s.leader == Some(k) && k < |s.stoppers| && s.stoppers[k] != Done(true)
    ensures Enabled(s, e) && !IsArrival(e) && !e.SpuriousPusher? && !e.SpuriousConsumer?
  {
    ReachableIsInv(s);
    match s.stoppers[k] {
      case NotifyConsumer => e := WakeConsumer(k);
      case NotifyProducers => e := WakeProducers(k);
      case Joining =>
        e := match s.thread
             case Exited => Join(k)
             case Holding => Callback
             case Flushing => ResetBuffer
             case _ => ConsumerSection;
    }
  }

  /** Consumer steps before the swap that empties the producer buffer. */
  function StepsToSwap(s: Worker): nat {
    match s.thread
    case Holding => 2
    case Flushing => 1
    case _ => 0
  }

  /** With bytes waiting, only the consumer moves its own thread: it comes closer to the swap, and
      the swap lets every producer in. */
  lemma SwapComesCloser(s: Worker, e: Event)
    requires Reachable(s) && s.producer != [] && Enabled(s, e)
    ensures var t := Step(s, e);
            if e.ConsumerSection? then
              && t.producer == []
              && forall i :: 0 <= i < |t.pushers| ==>
                   !t.pushers[i].Sleeping? && (t.pushers[i].Entering? ==> MayPush(t, t.pushers[i].message))
            else
              && t.producer != []
              && StepsToSwap(t) == StepsToSwap(s) - if OfConsumer(e) then 1 else 0
  {
    ReachableIsInv(s);
  }

  // ----- what becomes of a pushed message

  /** The messages of the Push calls of a run, in the order of the calls. */
  function Pushed(events: seq<Event>): seq<Message> {
    if |events| == 0 then [] else
    var e := events[|events| - 1];
    Pushed(events[..|events| - 1]) + if e.PushCall? then [e.message] else []
  }

  /** The weight of the message that a Push call still has in its hands, or had when it threw. */
  function Carried(weight: Message -> nat): Pusher -> nat {
    (p: Pusher) => if p.Returned? then 0 else weight(p.message)
  }

  /** Only a stopping worker refuses, and a Stop call that has got anywhere has set the flag. */
  ghost predicate RefusalsAreStops(s: Worker) {
    && (forall p :: 0 <= p < |s.pushers| && s.pushers[p] == Returned(false) ==> s.stopping)
    && (forall k :: 0 <= k < |s.stoppers| && s.stoppers[k] != Calling ==> s.stopping)
    && (s.stopping ==> |s.stoppers| > 0)
  }

  lemma StepKeepsRefusals(s: Worker, e: Event)
    requires ValidConfig(s.config) && RefusalsAreStops(s) && Enabled(s, e)
    ensures RefusalsAreStops(Step(s, e))
  {
  }

  lemma {:induction false} RunKeepsRefusals(safe: bool, c: Config, events: seq<Event>)
    requires ValidConfig(c) && Execute(Initial(safe, c), events).Some?
    ensures RefusalsAreStops(Execute(Initial(safe, c), events).value)
  {
    if |events| > 0 {
      RunKeepsRefusals(safe, c, events[..|events| - 1]);
      StepKeepsRefusals(Execute(Initial(safe, c), events[..|events| - 1]).value, events[|events| - 1]);
    }
  }

  /** A Push that returned false was refused because of a Stop, never for lack of room. */
  lemma RefusedOnlyWhenStopping(s: Worker, p: nat)
    requires Reachable(s) && p < |s.pushers| && s.pushers[p] == Returned(false)
    ensures s.stopping && |s.stoppers| > 0
  {
    var events :| Execute(Initial(s.safe, s.config), events) == Some(s);
    RunKeepsRefusals(s.safe, s.config, events);
  }

  /** No message is lost or invented: whatever its weight, what was pushed is accepted, still in the
      hands of its call, or was thrown back. */
  ghost predicate AllAccounted(s: Worker, events: seq<Event>, weight: Message -> nat) {
    Sum(Pushed(events), weight) == Sum(s.accepted, weight) + Sum(s.pushers, Carried(weight))
  }

  lemma {:induction false} WakingKeepsCarried(pushers: seq<Pusher>, weight: Message -> nat)
    ensures Sum(Woken(pushers), Carried(weight)) == Sum(pushers, Carried(weight))
  {
    if |pushers| > 0 {
      var n := |pushers| - 1;
      WakingKeepsCarried(pushers[..n], weight);
      assert Woken(pushers)[..n] == Woken(pushers[..n]);
    }
  }

  lemma PusherKeepsAccount(s: Worker, e: Event, weight: Message -> nat)
    requires ValidConfig(s.config) && !s.stopping && Enabled(s, e) && (e.PushSection? || e.SpuriousPusher?)
    ensures var t := Step(s, e);
            Sum(t.accepted, weight) + Sum(t.pushers, Carried(weight)) == Sum(s.accepted, weight) + Sum(s.pushers, Carried(weight))
  {
    var t := Step(s, e);
    SumUpdate(s.pushers, e.p, t.pushers[e.p], Carried(weight));
    SumSnoc(s.accepted, s.pushers[e.p].message, weight);
  }

  lemma OtherKeepsAccount(s: Worker, e: Event, weight: Message -> nat)
    requires ValidConfig(s.config) && Enabled(s, e) && !e.PushSection? && !e.SpuriousPusher? && !e.PushCall?
    ensures var t := Step(s, e);
            t.accepted == s.accepted && Sum(t.pushers, Carried(weight)) == Sum(s.pushers, Carried(weight))
  {
    WakingKeepsCarried(s.pushers, weight);
  }

  lemma {:induction false} RunKeepsAccount(safe: bool, c: Config, events: seq<Event>, weight: Message -> nat)
    requires ValidConfig(c) && Execute(Initial(safe, c), events).Some?
    requires !Execute(Initial(safe, c), events).value.stopping
    ensures AllAccounted(Execute(Initial(safe, c), events).value, events, weight)
  {
    if |events| > 0 {
      var before, e := events[..|events| - 1], events[|events| - 1];
      var s := Execute(Initial(safe, c), before).value;
      assert !s.stopping;
      RunKeepsAccount(safe, c, before, weight);
      if e.PushCall? {
        SumSnoc(s.pushers, Entering(e.message), Carried(weight));
        SumSnoc(Pushed(before), e.message, weight);
      } else {
        assert Pushed(before) + [] == Pushed(before);
        if e.PushSection? || e.SpuriousPusher? {
          PusherKeepsAccount(s, e, weight);
        } else {
          OtherKeepsAccount(s, e, weight);
        }
      }
    }
  }

  lemma {:induction false} NothingCarried(pushers: seq<Pusher>, weight: Message -> nat)
    requires forall i :: 0 <= i < |pushers| ==> pushers[i].Returned?
    ensures Sum(pushers, Carried(weight)) == 0
  {
    if |pushers| > 0 {
      NothingCarried(pushers[..|pushers| - 1], weight);
    }
  }

  lemma {:induction false} NobodyStops(safe: bool, c: Config, events: seq<Event>)
    requires ValidConfig(c) && Execute(Initial(safe, c), events).Some? && StopCall !in events
    ensures Execute(Initial(safe, c), events).value.stoppers == []
  {
    if |events| > 0 {
      NobodyStops(safe, c, events[..|events| - 1]);
    }
  }

  lemma QuietMeansFlushed(s: Worker)
    requires Reachable(s) && forall e :: OfConsumer(e) ==> !Enabled(s, e)
    ensures s.producer == [] && s.consumer == []
    ensures forall p :: 0 <= p < |s.pushers| ==> !s.pushers[p].Sleeping?
  {
    if s.producer != [] || s.consumer != [] || exists i :: 0 <= i < |s.pushers| && s.pushers[i].Sleeping? {
      var e := NoDeadlock(s);
    }
  }

  /** When neither the consumer nor a Push call can take its step, and nobody has called Stop, every
      pushed message has been accepted, unless its call threw, and all that was accepted has been
      flushed. */
  lemma QuietWorkerHasFlushedAll(safe: bool, c: Config, events: seq<Event>)
    requires ValidConfig(c) && Execute(Initial(safe, c), events).Some? && StopCall !in events
    requires forall e :: OfConsumer(e) || e.PushSection? ==> !Enabled(Execute(Initial(safe, c), events).value, e)
    ensures var s := Execute(Initial(safe, c), events).value;
            && Flatten(s.flushed) == Flatten(s.accepted)
            && (forall p :: 0 <= p < |s.pushers| ==> s.pushers[p] == Returned(true) || s.pushers[p].Threw?)
            && (forall m :: AllAccounted(s, events, Is(m)))
            && ((forall p :: 0 <= p < |s.pushers| ==> !s.pushers[p].Threw?) ==> multiset(s.accepted) == multiset(Pushed(events)))
  {
    var s := Execute(Initial(safe, c), events).value;
    assert Reachable(s);
    NobodyStops(safe, c, events);
    RunKeepsRefusals(safe, c, events);
    BytesAreConserved(s);
    QuietMeansFlushed(s);
    forall m ensures AllAccounted(s, events, Is(m)) { RunKeepsAccount(safe, c, events, Is(m)); }
    forall p | 0 <= p < |s.pushers|
      ensures s.pushers[p] == Returned(true) || s.pushers[p].Threw?
    {
      assert !Enabled(s, PushSection(p));
    }
    if forall p :: 0 <= p < |s.pushers| ==> !s.pushers[p].Threw? {
      forall m ensures multiset(s.accepted)[m] == multiset(Pushed(events))[m] {
        NothingCarried(s.pushers, Is(m));
        CountIsMultiplicity(s.accepted, m);
        CountIsMultiplicity(Pushed(events), m);
        assert AllAccounted(s, events, Is(m));
      }
    }
  }

  function Length(m: Message): nat { |m| }

  lemma {:induction false} FlattenLength(messages: seq<Message>)
    ensures |Flatten(messages)| == Sum(messages, Length)
  {
    if |messages| > 0 {
      FlattenLength(messages[..|messages| - 1]);
    }
  }

  predicate Throws(s: Worker, p: nat)
    requires ValidConfig(s.config)
  {
    Enabled(s, PushSection(p)) && PushStep(s, p).pushers[p].Threw?
  }

  lemma ThrowMeansNoRoom(s: Worker, p: nat)
    requires Inv(s) && Throws(s, p)
    ensures !s.safe && !s.stopping && |s.producer| + |s.pushers[p].message| > SIZE_MAX
  {
  }

  lemma WaitingIsAccepted(s: Worker)
    requires Reachable(s)
    ensures |s.producer| <= Sum(s.accepted, Length)
  {
    BytesAreConserved(s);
    FlattenLength(s.accepted);
  }

  /** A push that would overflow size_t, at the moment it throws. */
  lemma ThrowOverflows(safe: bool, c: Config, events: seq<Event>, p: nat)
    requires ValidConfig(c) && Execute(Initial(safe, c), events).Some?
    requires Throws(Execute(Initial(safe, c), events).value, p)
    ensures !safe && Sum(Pushed(events), Length) > SIZE_MAX
  {
    var s := Execute(Initial(safe, c), events).value;
    ReachableIsInv(s);
    ThrowMeansNoRoom(s, p);
    WaitingIsAccepted(s);
    RunKeepsAccount(safe, c, events, Length);
    SumAtLeast(s.pushers, p, Carried(Length));
  }

  /** A push throws only if more bytes were pushed altogether than size_t can count, and never in safe
      mode. */
  lemma {:induction false} ThrowsOnlyOnOverflow(safe: bool, c: Config, events: seq<Event>, p: nat)
    requires ValidConfig(c) && Execute(Initial(safe, c), events).Some?
    requires var s := Execute(Initial(safe, c), events).value; p < |s.pushers| && s.pushers[p].Threw?
    ensures !safe && Sum(Pushed(events), Length) > SIZE_MAX
  {
    var before, e := events[..|events| - 1], events[|events| - 1];
    var s := Execute(Initial(safe, c), before).value;
    if p < |s.pushers| && s.pushers[p].Threw? {
      ThrowsOnlyOnOverflow(safe, c, before, p);
      if e.PushCall? {
        SumSnoc(Pushed(before), e.message, Length);
      } else {
        assert Pushed(before) + [] == Pushed(before);
      }
    } else {
      assert e == PushSection(p);
      ThrowOverflows(safe, c, before, p);
      assert Pushed(before) + [] == Pushed(before);
    }
  }

  // ----- memory

  /** The most either buffer ever holds room for when no message is longer than `longest`. */
  function Footprint(c: Config, longest: nat): nat
    requires ValidConfig(c)
  {
    if longest == 0 then c.bufferSize else Max(c.bufferSize, longest - 1 + Slack(longest, c))
  }

  ghost predicate Small(s: Worker, longest: nat)
    requires ValidConfig(s.config)
  {
    && s.producerCap <= Footprint(s.config, longest) && s.consumerCap <= Footprint(s.config, longest)
    && forall i :: 0 <= i < |s.pushers| && (s.pushers[i].Entering? || s.pushers[i].Sleeping?) ==>
         |s.pushers[i].message| <= longest
  }

  /** In safe mode a buffer grows only when it is empty. */
  lemma PushKeepsSmall(s: Worker, p: nat, longest: nat)
    requires Inv(s) && s.safe && Small(s, longest) && Enabled(s, PushSection(p))
    ensures Small(PushStep(s, p), longest)
  {
    var m := s.pushers[p].message;
    if s.producer == [] && |m| > s.producerCap {
      GrownIsEnoughAndBounded(s.producerCap, |m|, s.config);
    }
  }

  lemma StepKeepsSmall(s: Worker, e: Event, longest: nat)
    requires Inv(s) && s.safe && Small(s, longest) && Enabled(s, e)
    requires e.PushCall? ==> |e.message| <= longest
    ensures Small(Step(s, e), longest)
  {
    if e.PushSection? {
      PushKeepsSmall(s, e.p, longest);
    }
  }

  /** ASYNC_SAFE: whatever the schedule, memory stays within the footprint of the longest message. */
  lemma {:induction false} MemoryIsBounded(c: Config, events: seq<Event>, longest: nat)
    requires ValidConfig(c) && Execute(Initial(true, c), events).Some?
    requires forall i :: 0 <= i < |events| && events[i].PushCall? ==> |events[i].message| <= longest
    ensures Small(Execute(Initial(true, c), events).value, longest)
  {
    if |events| > 0 {
      var before := events[..|events| - 1];
      MemoryIsBounded(c, before, longest);
      ExecuteKeepsInv(Initial(true, c), before);
      StepKeepsSmall(Execute(Initial(true, c), before).value, events[|events| - 1], longest);
    }
  }
}

/**
 The worker itself: two buffer objects and a flag under a mutex. Each method is one section of the
 source between taking and giving up the mutex, or one notification, and does what the machine says.
 */
module AsyncWorker {
  import opened Collections
  import opened AsyncBuffer
  import P = AsyncProtocol

  class Worker {
    const safe: bool
    const producer: Buffer
    const consumer: Buffer
    var stopping: bool
    var thread: P.Consumer
    var pushers: seq<P.Pusher>
    var stoppers: seq<P.Stopper>
    var flushed: seq<seq<byte>>
    ghost var accepted: seq<P.Message>
    ghost var waiting: seq<P.Message>
    ghost var taken: seq<P.Message>
    ghost var batches: seq<seq<P.Message>>
    ghost var leader: Option<nat>

    ghost predicate Valid()
      reads this, producer, consumer
    {
      && producer != consumer && producer.bytes != consumer.bytes
      && producer.Valid() && consumer.Valid() && producer.config == consumer.config
    }

    ghost function View(): P.Worker
      reads this, producer, consumer, producer.bytes, consumer.bytes
      requires Valid()
    {
      P.Worker(safe, producer.config,
               producer.Contents(), producer.bytes.Length, consumer.Contents(), consumer.bytes.Length,
               stopping, thread, pushers, stoppers, accepted, waiting, taken, batches, flushed, leader)
    }

    constructor (asyncSafe: bool, c: Config)
      requires ValidConfig(c)
      ensures Valid() && View() == P.Initial(asyncSafe, c)
      ensures fresh(producer) && fresh(consumer) && fresh(producer.bytes) && fresh(consumer.bytes)
    {
      safe := asyncSafe;
      producer := new Buffer(c);
      consumer := new Buffer(c);
      stopping, thread, pushers, stoppers, flushed := false, P.Checking, [], [], [];
      accepted, waiting, taken, batches, leader := [], [], [], [], None;
    }

    method WakeAllProducers()
      modifies this`pushers
      ensures pushers == P.Woken(old(pushers))
    {
      var i := 0;
      while i < |pushers|
        invariant 0 <= i <= |pushers| == |old(pushers)|
        invariant pushers == P.Woken(old(pushers))[..i] + old(pushers)[i..]
      {
        if pushers[i].Sleeping? {
          pushers := pushers[i := P.Entering(pushers[i].message)];
        }
        i := i + 1;
      }
    }

    /** buffer_producer_.Push of one message; false stands for its exception. */
    method Store(m: P.Message) returns (stored: bool)
      requires Valid() && |m| <= SIZE_MAX
      modifies producer, producer.bytes
      ensures Valid() && (producer.bytes == old(producer.bytes) || fresh(producer.bytes))
      ensures stored <==> |m| == 0 || old(|producer.Contents()|) + |m| <= SIZE_MAX
      ensures producer.Contents() == if stored then old(producer.Contents()) + m else old(producer.Contents())
      ensures producer.bytes.Length == if stored
                then CapacityAfter(old(producer.bytes.Length), old(|producer.Contents()|), |m|, producer.config)
                else old(producer.bytes.Length)
    {
      var data := new byte[|m|](i requires 0 <= i < |m| => m[i]);
      assert data[..|m|] == m;
      var result := producer.Push(data, |m|);
      stored := result == Pushed;
    }

    /** Appends a message and notifies the consumer, or throws. */
    method Deliver(p: nat, m: P.Message)
      requires Valid() && p < |pushers| && |m| <= SIZE_MAX
      modifies this, producer, producer.bytes
      ensures Valid() && (producer.bytes == old(producer.bytes) || fresh(producer.bytes))
      ensures View() == if |m| > 0 && |old(View()).producer| + |m| > SIZE_MAX
                        then old(View()).(pushers := old(pushers)[p := P.Threw(m)]) else P.Accept(old(View()), p, m)
    {
      var stored := Store(m);
      if !stored {
        pushers := pushers[p := P.Threw(m)];
        return;
      }
      thread := P.Notified(thread);
      pushers := pushers[p := P.Returned(true)];
      accepted, waiting := accepted + [m], waiting + [m];
    }

    /** Push, from taking the mutex to waiting or returning. */
    method PushSection(p: nat)
      requires Valid() && p < |pushers| && pushers[p].Entering? && |pushers[p].message| <= SIZE_MAX
      modifies this, producer, producer.bytes
      ensures Valid() && (producer.bytes == old(producer.bytes) || fresh(producer.bytes))
      ensures View() == P.Step(old(View()), P.PushSection(p))
      ensures var m, full := old(pushers[p].message), old(producer.Contents() != [] && |pushers[p].message| > producer.bytes.Length - |producer.Contents()|);
              pushers[p] == if safe && full && !old(stopping) then P.Sleeping(m)
                            else if old(stopping) then P.Returned(false)
                            else if |m| > 0 && old(|producer.Contents()|) + |m| > SIZE_MAX then P.Threw(m)
                            else P.Returned(true)
      ensures producer.Contents() == old(producer.Contents()) + if pushers[p] == P.Returned(true) then old(pushers[p].message) else []
    {
      var m := pushers[p].message;
      if safe {
        var empty := producer.IsEmpty();
        var room := producer.WriteableSize();
        if !(stopping || empty || |m| <= room) {
          pushers := pushers[p := P.Sleeping(m)];
          return;
        }
      }
      if stopping {
        pushers := pushers[p := P.Returned(false)];
        return;
      }
      Deliver(p, m);
    }

    /** The consumer's locked section: wait, leave, or swap the buffers. */
    method ConsumerSection()
      requires Valid() && thread == P.Checking
      modifies this, producer, consumer
      ensures Valid() && View() == P.Step(old(View()), P.ConsumerSection)
      ensures thread == if old(producer.Contents() != []) then P.Holding else if stopping then P.Exited else P.Asleep
      ensures {producer.bytes, consumer.bytes} == old({producer.bytes, consumer.bytes})
    {
      var empty := producer.IsEmpty();
      if empty {
        thread := if stopping then P.Exited else P.Asleep;
        return;
      }
      producer.Swap(consumer);
      WakeAllProducers();
      thread := P.Holding;
      waiting, taken := [], waiting;
    }

    /** The callback, which receives the consumer buffer when it is not empty. */
    method Callback()
      requires Valid() && thread == P.Holding
      modifies this
      ensures Valid() && View() == P.Step(old(View()), P.Callback)
    {
      var empty := consumer.IsEmpty();
      if !empty {
        flushed := flushed + [consumer.bytes[consumer.readPos..consumer.writePos]];
        batches, taken := batches + [taken], [];
      }
      thread := P.Flushing;
    }

    method ResetBuffer()
      requires Valid() && thread == P.Flushing
      modifies this, consumer
      ensures Valid() && View() == P.Step(old(View()), P.ResetBuffer)
    {
      consumer.Reset();
      thread := P.Checking;
    }

    /** Stop, from taking the mutex to giving it up: only the first caller goes on to join. */
    method StopSection(k: nat)
      requires Valid() && k < |stoppers| && stoppers[k] == P.Calling
      modifies this
      ensures Valid() && View() == P.Step(old(View()), P.StopSection(k))
    {
      if stopping {
        stoppers := stoppers[k := P.Done(false)];
        return;
      }
      stopping := true;
      stoppers := stoppers[k := P.NotifyConsumer];
      leader := Some(k);
    }

    method NotifyStop(k: nat)
      requires Valid() && k < |stoppers| && (stoppers[k] == P.NotifyConsumer || stoppers[k] == P.NotifyProducers)
      modifies this
      ensures Valid()
      ensures View() == P.Step(old(View()), if old(stoppers[k]) == P.NotifyConsumer then P.WakeConsumer(k) else P.WakeProducers(k))
    {
      if stoppers[k] == P.NotifyConsumer {
        thread := P.Notified(thread);
        stoppers := stoppers[k := P.NotifyProducers];
      } else {
        WakeAllProducers();
        stoppers := stoppers[k := P.Joining];
      }
    }
  }
}
