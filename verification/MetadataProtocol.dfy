/**
 Concurrent callers of the metadata manager, and a crash at any moment. A mutation takes the
 mutation mutex, copies and edits the table under the shared lock, renames the new snapshot into
 place, and swaps the table in under the exclusive lock; readers only take the shared lock. Each
 event is one of these sections. A crash loses the memory and every call in flight, and start-up
 loads what the snapshot file holds.
 */
module MetadataProtocol {
  import opened Collections
  import opened StorageMetadata

  datatype DataResult = Ok | NotFound | AlreadyExists | PersistFailed

  datatype Op = Insert(info: StorageInfo) | Delete(url: string)

  datatype Query = One(url: string) | All

  datatype Answer = Record(info: Option<StorageInfo>) | Records(table: Table)

  /** A call and how far it is. `since` is how many mutations had taken effect when it was made,
      `at` how many when it took effect itself. */
  datatype Caller =
    | Waiting(op: Op, since: nat)
    | Locked(op: Op, since: nat)
    | Saving(op: Op, since: nat, next: Table)
    | Renamed(op: Op, since: nat, next: Table)
    | Returned(op: Op, since: nat, at: nat, result: DataResult)
    | Asking(query: Query, since: nat)
    | Answered(query: Query, since: nat, at: nat, answer: Answer)
    | Lost(op: Op, effect: Option<nat>)
    | Unanswered

  datatype Entry = Entry(op: Op, caller: nat)

  /** The fields of the manager, its snapshot file, its callers, and (from `base` on) the history:
      the table loaded first and the mutations that took effect. */
  datatype State = State(
    mem: Table,
    disk: Stored,
    holder: Option<nat>,
    callers: seq<Caller>,
    base: Table,
    log: seq<Entry>)

  datatype Event =
    | Call(op: Op)
    | Ask(query: Query)
    | Lock(k: nat)
    | Copy(k: nat)
    | PersistFails(k: nat)
    | Rename(k: nat, snapshot: Stored)
    | Swap(k: nat)
    | Read(k: nat)
    | Crash

  // ----- the sequential map

  function UrlOf(op: Op): string { if op.Insert? then op.info.url else op.url }

  function Verdict(table: Table, op: Op): DataResult {
    match op
    case Insert(info) => if info.url in table then AlreadyExists else Ok
    case Delete(url) => if url in table then Ok else NotFound
  }

  function Apply(table: Table, op: Op): Table {
    match op
    case Insert(info) => table[info.url := info]
    case Delete(url) => table - {url}
  }

  function Replay(base: Table, log: seq<Entry>): Table {
    if |log| == 0 then base else Apply(Replay(base, log[..|log| - 1]), log[|log| - 1].op)
  }

  function Reply(table: Table, query: Query): Answer {
    match query
    case One(url) => Record(if url in table then Some(table[url]) else None)
    case All => Records(table)
  }

  // ----- the machine

  predicate IsRenamed(s: State, k: nat) { k < |s.callers| && s.callers[k].Renamed? }

  ghost predicate Enabled(s: State, e: Event, r: Rules) {
    match e
    case Call(_) => true
    case Ask(_) => true
    case Lock(k) => k < |s.callers| && s.callers[k].Waiting? && s.holder == None
    case Copy(k) => k < |s.callers| && s.callers[k].Locked?
    case PersistFails(k) => k < |s.callers| && s.callers[k].Saving?
    case Rename(k, snapshot) => k < |s.callers| && s.callers[k].Saving? && Holds(snapshot, s.callers[k].next)
    case Swap(k) => IsRenamed(s, k)
    case Read(k) => k < |s.callers| && s.callers[k].Asking?
    case Crash => Load(s.disk, r).Some?
  }

  function Return(s: State, k: nat, op: Op, since: nat, result: DataResult): State
    requires k < |s.callers|
  {
    s.(holder := None, callers := s.callers[k := Returned(op, since, |s.log|, result)])
  }

  /** What a crash makes of a call: one whose snapshot is in place has taken effect. */
  function Fate(c: Caller, at: nat): Caller {
    match c
    case Renamed(op, _, _) => Lost(op, Some(at))
    case Waiting(op, _) => Lost(op, None)
    case Locked(op, _) => Lost(op, None)
    case Saving(op, _, _) => Lost(op, None)
    case Asking(_, _) => Unanswered
    case _ => c
  }

  function AfterCrash(callers: seq<Caller>, at: nat): (after: seq<Caller>)
    ensures |after| == |callers|
    ensures forall i :: 0 <= i < |callers| ==> after[i] == Fate(callers[i], at)
  {
    seq(|callers|, i requires 0 <= i < |callers| => Fate(callers[i], at))
  }

  ghost function Step(s: State, e: Event, r: Rules): State
    requires Enabled(s, e, r)
  {
    match e
    case Call(op) => s.(callers := s.callers + [Waiting(op, |s.log|)])
    case Ask(query) => s.(callers := s.callers + [Asking(query, |s.log|)])
    case Lock(k) => s.(holder := Some(k), callers := s.callers[k := Locked(s.callers[k].op, s.callers[k].since)])
    case Copy(k) =>
      var Locked(op, since) := s.callers[k];
      if Verdict(s.mem, op) != Ok then Return(s, k, op, since, Verdict(s.mem, op))
      else s.(callers := s.callers[k := Saving(op, since, Apply(s.mem, op))])
    case PersistFails(k) =>
      var Saving(op, since, _) := s.callers[k];
      Return(s, k, op, since, PersistFailed)
    case Rename(k, snapshot) =>
      var Saving(op, since, next) := s.callers[k];
      s.(disk := snapshot, callers := s.callers[k := Renamed(op, since, next)])
    case Swap(k) =>
      var Renamed(op, since, next) := s.callers[k];
      Return(s, k, op, since, Ok).(mem := next, log := s.log + [Entry(op, k)])
    case Read(k) =>
      var Asking(query, since) := s.callers[k];
      s.(callers := s.callers[k := Answered(query, since, |s.log|, Reply(s.mem, query))])
    case Crash =>
      State(Load(s.disk, r).value, s.disk, None, AfterCrash(s.callers, |s.log|), s.base,
            if s.holder.Some? && IsRenamed(s, s.holder.value)
            then s.log + [Entry(s.callers[s.holder.value].op, s.holder.value)] else s.log)
  }

  ghost function Initial(found: Stored, r: Rules): State
    requires Load(found, r).Some?
  {
    State(Load(found, r).value, found, None, [], Load(found, r).value, [])
  }

  /** The state a run ends in, if each of its events could happen when it did. */
  ghost function Execute(s: State, events: seq<Event>, r: Rules): Option<State> {
    if |events| == 0 then Some(s) else
    var before := Execute(s, events[..|events| - 1], r);
    var e := events[|events| - 1];
    if before.Some? && Enabled(before.value, e, r) then Some(Step(before.value, e, r)) else None
  }

  // ----- what every step keeps

  predicate InSection(c: Caller) { c.Locked? || c.Saving? || c.Renamed? }

  /** The mutation mutex has one owner, and what it carries fits the table in memory. */
  ghost predicate MutexInv(s: State) {
    && (forall k :: 0 <= k < |s.callers| && InSection(s.callers[k]) ==> s.holder == Some(k))
    && (s.holder.Some? ==> s.holder.value < |s.callers| && InSection(s.callers[s.holder.value]))
    && (forall k :: 0 <= k < |s.callers| && (s.callers[k].Saving? || s.callers[k].Renamed?) ==>
          Verdict(s.mem, s.callers[k].op) == Ok && s.callers[k].next == Apply(s.mem, s.callers[k].op))
  }

  /** The table that the snapshot file stands for. */
  function Durable(s: State): Table {
    if s.holder.Some? && IsRenamed(s, s.holder.value) then s.callers[s.holder.value].next else s.mem
  }

  ghost predicate TableInv(s: State, r: Rules) {
    && Keyed(s.mem) && StandsFor(s.disk, Durable(s), r)
    && s.mem == Replay(s.base, s.log)
  }

  /** Each finished call has its place in the sequential history, after its invocation. */
  ghost predicate Placed(c: Caller, k: nat, base: Table, log: seq<Entry>) {
    match c
    case Returned(op, since, at, result) =>
      && since <= at <= |log|
      && (result == Ok ==> at < |log| && log[at] == Entry(op, k))
      && (result != PersistFailed ==> Verdict(Replay(base, log[..at]), op) == result)
    case Answered(query, since, at, answer) =>
      since <= at <= |log| && answer == Reply(Replay(base, log[..at]), query)
    case Lost(op, effect) => effect.Some? ==> effect.value < |log| && log[effect.value] == Entry(op, k)
    case Unanswered => true
    case _ => c.since <= |log|
  }

  ghost predicate HistoryInv(s: State) {
    forall k :: 0 <= k < |s.callers| ==> Placed(s.callers[k], k, s.base, s.log)
  }

  predicate Committed(c: Caller, at: nat) {
    (c.Returned? && c.result == Ok && c.at == at) || (c.Lost? && c.effect == Some(at))
  }

  /** Each mutation in the history belongs to one call, acknowledged or lost in a crash. */
  ghost predicate OwnerInv(s: State) {
    forall i :: 0 <= i < |s.log| ==> s.log[i].caller < |s.callers| && Committed(s.callers[s.log[i].caller], i)
  }

  ghost predicate Inv(s: State, r: Rules) {
    MutexInv(s) && TableInv(s, r) && HistoryInv(s) && OwnerInv(s)
  }

  lemma CrashKeepsMutexInv(s: State, r: Rules)
    requires Inv(s, r) && Enabled(s, Crash, r)
    ensures MutexInv(Step(s, Crash, r))
  {
  }

  lemma StepKeepsMutexInv(s: State, e: Event, r: Rules)
    requires Inv(s, r) && Enabled(s, e, r)
    ensures MutexInv(Step(s, e, r))
  {
    if e.Crash? {
      CrashKeepsMutexInv(s, r);
    }
  }

  lemma ReplaySnoc(base: Table, log: seq<Entry>, entry: Entry)
    ensures Replay(base, log + [entry]) == Apply(Replay(base, log), entry.op)
  {
    assert (log + [entry])[..|log|] == log;
  }

  lemma ApplyKeepsKeyed(table: Table, op: Op)
    requires Keyed(table)
    ensures Keyed(Apply(table, op))
  {
  }

  lemma RenameKeepsTableInv(s: State, k: nat, snapshot: Stored, r: Rules)
    requires MutexInv(s) && TableInv(s, r) && Enabled(s, Rename(k, snapshot), r)
    ensures TableInv(Step(s, Rename(k, snapshot), r), r)
  {
    assert s.holder == Some(k);
  }

  lemma SwapKeepsTableInv(s: State, k: nat, r: Rules)
    requires MutexInv(s) && TableInv(s, r) && Enabled(s, Swap(k), r)
    ensures TableInv(Step(s, Swap(k), r), r)
  {
    assert s.holder == Some(k);
    ApplyKeepsKeyed(s.mem, s.callers[k].op);
    ReplaySnoc(s.base, s.log, Entry(s.callers[k].op, k));
  }

  lemma CrashKeepsTableInv(s: State, r: Rules)
    requires MutexInv(s) && TableInv(s, r) && Enabled(s, Crash, r)
    ensures TableInv(Step(s, Crash, r), r)
    ensures Step(s, Crash, r).mem == Durable(s)
  {
    if s.holder.Some? && IsRenamed(s, s.holder.value) {
      var k := s.holder.value;
      ApplyKeepsKeyed(s.mem, s.callers[k].op);
      ReplaySnoc(s.base, s.log, Entry(s.callers[k].op, k));
    }
    LoadsIfGood(s.disk, Durable(s), r);
  }

  lemma StepKeepsTableInv(s: State, e: Event, r: Rules)
    requires MutexInv(s) && TableInv(s, r) && Enabled(s, e, r)
    ensures TableInv(Step(s, e, r), r)
  {
    match e
    case Rename(k, snapshot) => RenameKeepsTableInv(s, k, snapshot, r);
    case Swap(k) => SwapKeepsTableInv(s, k, r);
    case Crash => CrashKeepsTableInv(s, r);
    case _ =>
  }

  /** A longer history keeps the place of every finished call. */
  lemma PlacedStays(c: Caller, k: nat, base: Table, log: seq<Entry>, longer: seq<Entry>)
    requires Placed(c, k, base, log) && log <= longer
    ensures Placed(c, k, base, longer)
  {
    if c.Returned? || c.Answered? {
      assert longer[..c.at] == log[..c.at];
    }
  }

  lemma CrashPlaces(s: State, r: Rules, k: nat)
    requires Inv(s, r) && Enabled(s, Crash, r) && k < |s.callers|
    ensures var t := Step(s, Crash, r); Placed(t.callers[k], k, t.base, t.log)
  {
    assert Placed(s.callers[k], k, s.base, s.log);
    PlacedStays(s.callers[k], k, s.base, s.log, Step(s, Crash, r).log);
  }

  lemma StepPlaces(s: State, e: Event, r: Rules, k: nat)
    requires Inv(s, r) && Enabled(s, e, r) && !e.Crash? && k < |Step(s, e, r).callers|
    ensures var t := Step(s, e, r); Placed(t.callers[k], k, t.base, t.log)
  {
    var t := Step(s, e, r);
    if k < |s.callers| {
      assert Placed(s.callers[k], k, s.base, s.log);
      PlacedStays(s.callers[k], k, s.base, s.log, t.log);
      assert s.log[..|s.log|] == s.log == t.log[..|s.log|];
    }
  }

  lemma StepKeepsHistoryInv(s: State, e: Event, r: Rules)
    requires Inv(s, r) && Enabled(s, e, r)
    ensures HistoryInv(Step(s, e, r))
  {
    forall k | 0 <= k < |Step(s, e, r).callers|
      ensures Placed(Step(s, e, r).callers[k], k, Step(s, e, r).base, Step(s, e, r).log)
    {
      if e.Crash? {
        CrashPlaces(s, r, k);
      } else {
        StepPlaces(s, e, r, k);
      }
    }
  }

  lemma StepOwns(s: State, e: Event, r: Rules, i: nat)
    requires Inv(s, r) && Enabled(s, e, r) && i < |Step(s, e, r).log|
    ensures var t := Step(s, e, r);
            t.log[i].caller < |t.callers| && Committed(t.callers[t.log[i].caller], i)
  {
    if i < |s.log| {
      assert Step(s, e, r).log[i] == s.log[i];
      assert Committed(s.callers[s.log[i].caller], i);
    }
  }

  lemma StepKeepsOwnerInv(s: State, e: Event, r: Rules)
    requires Inv(s, r) && Enabled(s, e, r)
    ensures OwnerInv(Step(s, e, r))
  {
    forall i | 0 <= i < |Step(s, e, r).log|
      ensures Step(s, e, r).log[i].caller < |Step(s, e, r).callers|
      ensures Committed(Step(s, e, r).callers[Step(s, e, r).log[i].caller], i)
    {
      StepOwns(s, e, r, i);
    }
  }

  lemma {:induction false} ReachableIsInv(found: Stored, events: seq<Event>, r: Rules)
    requires Load(found, r).Some?
    requires Execute(Initial(found, r), events, r).Some?
    ensures Inv(Execute(Initial(found, r), events, r).value, r)
    ensures Execute(Initial(found, r), events, r).value.base == Load(found, r).value
  {
    if |events| == 0 {
      LoadedIsGood(found, r);
    } else {
      var e := events[|events| - 1];
      ReachableIsInv(found, events[..|events| - 1], r);
      var s := Execute(Initial(found, r), events[..|events| - 1], r).value;
      StepKeepsMutexInv(s, e, r);
      StepKeepsTableInv(s, e, r);
      StepKeepsHistoryInv(s, e, r);
      StepKeepsOwnerInv(s, e, r);
    }
  }

  // ----- what follows

  lemma RenamedIsAhead(s: State, k: nat, r: Rules)
    requires MutexInv(s) && TableInv(s, r) && IsRenamed(s, k)
    ensures Durable(s) == Apply(s.mem, s.callers[k].op) && StandsFor(s.disk, Durable(s), r)
    ensures !StandsFor(s.disk, s.mem, r)
  {
    var op := s.callers[k].op;
    assert s.holder == Some(k);
    ApplyKeepsKeyed(s.mem, op);
    assert UrlOf(op) in Apply(s.mem, op) <==> UrlOf(op) !in s.mem;
    if StandsFor(s.disk, s.mem, r) {
      StandsForOne(s.disk, s.mem, Apply(s.mem, op), r);
    }
  }

  /** Memory is the sequential replay of the mutations that took effect, and the snapshot file
      stands for the same table exactly when no mutation is between its rename and its swap; then
      it stands for the table that mutation is about to swap in. */
  lemma DiskFollowsMemory(found: Stored, events: seq<Event>, r: Rules)
    requires Load(found, r).Some?
    requires Execute(Initial(found, r), events, r).Some?
    ensures var s := Execute(Initial(found, r), events, r).value;
            && s.mem == Replay(Load(found, r).value, s.log)
            && (StandsFor(s.disk, s.mem, r) <==> forall k: nat :: !IsRenamed(s, k))
            && forall k: nat :: IsRenamed(s, k) ==> StandsFor(s.disk, Apply(s.mem, s.callers[k].op), r)
  {
    ReachableIsInv(found, events, r);
    var s := Execute(Initial(found, r), events, r).value;
    if s.holder.Some? && IsRenamed(s, s.holder.value) {
      RenamedIsAhead(s, s.holder.value, r);
    } else {
      assert forall k: nat :: !IsRenamed(s, k);
    }
  }

  lemma DurableIsKeyed(s: State, r: Rules)
    requires MutexInv(s) && TableInv(s, r)
    ensures Keyed(Durable(s))
  {
    if s.holder.Some? && IsRenamed(s, s.holder.value) {
      ApplyKeepsKeyed(s.mem, s.callers[s.holder.value].op);
    }
  }

  /** Whenever the process dies, the snapshot stands for the table from before or after the one
      mutation in flight, never half of it; start-up accepts it exactly if all its records are
      acceptable, and then finds that table. */
  lemma CrashIsAtomic(found: Stored, events: seq<Event>, r: Rules)
    requires Load(found, r).Some?
    requires Execute(Initial(found, r), events, r).Some?
    ensures var s := Execute(Initial(found, r), events, r).value;
            && (Durable(s) == s.mem || exists k: nat :: IsRenamed(s, k) && Durable(s) == Apply(s.mem, s.callers[k].op))
            && (Enabled(s, Crash, r) <==> Good(Durable(s), r))
            && (Enabled(s, Crash, r) ==> Step(s, Crash, r).mem == Durable(s))
  {
    ReachableIsInv(found, events, r);
    var s := Execute(Initial(found, r), events, r).value;
    DurableIsKeyed(s, r);
    LoadsIfGood(s.disk, Durable(s), r);
  }

  /** Inserts of acceptable records only, which uploads make under usable directories. */
  predicate Insertable(op: Op, r: Rules) { op.Insert? ==> Acceptable(op.info, r) }

  ghost predicate AllInsertable(events: seq<Event>, r: Rules) {
    forall i :: 0 <= i < |events| && events[i].Call? ==> Insertable(events[i].op, r)
  }

  ghost predicate AcceptableInv(s: State, r: Rules) {
    && Good(s.mem, r)
    && forall k :: 0 <= k < |s.callers| && (s.callers[k].Waiting? || InSection(s.callers[k])) ==>
         Insertable(s.callers[k].op, r)
  }

  lemma ApplyKeepsGood(table: Table, op: Op, r: Rules)
    requires Good(table, r) && Insertable(op, r)
    ensures Good(Apply(table, op), r)
  {
  }

  lemma StepKeepsInsertable(s: State, e: Event, r: Rules, k: nat)
    requires AcceptableInv(s, r) && Enabled(s, e, r) && (e.Call? ==> Insertable(e.op, r))
    requires k < |Step(s, e, r).callers|
    ensures var c := Step(s, e, r).callers[k]; c.Waiting? || InSection(c) ==> Insertable(c.op, r)
  {
  }

  lemma StepKeepsGood(s: State, e: Event, r: Rules)
    requires MutexInv(s) && AcceptableInv(s, r) && Enabled(s, e, r)
    ensures Good(Step(s, e, r).mem, r)
  {
    if e.Swap? {
      ApplyKeepsGood(s.mem, s.callers[e.k].op, r);
    } else if e.Crash? {
      LoadedIsGood(s.disk, r);
    }
  }

  lemma StepKeepsAcceptable(s: State, e: Event, r: Rules)
    requires MutexInv(s) && AcceptableInv(s, r) && Enabled(s, e, r) && (e.Call? ==> Insertable(e.op, r))
    ensures AcceptableInv(Step(s, e, r), r)
  {
    var t := Step(s, e, r);
    StepKeepsGood(s, e, r);
    forall k | 0 <= k < |t.callers| && (t.callers[k].Waiting? || InSection(t.callers[k]))
      ensures Insertable(t.callers[k].op, r)
    {
      StepKeepsInsertable(s, e, r, k);
    }
  }

  lemma {:induction false} RunKeepsAcceptable(found: Stored, events: seq<Event>, r: Rules)
    requires Load(found, r).Some? && AllInsertable(events, r)
    requires Execute(Initial(found, r), events, r).Some?
    ensures AcceptableInv(Execute(Initial(found, r), events, r).value, r)
  {
    if |events| == 0 {
      LoadedIsGood(found, r);
    } else {
      var before := events[..|events| - 1];
      RunKeepsAcceptable(found, before, r);
      ReachableIsInv(found, before, r);
      StepKeepsAcceptable(Execute(Initial(found, r), before, r).value, events[|events| - 1], r);
    }
  }

  /** A server whose inserts are all acceptable can be started again after a crash at any moment. */
  lemma RestartAlwaysSucceeds(found: Stored, events: seq<Event>, r: Rules)
    requires Load(found, r).Some? && AllInsertable(events, r)
    requires Execute(Initial(found, r), events, r).Some?
    ensures Enabled(Execute(Initial(found, r), events, r).value, Crash, r)
  {
    RunKeepsAcceptable(found, events, r);
    ReachableIsInv(found, events, r);
    CrashIsAtomic(found, events, r);
    var s := Execute(Initial(found, r), events, r).value;
    if s.holder.Some? && IsRenamed(s, s.holder.value) {
      ApplyKeepsGood(s.mem, s.callers[s.holder.value].op, r);
    }
  }

  /** Every finished call fits the sequential history at one moment no earlier than its invocation:
      an OK is one entry of it, an error is none, and a reader's answer is that of the replay. */
  lemma CallsAreLinearized(found: Stored, events: seq<Event>, r: Rules, k: nat)
    requires Load(found, r).Some?
    requires Execute(Initial(found, r), events, r).Some?
    requires k < |Execute(Initial(found, r), events, r).value.callers|
    ensures var s := Execute(Initial(found, r), events, r).value;
            match s.callers[k]
            case Returned(op, since, at, result) =>
              && since <= at <= |s.log|
              && (result == PersistFailed || result == Verdict(Replay(s.base, s.log[..at]), op))
              && (forall i :: 0 <= i < |s.log| && s.log[i].caller == k ==> result == Ok && i == at)
              && (result == Ok ==> at < |s.log| && s.log[at] == Entry(op, k))
            case Answered(query, since, at, answer) =>
              since <= at <= |s.log| && answer == Reply(Replay(s.base, s.log[..at]), query)
            case _ => true
  {
    ReachableIsInv(found, events, r);
    var s := Execute(Initial(found, r), events, r).value;
    assert Placed(s.callers[k], k, s.base, s.log);
  }

  predicate Finished(c: Caller) { c.Returned? || c.Answered? || c.Lost? || c.Unanswered? }

  predicate CalledAfter(c: Caller, n: nat) {
    match c
    case Returned(_, since, _, _) => n <= since
    case Answered(_, since, _, _) => n <= since
    case Lost(_, effect) => effect.Some? ==> n <= effect.value
    case Unanswered => true
    case _ => n <= c.since
  }

  /** One state after another: the history is only added to, finished calls stay as they are, and
      new calls were made after all that had taken effect before. */
  ghost predicate Later(s: State, t: State) {
    && s.base == t.base && s.log <= t.log && |s.callers| <= |t.callers|
    && (forall k :: 0 <= k < |s.callers| && Finished(s.callers[k]) ==> t.callers[k] == s.callers[k])
    && (forall k :: |s.callers| <= k < |t.callers| ==> CalledAfter(t.callers[k], |s.log|))
  }

  lemma FinishedStays(s: State, e: Event, r: Rules, k: nat)
    requires Inv(s, r) && Enabled(s, e, r) && k < |s.callers| && Finished(s.callers[k])
    ensures k < |Step(s, e, r).callers| && Step(s, e, r).callers[k] == s.callers[k]
  {
  }

  lemma StaysCalledAfter(s: State, e: Event, r: Rules, k: nat, n: nat)
    requires Inv(s, r) && Enabled(s, e, r) && n <= |s.log| && k < |Step(s, e, r).callers|
    requires k < |s.callers| ==> CalledAfter(s.callers[k], n)
    ensures CalledAfter(Step(s, e, r).callers[k], n)
  {
    if k < |s.callers| {
      assert Placed(s.callers[k], k, s.base, s.log);
    }
  }

  lemma HistoryGrows(s: State, e: Event, r: Rules)
    requires Enabled(s, e, r)
    ensures var t := Step(s, e, r); t.base == s.base && s.log <= t.log && |s.callers| <= |t.callers|
  {
  }

  lemma StepIsLater(s: State, e: Event, r: Rules, first: State)
    requires Inv(s, r) && Later(first, s) && Enabled(s, e, r)
    ensures Later(first, Step(s, e, r))
  {
    var t := Step(s, e, r);
    HistoryGrows(s, e, r);
    forall k | 0 <= k < |first.callers| && Finished(first.callers[k])
      ensures t.callers[k] == first.callers[k]
    {
      FinishedStays(s, e, r, k);
    }
    forall k | |first.callers| <= k < |t.callers|
      ensures CalledAfter(t.callers[k], |first.log|)
    {
      StaysCalledAfter(s, e, r, k, |first.log|);
    }
  }

  lemma {:induction false} RunIsLater(found: Stored, events: seq<Event>, n: nat, r: Rules)
    requires Load(found, r).Some?
    requires Execute(Initial(found, r), events, r).Some? && n <= |events|
    ensures Execute(Initial(found, r), events[..n], r).Some?
    ensures Later(Execute(Initial(found, r), events[..n], r).value, Execute(Initial(found, r), events, r).value)
  {
    if n == |events| {
      assert events[..n] == events;
    } else {
      var before := events[..|events| - 1];
      assert before[..n] == events[..n];
      RunIsLater(found, before, n, r);
      ReachableIsInv(found, before, r);
      StepIsLater(Execute(Initial(found, r), before, r).value, events[|events| - 1], r,
                  Execute(Initial(found, r), events[..n], r).value);
    }
  }

  /** An acknowledged mutation is durable: however the run goes on, crashes included, it stays in
      the history at its place, and memory goes on being the replay of that history. */
  lemma AcknowledgedIsDurable(found: Stored, events: seq<Event>, n: nat, r: Rules, k: nat)
    requires Load(found, r).Some?
    requires Execute(Initial(found, r), events, r).Some? && n <= |events|
    ensures Execute(Initial(found, r), events[..n], r).Some?
    ensures var s, t := Execute(Initial(found, r), events[..n], r).value, Execute(Initial(found, r), events, r).value;
            k < |s.callers| && s.callers[k].Returned? && s.callers[k].result == Ok ==>
              && k < |t.callers| && t.callers[k] == s.callers[k]
              && s.callers[k].at < |s.log| <= |t.log| && t.log[s.callers[k].at] == Entry(s.callers[k].op, k)
              && t.mem == Replay(t.base, t.log)
  {
    RunIsLater(found, events, n, r);
    ReachableIsInv(found, events, r);
    ReachableIsInv(found, events[..n], r);
    var s := Execute(Initial(found, r), events[..n], r).value;
    if k < |s.callers| {
      assert Placed(s.callers[k], k, s.base, s.log);
    }
  }

  /** Real time is respected: a call made after another had finished takes effect after it. */
  lemma RealTimeIsRespected(found: Stored, events: seq<Event>, n: nat, r: Rules, j: nat, k: nat)
    requires Load(found, r).Some?
    requires Execute(Initial(found, r), events, r).Some? && n <= |events|
    ensures Execute(Initial(found, r), events[..n], r).Some?
    ensures var s, t := Execute(Initial(found, r), events[..n], r).value, Execute(Initial(found, r), events, r).value;
            j < |s.callers| <= k < |t.callers|
            && (s.callers[j].Returned? || s.callers[j].Answered?)
            && (t.callers[k].Returned? || t.callers[k].Answered?) ==>
              && j < |t.callers| && t.callers[j] == s.callers[j] && t.callers[j].at <= t.callers[k].at
              && (t.callers[j].Returned? && t.callers[j].result == Ok ==> t.callers[j].at < t.callers[k].at)
  {
    RunIsLater(found, events, n, r);
    ReachableIsInv(found, events, r);
    ReachableIsInv(found, events[..n], r);
    var s := Execute(Initial(found, r), events[..n], r).value;
    var t := Execute(Initial(found, r), events, r).value;
    if j < |s.callers| <= k < |t.callers| {
      assert Placed(s.callers[j], j, s.base, s.log);
      assert Placed(t.callers[k], k, t.base, t.log);
    }
  }

  // ----- what readers see

  /** Entry i is the last mutation of a URL among the first `at` of the history. */
  ghost predicate IsLastOf(log: seq<Entry>, at: nat, url: string, i: int) {
    && 0 <= i < at <= |log| && UrlOf(log[i].op) == url
    && forall j :: i < j < at ==> UrlOf(log[j].op) != url
  }

  ghost predicate Untouched(log: seq<Entry>, at: nat, url: string) {
    at <= |log| && forall j :: 0 <= j < at ==> UrlOf(log[j].op) != url
  }

  /** What the history says a URL stands for at one moment: what its last insert put there, nothing
      if it was deleted last, and otherwise what the table loaded first has. */
  ghost predicate Stands(base: Table, log: seq<Entry>, at: nat, url: string, info: Option<StorageInfo>) {
    && (forall i :: IsLastOf(log, at, url, i) ==>
          info == match log[i].op case Insert(inserted) => Some(inserted) case Delete(_) => None)
    && (Untouched(log, at, url) ==> info.Some? == (url in base) && (url in base ==> info == Some(base[url])))
  }

  function Lookup(table: Table, url: string): Option<StorageInfo> { if url in table then Some(table[url]) else None }

  /** What one mutation makes of what a URL stands for. */
  function Made(op: Op, url: string, before: Option<StorageInfo>): Option<StorageInfo> {
    if UrlOf(op) != url then before
    else match op case Insert(inserted) => Some(inserted) case Delete(_) => None
  }

  lemma ApplyMakes(table: Table, op: Op, url: string)
    ensures Lookup(Apply(table, op), url) == Made(op, url, Lookup(table, url))
  {
  }

  lemma StandsAfterOther(base: Table, log: seq<Entry>, at: nat, url: string, info: Option<StorageInfo>)
    requires at < |log| && Stands(base, log, at, url, info) && UrlOf(log[at].op) != url
    ensures Stands(base, log, at + 1, url, info)
  {
    forall i | IsLastOf(log, at + 1, url, i)
      ensures IsLastOf(log, at, url, i)
    {
    }
  }

  lemma LastIsOwn(log: seq<Entry>, at: nat, url: string, i: int)
    requires at < |log| && UrlOf(log[at].op) == url && IsLastOf(log, at + 1, url, i)
    ensures i == at
  {
  }

  lemma StandsAfterOwn(base: Table, log: seq<Entry>, at: nat, url: string, before: Option<StorageInfo>)
    requires at < |log| && UrlOf(log[at].op) == url
    ensures Stands(base, log, at + 1, url, Made(log[at].op, url, before))
  {
    forall i | IsLastOf(log, at + 1, url, i)
      ensures log[i] == log[at]
    {
      LastIsOwn(log, at, url, i);
    }
  }

  lemma StandsAfter(base: Table, log: seq<Entry>, at: nat, url: string, before: Option<StorageInfo>)
    requires at < |log| && Stands(base, log, at, url, before)
    ensures Stands(base, log, at + 1, url, Made(log[at].op, url, before))
  {
    if UrlOf(log[at].op) == url {
      StandsAfterOwn(base, log, at, url, before);
    } else {
      StandsAfterOther(base, log, at, url, before);
    }
  }

  lemma ReplayMore(base: Table, log: seq<Entry>, at: nat)
    requires 0 < at <= |log|
    ensures Replay(base, log[..at]) == Apply(Replay(base, log[..at - 1]), log[at - 1].op)
  {
    assert log[..at][..at - 1] == log[..at - 1];
  }

  lemma {:induction false} ReplayStands(base: Table, log: seq<Entry>, at: nat, url: string)
    requires at <= |log|
    ensures Stands(base, log, at, url, Lookup(Replay(base, log[..at]), url))
  {
    if at > 0 {
      ReplayStands(base, log, at - 1, url);
      StandsAfter(base, log, at - 1, url, Lookup(Replay(base, log[..at - 1]), url));
      ReplayMore(base, log, at);
      ApplyMakes(Replay(base, log[..at - 1]), log[at - 1].op, url);
    }
  }

  /** A finished reader's answer, in terms of the history alone: each URL it speaks of stands for what
      the last mutation of that URL made of it. */
  lemma ReadersSeeLastMutations(found: Stored, events: seq<Event>, r: Rules, k: nat, url: string)
    requires Load(found, r).Some?
    requires Execute(Initial(found, r), events, r).Some?
    requires k < |Execute(Initial(found, r), events, r).value.callers|
    ensures var s := Execute(Initial(found, r), events, r).value;
            match s.callers[k]
            case Answered(One(asked), since, at, answer) =>
              since <= at <= |s.log| && answer.Record?
              && (asked == url ==> Stands(s.base, s.log, at, url, answer.info))
            case Answered(All, since, at, answer) =>
              since <= at <= |s.log| && answer.Records?
              && Stands(s.base, s.log, at, url, if url in answer.table then Some(answer.table[url]) else None)
            case _ => true
  {
    CallsAreLinearized(found, events, r, k);
    var s := Execute(Initial(found, r), events, r).value;
    if s.callers[k].Answered? {
      ReplayStands(s.base, s.log, s.callers[k].at, url);
    }
  }
}
