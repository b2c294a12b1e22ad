/** The owner of the metadata table. Each method up to Restart is one section of the source that runs
 under a lock, or one step between two, and makes the step of MetadataProtocol that stands for it;
 Insert and Delete are those sections in a row. */
module DataManager {
  import opened Collections
  import opened MetadataProtocol
  import opened StorageMetadata

  /** The records of a table in the order a hash map yields them. */
  ghost predicate Lists(items: seq<StorageInfo>, table: Table) {
    exists order :: IsOrder(order, table) && Within(order, table) && |items| == |order|
                    && forall i :: 0 <= i < |order| ==> items[i] == table[order[i]]
  }

  /** The steps of a walk over a table, whatever its order: what is visited and what is left. */
  ghost predicate Walk(order: seq<string>, rest: set<string>, table: Table) {
    && Distinct(order) && Within(order, table) && rest <= table.Keys
    && (forall url :: url in order ==> url !in rest)
    && (forall url :: url in table ==> url in order || url in rest)
  }

  lemma WalkOn(order: seq<string>, rest: set<string>, table: Table, url: string)
    requires Walk(order, rest, table) && url in rest
    ensures Walk(order + [url], rest - {url}, table)
    ensures ItemsOf(table, order + [url]) == ItemsOf(table, order) + [ItemOf(table[url])]
  {
    assert (order + [url])[..|order|] == order;
  }

  class Manager {
    const rules: Rules           // what the configuration asks of a record: RulesOf
    var table: Table
    var stored: Stored           // the snapshot file; it outlives the process
    var holder: Option<nat>      // who has the mutation mutex
    var callers: seq<Caller>
    ghost var base: Table        // the table loaded first
    var log: seq<Entry>          // the mutations since; kept for the calls' places in it
    ghost var failures: nat      // how many system calls have failed

    ghost function View(): State
      reads this
    {
      State(table, stored, holder, callers, base, log)
    }

    /** A restart would load exactly the table in memory. */
    ghost predicate Restartable()
      reads this
    {
      Keyed(table) && Good(table, rules) && Load(stored, rules) == Some(table)
    }

    static method LoadArray(items: seq<Json>, r: Rules) returns (result: Option<Table>)
      ensures result == LoadItems(items, r)
    {
      var loaded: Table := map[];
      var index := 0;
      while index < |items|
        invariant 0 <= index <= |items|
        invariant LoadItems(items[..index], r) == Some(loaded)
      {
        LoadSnoc(items[..index], items[index], r);
        assert items[..index + 1] == items[..index] + [items[index]];
        var info := ParseStorageInfo(items[index], r);
        if info.None? || info.value.url in loaded {
          PrefixMustLoad(items, index + 1, r);
          return None;
        }
        loaded := loaded[info.value.url := info.value];
        index := index + 1;
      }
      assert items[..index] == items;
      result := Some(loaded);
    }

    /** Reads the snapshot, one record after the other; a refusal leaves the table alone. */
    method InitLoad() returns (ok: bool)
      requires table == map[]
      modifies this`table
      ensures ok <==> Load(stored, rules).Some?
      ensures table == if ok then Load(stored, rules).value else map[]
      ensures stored in {Missing, Document(Null), Document(Array([]))} ==> ok && table == map[]
      ensures stored in {Unreadable, Malformed} || (stored.Document? && !stored.root.Null? && !stored.root.Array?) ==> !ok
    {
      if stored == Missing {
        return true;
      }
      if stored == Unreadable || stored == Malformed {
        return false;
      }
      var root := stored.root;
      if root == Null {
        return true;
      }
      if !root.Array? {
        return false;
      }
      var loaded := LoadArray(root.items, rules);
      if loaded.None? {
        return false;
      }
      table := loaded.value;
      ok := true;
    }

    /** The process starts on whatever snapshot there is; an exception leaves it with no table. */
    constructor (r: Rules, found: Stored)
      ensures rules == r && stored == found
      ensures if Load(found, r).Some? then Restartable() && View() == Initial(found, r) else table == map[]
    {
      rules, table, stored, holder, callers := r, map[], found, None, [];
      base, log, failures := map[], [], 0;
      new;
      var loaded := InitLoad();
      if loaded {
        LoadedIsGood(found, r);
        base := table;
      }
    }

    /** A system call, or a step that ends in one: it succeeds or is counted as a failure. */
    method SystemCall() returns (ok: bool)
      modifies this`failures
      ensures failures == old(failures) + if ok then 0 else 1
    {
      ok := *;
      if !ok {
        failures := failures + 1;
      }
    }

    /** SetContent of the temporary file: after a failure it may hold anything. */
    method SetContent(root: Json) returns (ok: bool, content: Stored)
      modifies this`failures
      ensures failures == old(failures) + if ok then 0 else 1
      ensures ok ==> content == Document(root)
    {
      ok := SystemCall();
      content := if ok then Document(root) else Malformed;
    }

    /** One item for each record of a table. */
    static method ItemsFor(next: Table) returns (items: seq<Json>)
      ensures Holds(Document(Array(items)), next)
    {
      items := [];
      var rest := next.Keys;
      ghost var order: seq<string> := [];
      while rest != {}
        invariant Walk(order, rest, next) && items == ItemsOf(next, order)
      {
        var url :| url in rest;
        WalkOn(order, rest, next, url);
        items := items + [ItemOf(next[url])];
        rest := rest - {url};
        order := order + [url];
      }
      assert IsOrder(order, next);
    }

    /** Saves a table: the snapshot file changes by the rename alone, and then holds all of it. */
    method Persist(next: Table) returns (ok: bool)
      modifies this`stored, this`failures
      ensures ok ==> Holds(stored, next)
      ensures !ok ==> stored == old(stored) && failures > old(failures)
    {
      var items := ItemsFor(next);
      var serialized := SystemCall();
      if !serialized {
        return false;
      }
      var directory := SystemCall();
      if !directory {
        return false;
      }
      var created := SystemCall();
      if !created {
        return false;
      }
      var written, content := SetContent(Array(items));
      if !written {
        var removed := SystemCall();
        return false;
      }
      var renamed := SystemCall();
      if !renamed {
        var removed := SystemCall();
        return false;
      }
      stored := content;
      var synced := SystemCall();
      ok := true;
    }

    // ----- the sections of a mutation

    method Begin(op: Op)
      modifies this`callers
      ensures View() == Step(old(View()), Call(op), rules)
    {
      callers := callers + [Waiting(op, |log|)];
    }

    method LockMutation(k: nat)
      requires Enabled(View(), Lock(k), rules)
      modifies this`holder, this`callers
      ensures View() == Step(old(View()), Lock(k), rules)
    {
      holder := Some(k);
      callers := callers[k := Locked(callers[k].op, callers[k].since)];
    }

    /** Copies the table under the shared lock, looks the URL up and edits the copy. */
    method CopyTable(k: nat)
      requires Enabled(View(), Copy(k), rules)
      modifies this`holder, this`callers
      ensures View() == Step(old(View()), Copy(k), rules)
    {
      var op, since := callers[k].op, callers[k].since;
      var next := table;
      var result := Ok;
      match op {
        case Insert(info) =>
          if info.url in next {
            result := AlreadyExists;
          } else {
            next := next[info.url := info];
          }
        case Delete(url) =>
          if url !in next {
            result := NotFound;
          } else {
            next := next - {url};
          }
      }
      if result == Ok {
        callers := callers[k := Saving(op, since, next)];
      } else {
        callers := callers[k := Returned(op, since, |log|, result)];
        holder := None;
      }
    }

    /** Saves the edited copy. */
    method Save(k: nat) returns (saved: bool)
      requires k < |callers| && callers[k].Saving?
      modifies this`stored, this`failures, this`holder, this`callers
      ensures Enabled(old(View()), if saved then Rename(k, stored) else PersistFails(k), rules)
      ensures View() == Step(old(View()), if saved then Rename(k, stored) else PersistFails(k), rules)
      ensures !saved ==> failures > old(failures)
    {
      var op, since, next := callers[k].op, callers[k].since, callers[k].next;
      saved := Persist(next);
      if saved {
        callers := callers[k := Renamed(op, since, next)];
      } else {
        callers := callers[k := Returned(op, since, |log|, PersistFailed)];
        holder := None;
      }
    }

    /** Swaps the edited copy in under the exclusive lock. */
    method Publish(k: nat)
      requires k < |callers| && callers[k].Renamed?
      modifies this`table, this`holder, this`callers, this`log
      ensures View() == Step(old(View()), Swap(k), rules)
    {
      var op, since := callers[k].op, callers[k].since;
      table := callers[k].next;
      callers := callers[k := Returned(op, since, |log|, Ok)];
      holder := None;
      log := log + [Entry(op, k)];
    }

    // ----- readers

    method BeginReading(query: Query)
      modifies this`callers
      ensures View() == Step(old(View()), Ask(query), rules)
    {
      callers := callers + [Asking(query, |log|)];
    }

    method Answer(k: nat, answer: Answer)
      requires k < |callers| && callers[k].Asking? && answer == Reply(table, callers[k].query)
      modifies this`callers
      ensures View() == Step(old(View()), Read(k), rules)
      ensures callers[k].Answered? && callers[k].answer == answer
    {
      callers := callers[k := Answered(callers[k].query, callers[k].since, |log|, answer)];
    }

    /** One look at the table under the shared lock. */
    method GetOneByURL(k: nat) returns (info: Option<StorageInfo>)
      requires k < |callers| && callers[k].Asking? && callers[k].query.One?
      modifies this`callers
      ensures View() == Step(old(View()), Read(k), rules)
      ensures callers[k].answer == Record(info)
      ensures var url := old(callers[k].query.url);
              (info.Some? <==> url in table) && (info.Some? ==> info.value == table[url])
    {
      var url := callers[k].query.url;
      info := if url in table then Some(table[url]) else None;
      Answer(k, Record(info));
    }

    static method ListItems(listed: Table) returns (items: seq<StorageInfo>)
      ensures Lists(items, listed)
    {
      items := [];
      var rest := listed.Keys;
      ghost var order: seq<string> := [];
      while rest != {}
        invariant Walk(order, rest, listed) && |items| == |order|
        invariant forall i :: 0 <= i < |order| ==> items[i] == listed[order[i]]
      {
        var url :| url in rest;
        WalkOn(order, rest, listed, url);
        items := items + [listed[url]];
        rest := rest - {url};
        order := order + [url];
      }
      assert IsOrder(order, listed);
    }

    /** Every record of one table, each once. */
    method GetAll(k: nat) returns (items: seq<StorageInfo>)
      requires k < |callers| && callers[k].Asking? && callers[k].query.All?
      modifies this`callers
      ensures View() == Step(old(View()), Read(k), rules)
      ensures callers[k].answer == Records(table) && Lists(items, table)
    {
      Answer(k, Records(table));
      items := ListItems(table);
    }

    // ----- a new process

    /** The process dies and is started again on the snapshot it left, if that is accepted. */
    method Restart() returns (ok: bool)
      modifies this
      ensures ok <==> Enabled(old(View()), Crash, rules)
      ensures ok ==> View() == Step(old(View()), Crash, rules)
    {
      var inFlight := if holder.Some? && holder.value < |callers| && callers[holder.value].Renamed?
                      then [Entry(callers[holder.value].op, holder.value)] else [];
      callers := AfterCrash(callers, |log|);
      log := log + inFlight;
      holder, table := None, map[];
      ok := InitLoad();
    }

    // ----- whole calls

    /** A call as far as the mutation mutex, which is free. */
    method Enter(op: Op) returns (k: nat)
      requires holder == None
      modifies this`holder, this`callers
      ensures k == |old(callers)| && callers == old(callers) + [Locked(op, |log|)] && holder == Some(k)
    {
      k := |callers|;
      Begin(op);
      LockMutation(k);
    }

    /** The rest of it. */
    method Perform(k: nat) returns (result: DataResult)
      requires k < |callers| && callers[k].Locked?
      modifies this
      ensures base == old(base) && holder == None
      ensures var op := old(callers[k].op);
              && (result == Verdict(old(table), op) || (result == PersistFailed && failures > old(failures)))
              && (result == PersistFailed ==> Verdict(old(table), op) == Ok)
              && (if result == Ok then table == Apply(old(table), op) && Holds(stored, table)
                  else table == old(table) && stored == old(stored))
              && log == old(log) + (if result == Ok then [Entry(op, k)] else [])
              && callers == old(callers)[k := Returned(op, old(callers[k].since), |old(log)|, result)]
    {
      CopyTable(k);
      if callers[k].Returned? {
        return callers[k].result;
      }
      var saved := Save(k);
      if !saved {
        return PersistFailed;
      }
      Publish(k);
      result := Ok;
    }

    /** A mutation nobody interferes with. OK means that memory and snapshot have both taken it, any
        other answer that neither has. */
    method Mutate(op: Op) returns (result: DataResult)
      requires holder == None
      modifies this
      ensures result == Verdict(old(table), op) || (result == PersistFailed && failures > old(failures))
      ensures result == PersistFailed ==> Verdict(old(table), op) == Ok
      ensures result == Ok ==> table == Apply(old(table), op) && Holds(stored, table)
      ensures result != Ok ==> table == old(table) && stored == old(stored)
      ensures holder == None && base == old(base)
      ensures log == old(log) + if result == Ok then [Entry(op, |old(callers)|)] else []
      ensures callers == old(callers) + [Returned(op, |old(log)|, |old(log)|, result)]
    {
      var k := Enter(op);
      result := Perform(k);
    }

    lemma SavedReloads(before: Table, op: Op)
      requires table == Apply(before, op) && Holds(stored, table)
      ensures Keyed(before) && Good(before, rules) && Insertable(op, rules) ==> Restartable()
    {
      if Keyed(before) && Good(before, rules) && Insertable(op, rules) {
        ApplyKeepsKeyed(before, op);
        ApplyKeepsGood(before, op, rules);
        SnapshotLoads(table, stored, rules);
      }
    }

    /** Adds a record; an acceptable one keeps the manager restartable. */
    method Insert(info: StorageInfo) returns (result: DataResult)
      requires holder == None
      modifies this
      ensures result == AlreadyExists <==> info.url in old(table)
      ensures result in {Ok, AlreadyExists, PersistFailed} && (result == PersistFailed ==> failures > old(failures))
      ensures table == if result == Ok then old(table)[info.url := info] else old(table)
      ensures if result == Ok then Holds(stored, table) else stored == old(stored)
      ensures old(Restartable()) && Acceptable(info, rules) ==> Restartable()
    {
      result := Mutate(Op.Insert(info));
      if result == Ok {
        SavedReloads(old(table), Op.Insert(info));
      }
    }

    /** Removes a record, under the same promises. */
    method Delete(url: string) returns (result: DataResult)
      requires holder == None
      modifies this
      ensures result == NotFound <==> url !in old(table)
      ensures result in {Ok, NotFound, PersistFailed} && (result == PersistFailed ==> failures > old(failures))
      ensures table == if result == Ok then old(table) - {url} else old(table)
      ensures if result == Ok then Holds(stored, table) else stored == old(stored)
      ensures old(Restartable()) ==> Restartable()
    {
      result := Mutate(Op.Delete(url));
      if result == Ok {
        SavedReloads(old(table), Op.Delete(url));
      }
    }
  }
}
