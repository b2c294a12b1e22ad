/**
 The login rate limiter of the storage server: one record per client address, a fixed
 one-minute window that starts at the first failure, and a one-minute block from the fifth on.
 Times are clock ticks since the epoch.
 */
module LoginRateLimiter {

  const MINUTE := 60_000_000_000
  const MAX_FAILURES := 5

  datatype Attempt = Attempt(windowStarted: int, blockedUntil: int, failures: nat)

  type Attempts = map<string, Attempt>

  // ----- what one call does, on values

  predicate Admits(m: Attempts, address: string, now: int) {
    address in m ==> m[address].blockedUntil <= now
  }

  function AfterAllow(m: Attempts, address: string, now: int): Attempts {
    if address in m && m[address].blockedUntil <= now && now - m[address].windowStarted > MINUTE
    then m - {address} else m
  }

  function AfterFailure(m: Attempts, address: string, now: int): Attempts {
    var found := if address in m then m[address] else Attempt(0, 0, 0);
    var windowed := if found.windowStarted == 0 || now - found.windowStarted > MINUTE
                    then found.(windowStarted := now, failures := 0) else found;
    var counted := windowed.(failures := windowed.failures + 1);
    m[address := if counted.failures >= MAX_FAILURES
                 then counted.(blockedUntil := now + MINUTE) else counted]
  }

  // ----- runs

  datatype Call =
    | Allow(address: string, now: int)
    | Failure(address: string, now: int)
    | Success(address: string, now: int)

  function AfterCall(m: Attempts, c: Call): Attempts {
    match c
    case Allow(a, t) => AfterAllow(m, a, t)
    case Failure(a, t) => AfterFailure(m, a, t)
    case Success(a, _) => m - {a}
  }

  function After(calls: seq<Call>): Attempts {
    if |calls| == 0 then map[] else AfterCall(After(calls[..|calls| - 1]), calls[|calls| - 1])
  }

  /** The server is one event loop: a failure is reported only by a handler whose Allow, the call
      before it, admitted the same address. The clock reads after `start` and never goes back. */
  predicate IsRun(calls: seq<Call>, start: int) {
    |calls| == 0 ||
    var n := |calls| - 1;
    var c := calls[n];
    && IsRun(calls[..n], start)
    && c.now > start
    && (n > 0 ==> calls[n - 1].now <= c.now)
    && (c.Failure? ==>
          && n > 0 && calls[n - 1].Allow? && calls[n - 1].address == c.address
          && Admits(After(calls[..n - 1]), c.address, calls[n - 1].now))
  }

  /** Times of the failures of one address since its last success, oldest first. */
  function Failures(calls: seq<Call>, a: string): seq<int> {
    if |calls| == 0 then [] else
    var before := Failures(calls[..|calls| - 1], a);
    var c := calls[|calls| - 1];
    if c.address != a then before
    else match c
      case Allow(_, _) => before
      case Failure(_, t) => before + [t]
      case Success(_, _) => []
  }

  /** How many of the times lie in the half-open minute that begins at `from`. */
  function InMinute(times: seq<int>, from: int): nat {
    if |times| == 0 then 0
    else InMinute(times[..|times| - 1], from) + if from <= times[|times| - 1] < from + 60_000_000_000 then 1 else 0
  }

  // ----- the windows behind a run

  /** A failure with its number inside its window and the start of that window. */
  datatype Tag = Tag(time: int, number: int, window: int)

  predicate Follows(p: Tag, q: Tag) {
    && p.time <= q.time
    && (p.number >= MAX_FAILURES ==> q.time >= p.time + MINUTE)
    && if q.number == 1 then q.window == q.time > p.window + MINUTE
       else q.number == p.number + 1 && q.window == p.window
  }

  ghost predicate Chain(tags: seq<Tag>) {
    && (|tags| > 0 ==> tags[0].number == 1 && tags[0].window == tags[0].time)
    && (forall i :: 0 <= i < |tags| ==> tags[i].number >= 1)
    && (forall i, j :: 0 <= i && j == i + 1 && j < |tags| ==> Follows(tags[i], tags[j]))
  }

  ghost predicate SameTimes(tags: seq<Tag>, times: seq<int>) {
    |tags| == |times| && forall i :: 0 <= i < |times| ==> tags[i].time == times[i]
  }

  /** The limiter's record of an address against the tag of that address's last failure. */
  predicate Records(m: Attempts, a: string, tags: seq<Tag>, now: int) {
    if |tags| == 0 then a !in m else
    var last := tags[|tags| - 1];
    && 0 < last.time <= now
    && 0 < last.window <= last.time
    && if a in m then
         && m[a].windowStarted == last.window
         && m[a].failures == last.number
         && (if last.number >= MAX_FAILURES then m[a].blockedUntil == last.time + MINUTE
             else m[a].blockedUntil <= last.time)
       else
         && now > last.window + MINUTE
         && (last.number >= MAX_FAILURES ==> now >= last.time + MINUTE)
  }

  function Clock(calls: seq<Call>): int {
    if |calls| == 0 then 0 else calls[|calls| - 1].now
  }

  lemma ChainGrows(tags: seq<Tag>, q: Tag)
    requires Chain(tags) && q.number >= 1
    requires if |tags| == 0 then q.number == 1 && q.window == q.time else Follows(tags[|tags| - 1], q)
    ensures Chain(tags + [q])
  {
  }

  /** One admitted failure adds one tag, taken from the record it leaves. */
  lemma FailureAddsTag(m: Attempts, a: string, tags: seq<Tag>, admitted: int, t: int) returns (q: Tag)
    requires Chain(tags) && Records(m, a, tags, admitted) && Admits(m, a, admitted)
    requires 0 < admitted <= t
    ensures q.time == t && Chain(tags + [q])
    ensures Records(AfterFailure(m, a, t), a, tags + [q], t)
  {
    var m' := AfterFailure(m, a, t);
    q := Tag(t, m'[a].failures, m'[a].windowStarted);
    ChainGrows(tags, q);
  }

  lemma {:induction false} RunsAreTagged(calls: seq<Call>, a: string) returns (tags: seq<Tag>)
    requires IsRun(calls, 0)
    ensures Chain(tags) && SameTimes(tags, Failures(calls, a))
    ensures Records(After(calls), a, tags, Clock(calls))
  {
    if |calls| == 0 {
      return [];
    }
    var n := |calls| - 1;
    var c := calls[n];
    tags := RunsAreTagged(calls[..n], a);
    var m := After(calls[..n]);
    if c.address == a {
      match c {
        case Allow(_, _) =>
        case Success(_, _) => tags := [];
        case Failure(_, t) =>
          assert calls[..n][..n - 1] == calls[..n - 1];
          assert Admits(m, a, Clock(calls[..n]));
          var q := FailureAddsTag(m, a, tags, Clock(calls[..n]), t);
          tags := tags + [q];
      }
    }
  }

  lemma {:induction false} WindowStartsBeforeItsFailures(tags: seq<Tag>, i: nat)
    requires Chain(tags) && i < |tags|
    ensures tags[i].window <= tags[i].time
    ensures tags[i].number == 1 ==> tags[i].window == tags[i].time
  {
    if i > 0 {
      assert Follows(tags[i - 1], tags[i]);
      WindowStartsBeforeItsFailures(tags, i - 1);
    }
  }

  lemma {:induction false} ChainIsSorted(tags: seq<Tag>, i: nat, j: nat)
    requires Chain(tags) && i <= j < |tags|
    ensures tags[i].time <= tags[j].time
  {
    if i < j {
      ChainIsSorted(tags, i, j - 1);
      assert Follows(tags[j - 1], tags[j]);
    }
  }

  /** Any nine failures in a row spread over at least a minute. */
  lemma NineSpanAMinute(tags: seq<Tag>, i: nat)
    requires Chain(tags) && i + 8 < |tags|
    ensures tags[i + 8].time >= tags[i].time + MINUTE
  {
    assert Follows(tags[i], tags[i + 1]) && Follows(tags[i + 1], tags[i + 2]);
    assert Follows(tags[i + 2], tags[i + 3]) && Follows(tags[i + 3], tags[i + 4]);
    assert Follows(tags[i + 4], tags[i + 5]) && Follows(tags[i + 5], tags[i + 6]);
    assert Follows(tags[i + 6], tags[i + 7]) && Follows(tags[i + 7], tags[i + 8]);
    WindowStartsBeforeItsFailures(tags, i);
  }

  lemma {:induction false} EarlyTimesDoNotCount(times: seq<int>, from: int, skip: nat)
    requires skip <= |times|
    requires forall i :: 0 <= i < skip ==> times[i] < from
    ensures InMinute(times, from) <= |times| - skip
  {
    if |times| > 0 {
      var n := |times| - 1;
      EarlyTimesDoNotCount(times[..n], from, if skip > n then n else skip);
    }
  }

  lemma {:induction false} SpreadTimesCount(times: seq<int>, from: int)
    requires forall i, j :: 0 <= i < j < |times| ==> times[i] <= times[j]
    requires forall i, j :: 0 <= i < j < |times| && j == i + 8 ==> times[j] >= times[i] + MINUTE
    ensures InMinute(times, from) <= 8
  {
    if |times| > 8 {
      var n := |times| - 1;
      if from <= times[n] < from + MINUTE {
        assert times[n] >= times[n - 8] + MINUTE;
        EarlyTimesDoNotCount(times, from, n - 7);
      } else {
        SpreadTimesCount(times[..n], from);
      }
    } else {
      EarlyTimesDoNotCount(times, from, 0);
    }
  }

  /** The sliding bound: whatever the other addresses do, one address never fails more than eight
      times within any half-open minute unless it logged in successfully in between. */
  lemma AtMostEightFailuresPerMinute(calls: seq<Call>, a: string, from: int)
    requires IsRun(calls, 0)
    ensures InMinute(Failures(calls, a), from) <= 8
  {
    var tags := RunsAreTagged(calls, a);
    var times := Failures(calls, a);
    forall i, j | 0 <= i < j < |times|
      ensures times[i] <= times[j]
      ensures j == i + 8 ==> times[j] >= times[i] + MINUTE
    {
      ChainIsSorted(tags, i, j);
      if j == i + 8 {
        NineSpanAMinute(tags, i);
      }
    }
    SpreadTimesCount(times, from);
  }

  lemma OneMore(times: seq<int>, t: int, from: int)
    ensures InMinute(times + [t], from) == InMinute(times, from) + if from <= t < from + MINUTE then 1 else 0
  {
    assert (times + [t])[..|times|] == times;
  }

  /** Extends a run by one login that fails, and says what the extension adds. */
  lemma FailOnce(calls: seq<Call>, start: int, a: string, t: int, from: int) returns (next: seq<Call>)
    requires IsRun(calls, start) && start < t
    requires |calls| > 0 ==> Clock(calls) <= t
    requires Admits(After(calls), a, t)
    ensures next == calls + [Allow(a, t)] + [Failure(a, t)]
    ensures IsRun(next, start) && Clock(next) == t
    ensures After(next) == AfterFailure(AfterAllow(After(calls), a, t), a, t)
    ensures Failures(next, a) == Failures(calls, a) + [t]
    ensures InMinute(Failures(next, a), from)
         == InMinute(Failures(calls, a), from) + if from <= t < from + MINUTE then 1 else 0
  {
    var one := calls + [Allow(a, t)];
    next := one + [Failure(a, t)];
    assert one[..|calls|] == calls;
    assert next[..|one|] == one && next[..|one| - 1] == calls;
    assert IsRun(one, start);
    OneMore(Failures(calls, a), t, from);
  }

  /** A run whose record of the address is an open, unblocked window with f failures. */
  ghost predicate OpenAt(calls: seq<Call>, a: string, window: int, f: nat) {
    IsRun(calls, 0) && |calls| > 0 && a in After(calls) && After(calls)[a] == Attempt(window, 0, f)
  }

  /** Further failures at one instant of an open window, short of the fifth. */
  lemma {:induction false} FailAgain(calls: seq<Call>, a: string, window: int, f: nat, t: int, from: int, k: nat) returns (next: seq<Call>)
    requires OpenAt(calls, a, window, f) && f + k < MAX_FAILURES
    requires 0 < window && Clock(calls) <= t <= window + MINUTE && from <= t < from + MINUTE && t > 0
    ensures OpenAt(next, a, window, f + k) && Clock(next) <= t
    ensures InMinute(Failures(next, a), from) == InMinute(Failures(calls, a), from) + k
  {
    next := calls;
    if k > 0 {
      next := FailAgain(calls, a, window, f, t, from, k - 1);
      next := FailOnce(next, 0, a, t, from);
    }
  }

  /** Eight is reached: a window opens, holds three failures at its very end, and the next window
      takes five more. */
  lemma EightFailuresArePossible(a: string)
    ensures exists calls, from :: IsRun(calls, 0) && InMinute(Failures(calls, a), from) == 8
  {
    var first := FailOnce([], 0, a, 1, 3);
    assert OpenAt(first, a, 1, 1);
    var full := FailAgain(first, a, 1, 1, MINUTE + 1, 3, 3);
    var second := FailOnce(full, 0, a, MINUTE + 2, 3);
    assert OpenAt(second, a, MINUTE + 2, 1);
    var four := FailAgain(second, a, MINUTE + 2, 1, MINUTE + 2, 3, 3);
    var eight := FailOnce(four, 0, a, MINUTE + 2, 3);
  }

  /** The bound needs a clock past the epoch: at tick zero the record looks unused each time, so
      any number of failures is admitted. */
  lemma {:induction false} EpochClockDefeatsTheLimiter(a: string, n: nat) returns (calls: seq<Call>)
    ensures IsRun(calls, -1) && (|calls| > 0 ==> Clock(calls) == 0)
    ensures InMinute(Failures(calls, a), 0) == n
    ensures a in After(calls) ==> After(calls)[a] == Attempt(0, 0, 1)
  {
    if n == 0 {
      calls := [];
    } else {
      calls := EpochClockDefeatsTheLimiter(a, n - 1);
      calls := FailOnce(calls, -1, a, 0, 0);
    }
  }

  lemma {:induction false} EarlierStart(calls: seq<Call>, start: int, earlier: int)
    requires earlier <= start && IsRun(calls, start)
    ensures IsRun(calls, earlier)
  {
    if |calls| > 0 {
      EarlierStart(calls[..|calls| - 1], start, earlier);
    }
  }

  /** The sliding bound holds over all runs exactly for clocks that start at the epoch or later. */
  lemma BoundHoldsExactlyPastTheEpoch(start: int)
    ensures (forall calls, a, from :: IsRun(calls, start) ==> InMinute(Failures(calls, a), from) <= 8) <==> start >= 0
  {
    if start >= 0 {
      forall calls, a, from | IsRun(calls, start)
        ensures InMinute(Failures(calls, a), from) <= 8
      {
        EarlierStart(calls, start, 0);
        AtMostEightFailuresPerMinute(calls, a, from);
      }
    } else {
      var calls := EpochClockDefeatsTheLimiter("", 9);
      EarlierStart(calls, -1, start);
    }
  }

  // ----- who is admitted

  /** A run that goes on at a moment no earlier than its last call. */
  predicate Continues(calls: seq<Call>, now: int) { IsRun(calls, 0) && Clock(calls) <= now }

  /** At least a minute has passed since the last failure. */
  predicate Waited(times: seq<int>, now: int) {
    |times| == 0 || now >= times[|times| - 1] + 60_000_000_000
  }

  /** Five failures, the last at most a minute after the first. */
  predicate FiveInAMinute(times: seq<int>) { |times| == 5 && times[4] <= times[0] + 60_000_000_000 }

  /** An address is refused exactly during the minute after a failure that was at least the fifth of
      its window. */
  lemma RefusedExactlyWhileBlocked(calls: seq<Call>, a: string, now: int) returns (tags: seq<Tag>)
    requires Continues(calls, now)
    ensures Chain(tags) && SameTimes(tags, Failures(calls, a))
    ensures !Admits(After(calls), a, now) <==>
              |tags| > 0 && tags[|tags| - 1].number >= 5 && now < tags[|tags| - 1].time + 60_000_000_000
  {
    tags := RunsAreTagged(calls, a);
  }

  lemma {:induction false} NumbersAreSmall(tags: seq<Tag>, i: nat)
    requires Chain(tags) && i < |tags|
    ensures tags[i].number <= i + 1
  {
    if i > 0 {
      NumbersAreSmall(tags, i - 1);
      assert Follows(tags[i - 1], tags[i]);
    }
  }

  /** An address with fewer than five failures since its last success is always admitted. */
  lemma FewFailuresAreAdmitted(calls: seq<Call>, a: string, now: int)
    requires Continues(calls, now)
    ensures |Failures(calls, a)| < 5 ==> Admits(After(calls), a, now)
  {
    var tags := RefusedExactlyWhileBlocked(calls, a, now);
    if |tags| > 0 {
      NumbersAreSmall(tags, |tags| - 1);
    }
  }

  /** A minute after its last failure an address is admitted, whatever went before. */
  lemma WaitingIsEnough(calls: seq<Call>, a: string, now: int)
    requires Continues(calls, now)
    ensures Waited(Failures(calls, a), now) ==> Admits(After(calls), a, now)
  {
    var tags := RefusedExactlyWhileBlocked(calls, a, now);
  }

  lemma {:induction false} OneWindow(tags: seq<Tag>, i: nat)
    requires Chain(tags) && i < |tags|
    requires tags[|tags| - 1].time <= tags[0].time + MINUTE
    ensures tags[i].number == i + 1 && tags[i].window == tags[0].time
  {
    if i > 0 {
      OneWindow(tags, i - 1);
      ChainIsSorted(tags, i, |tags| - 1);
      assert Follows(tags[i - 1], tags[i]);
    }
  }

  /** The fifth failure within a minute blocks the address for exactly a minute. */
  lemma FifthFailureBlocks(calls: seq<Call>, a: string, now: int)
    requires Continues(calls, now)
    ensures FiveInAMinute(Failures(calls, a)) ==>
              (Admits(After(calls), a, now) <==> now >= Failures(calls, a)[4] + 60_000_000_000)
  {
    var tags := RefusedExactlyWhileBlocked(calls, a, now);
    if FiveInAMinute(Failures(calls, a)) {
      OneWindow(tags, 4);
    }
  }

  class Limiter {
    var attempts: Attempts
    ghost var calls: seq<Call>    // every call so far

    ghost predicate Valid()
      reads this
    {
      attempts == After(calls)
    }

    constructor ()
      ensures Valid() && calls == []
    {
      attempts, calls := map[], [];
    }

    method Allow(address: string, now: int) returns (admitted: bool)
      requires Valid()
      modifies this
      ensures Valid() && calls == old(calls) + [Call.Allow(address, now)]
      ensures admitted == Admits(old(attempts), address, now)
      ensures Continues(old(calls), now) && |Failures(old(calls), address)| < 5 ==> admitted
      ensures Continues(old(calls), now) && Waited(Failures(old(calls), address), now) ==> admitted
      ensures Continues(old(calls), now) && FiveInAMinute(Failures(old(calls), address)) ==>
                (admitted <==> now >= Failures(old(calls), address)[4] + 60_000_000_000)
      ensures attempts == AfterAllow(old(attempts), address, now)
    {
      if Continues(calls, now) {
        FewFailuresAreAdmitted(calls, address, now);
        WaitingIsEnough(calls, address, now);
        FifthFailureBlocks(calls, address, now);
      }
      calls := calls + [Call.Allow(address, now)];
      if address !in attempts {
        return true;
      }
      if attempts[address].blockedUntil > now {
        return false;
      }
      if now - attempts[address].windowStarted > MINUTE {
        attempts := attempts - {address};
      }
      return true;
    }

    method Failure(address: string, now: int)
      requires Valid()
      modifies this
      ensures Valid() && calls == old(calls) + [Call.Failure(address, now)]
      ensures attempts == AfterFailure(old(attempts), address, now)
    {
      calls := calls + [Call.Failure(address, now)];
      if address !in attempts {
        attempts := attempts[address := Attempt(0, 0, 0)];
      }
      if attempts[address].windowStarted == 0 || now - attempts[address].windowStarted > MINUTE {
        attempts := attempts[address := attempts[address].(windowStarted := now, failures := 0)];
      }
      attempts := attempts[address := attempts[address].(failures := attempts[address].failures + 1)];
      if attempts[address].failures >= MAX_FAILURES {
        attempts := attempts[address := attempts[address].(blockedUntil := now + MINUTE)];
      }
    }

    /** The clock is not read; `now` only dates the call. */
    method Success(address: string, ghost now: int)
      requires Valid()
      modifies this
      ensures Valid() && calls == old(calls) + [Call.Success(address, now)]
      ensures attempts == old(attempts) - {address}
    {
      calls := calls + [Call.Success(address, now)];
      attempts := attempts - {address};
    }
  }
}
