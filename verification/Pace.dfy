/** packages/query-engine/src/pace.ts: when a provider may be called. */
module Pace {
  import opened Graphs
  import opened Wrappers

  const DAY_MS := 86_400_000.0

  datatype Clock = Clock(nextFreeAt: real, windowStart: real, used: nat)

  datatype Limits = Limits(perMinute: Option<real>, perDay: Option<int>)

  /** A granted call is meant to start at `slot`; the caller waits `waited`. */
  datatype Verdict = Granted(slot: real, waited: real) | QuotaSpent

  function Max(a: real, b: real): real {
    if a < b then b else a
  }

  function Min(a: real, b: real): real {
    if a < b then a else b
  }

  /** The provider's clock at the time of a call: a new day starts a new window. */
  function ClockFor(clock: Option<Clock>, at: real): Clock {
    match clock
    case None => Clock(at, at, 0)
    case Some(c) => if at - c.windowStart >= DAY_MS then c.(windowStart := at, used := 0) else c
  }

  predicate Paced(l: Limits) {
    l.perMinute.Some? && l.perMinute.value > 0.0
  }

  function Interval(l: Limits): real
    requires Paced(l)
  {
    60_000.0 / l.perMinute.value
  }

  function Take(l: Limits, maxWaitMs: real, clock: Option<Clock>, at: real): (Clock, Verdict) {
    var c := ClockFor(clock, at);
    if l.perDay.Some? && c.used >= l.perDay.value then (c, QuotaSpent)
    else if !Paced(l) then (c.(used := c.used + 1), Granted(at, 0.0))
    else
      var slot := Max(at, c.nextFreeAt);
      (Clock(slot + Interval(l), c.windowStart, c.used + 1), Granted(slot, Max(0.0, Min(slot - at, maxWaitMs))))
  }

  class Pacer {
    const maxWaitMs: real
    var clocks: map<Id, Clock>

    constructor (maxWait: real)
      ensures maxWaitMs == maxWait && clocks == map[]
    {
      maxWaitMs, clocks := maxWait, map[];
    }

    method TakeSlot(provider: Id, l: Limits, at: real) returns (v: Verdict)
      modifies this
      ensures var known := if provider in old(clocks) then Some(old(clocks)[provider]) else None;
              v == Take(l, maxWaitMs, known, at).1 && clocks == old(clocks)[provider := Take(l, maxWaitMs, known, at).0]
    {
      var clock := ClockFor(if provider in clocks then Some(clocks[provider]) else None, at);
      clocks := clocks[provider := clock];
      if l.perDay.Some? && clock.used >= l.perDay.value {
        return QuotaSpent;
      }
      clocks := clocks[provider := clock.(used := clock.used + 1)];
      if !Paced(l) {
        return Granted(at, 0.0);
      }
      var slot := Max(at, clock.nextFreeAt);
      clocks := clocks[provider := Clock(slot + Interval(l), clock.windowStart, clock.used + 1)];
      v := Granted(slot, Max(0.0, Min(slot - at, maxWaitMs)));
    }
  }

  // ---------------------------------------------------------------- the calls of one provider

  function ClockAfter(l: Limits, maxWaitMs: real, times: seq<real>): Option<Clock> {
    if times == [] then None else
      Some(Take(l, maxWaitMs, ClockAfter(l, maxWaitMs, times[..|times| - 1]), times[|times| - 1]).0)
  }

  /** The verdict on the call at position `k`. */
  function VerdictAt(l: Limits, maxWaitMs: real, times: seq<real>, k: nat): Verdict
    requires k < |times|
  {
    Take(l, maxWaitMs, ClockAfter(l, maxWaitMs, times[..k]), times[k]).1
  }

  lemma IntervalPositive(l: Limits)
    requires Paced(l)
    ensures Interval(l) > 0.0
  {
    var r := l.perMinute.value;
    assert (60_000.0 / r) * r == 60_000.0;
  }

  /** The clock is free no earlier than an interval after any slot it gave out. */
  lemma {:induction false} SlotsPushTheClock(l: Limits, maxWaitMs: real, times: seq<real>, k: nat)
    requires Paced(l) && k < |times| && VerdictAt(l, maxWaitMs, times, k).Granted?
    ensures ClockAfter(l, maxWaitMs, times).value.nextFreeAt >= VerdictAt(l, maxWaitMs, times, k).slot + Interval(l)
  {
    hide Interval;
    var n := |times| - 1;
    IntervalPositive(l);
    if k < n {
      assert times[..n][..k] == times[..k];
      SlotsPushTheClock(l, maxWaitMs, times[..n], k);
    }
  }

  /** Whatever the order and the times of the calls, no two slots of a provider are closer than its interval. */
  lemma SlotsAreSpaced(l: Limits, maxWaitMs: real, times: seq<real>, i: nat, k: nat)
    requires Paced(l) && i < k < |times|
    requires VerdictAt(l, maxWaitMs, times, i).Granted? && VerdictAt(l, maxWaitMs, times, k).Granted?
    ensures VerdictAt(l, maxWaitMs, times, k).slot >= VerdictAt(l, maxWaitMs, times, i).slot + Interval(l)
    ensures VerdictAt(l, maxWaitMs, times, k).slot >= times[k]
  {
    hide Interval;
    assert times[..k][..i] == times[..i] && times[..k][i] == times[i];
    SlotsPushTheClock(l, maxWaitMs, times[..k], i);
  }

  // ---------------------------------------------------------------- when the calls really start

  /** A granted call starts when its wait is over, which may be before its slot. */
  function StartAt(l: Limits, maxWaitMs: real, times: seq<real>, k: nat): real
    requires k < |times| && VerdictAt(l, maxWaitMs, times, k).Granted?
  {
    times[k] + VerdictAt(l, maxWaitMs, times, k).waited
  }

  /** When call `k` comes, the provider is free again within the time a caller is willing to wait. */
  predicate WithinPatience(l: Limits, maxWaitMs: real, times: seq<real>, k: nat)
    requires k < |times|
  {
    ClockFor(ClockAfter(l, maxWaitMs, times[..k]), times[k]).nextFreeAt - times[k] <= Max(0.0, maxWaitMs)
  }

  ghost predicate AllWithinPatience(l: Limits, maxWaitMs: real, times: seq<real>) {
    forall k :: 0 <= k < |times| && VerdictAt(l, maxWaitMs, times, k).Granted? ==> WithinPatience(l, maxWaitMs, times, k)
  }

  /** Any two calls that are granted start at least an interval apart, in the order they came. */
  ghost predicate StartsAreSpaced(l: Limits, maxWaitMs: real, times: seq<real>)
    requires Paced(l)
  {
    forall i, k :: 0 <= i < k < |times| && VerdictAt(l, maxWaitMs, times, i).Granted? && VerdictAt(l, maxWaitMs, times, k).Granted?
      ==> StartAt(l, maxWaitMs, times, k) >= StartAt(l, maxWaitMs, times, i) + Interval(l)
  }

  /** A call within patience starts at its slot, any other one before it. */
  lemma StartsAtSlot(l: Limits, maxWaitMs: real, times: seq<real>, k: nat)
    requires Paced(l) && k < |times| && VerdictAt(l, maxWaitMs, times, k).Granted?
    ensures var slot, start := VerdictAt(l, maxWaitMs, times, k).slot, StartAt(l, maxWaitMs, times, k);
            start <= slot && (start == slot <==> WithinPatience(l, maxWaitMs, times, k))
    ensures !WithinPatience(l, maxWaitMs, times, k) ==>
              VerdictAt(l, maxWaitMs, times, k).slot == ClockFor(ClockAfter(l, maxWaitMs, times[..k]), times[k]).nextFreeAt
  {
    hide Interval;
  }

  /** A quota that refuses the first call refuses every call. */
  lemma FirstGranted(l: Limits, maxWaitMs: real, times: seq<real>, k: nat)
    requires k < |times| && VerdictAt(l, maxWaitMs, times, k).Granted?
    ensures VerdictAt(l, maxWaitMs, times, 0).Granted?
  {
    hide Interval;
    assert times[..0] == [];
  }

  /** The clock is free an interval after the slot of the last granted call. */
  lemma {:induction false} ClockComesFrom(l: Limits, maxWaitMs: real, times: seq<real>) returns (i: nat)
    requires Paced(l) && times != [] && VerdictAt(l, maxWaitMs, times, 0).Granted?
    ensures i < |times| && VerdictAt(l, maxWaitMs, times, i).Granted?
    ensures ClockAfter(l, maxWaitMs, times).value.nextFreeAt == VerdictAt(l, maxWaitMs, times, i).slot + Interval(l)
  {
    hide Interval;
    var n := |times| - 1;
    if VerdictAt(l, maxWaitMs, times, n).Granted? {
      i := n;
    } else {
      assert times[..n][..0] == times[..0];
      i := ClockComesFrom(l, maxWaitMs, times[..n]);
      assert times[..n][..i] == times[..i];
    }
  }

  /** A call out of patience starts too close to the one that was granted before it. */
  lemma TooCloseToPrevious(l: Limits, maxWaitMs: real, times: seq<real>, k: nat) returns (i: nat)
    requires Paced(l) && k < |times| && VerdictAt(l, maxWaitMs, times, k).Granted? && !WithinPatience(l, maxWaitMs, times, k)
    ensures i < k && VerdictAt(l, maxWaitMs, times, i).Granted?
    ensures StartAt(l, maxWaitMs, times, k) < VerdictAt(l, maxWaitMs, times, i).slot + Interval(l)
  {
    hide Interval;
    FirstGranted(l, maxWaitMs, times, k);
    StartsAtSlot(l, maxWaitMs, times, k);
    assert k > 0 by {
      assert times[..0] == [];
    }
    assert times[..k][..0] == times[..0];
    i := ClockComesFrom(l, maxWaitMs, times[..k]);
    assert times[..k][..i] == times[..i];
  }

  /** The first granted call that is out of patience. */
  lemma {:induction false} FirstOutOfPatience(l: Limits, maxWaitMs: real, times: seq<real>, k: nat) returns (m: nat)
    requires k < |times| && VerdictAt(l, maxWaitMs, times, k).Granted? && !WithinPatience(l, maxWaitMs, times, k)
    ensures m <= k && VerdictAt(l, maxWaitMs, times, m).Granted? && !WithinPatience(l, maxWaitMs, times, m)
    ensures forall i :: 0 <= i < m && VerdictAt(l, maxWaitMs, times, i).Granted? ==> WithinPatience(l, maxWaitMs, times, i)
  {
    hide VerdictAt, WithinPatience;
    if i :| 0 <= i < k && VerdictAt(l, maxWaitMs, times, i).Granted? && !WithinPatience(l, maxWaitMs, times, i) {
      m := FirstOutOfPatience(l, maxWaitMs, times, i);
    } else {
      m := k;
    }
  }

  /** The limit per minute holds for the calls themselves, not only for their slots, exactly when every granted
      call finds the provider free within the time it is willing to wait. */
  lemma StartsSpacedIffWithinPatience(l: Limits, maxWaitMs: real, times: seq<real>)
    requires Paced(l)
    ensures StartsAreSpaced(l, maxWaitMs, times) <==> AllWithinPatience(l, maxWaitMs, times)
  {
    hide VerdictAt, WithinPatience, StartAt, Interval;
    if AllWithinPatience(l, maxWaitMs, times) {
      forall i, k | 0 <= i < k < |times| && VerdictAt(l, maxWaitMs, times, i).Granted? && VerdictAt(l, maxWaitMs, times, k).Granted?
        ensures StartAt(l, maxWaitMs, times, k) >= StartAt(l, maxWaitMs, times, i) + Interval(l)
      {
        SlotsAreSpaced(l, maxWaitMs, times, i, k);
        StartsAtSlot(l, maxWaitMs, times, i);
        StartsAtSlot(l, maxWaitMs, times, k);
      }
    } else {
      var k :| 0 <= k < |times| && VerdictAt(l, maxWaitMs, times, k).Granted? && !WithinPatience(l, maxWaitMs, times, k);
      var m := FirstOutOfPatience(l, maxWaitMs, times, k);
      var i := TooCloseToPrevious(l, maxWaitMs, times, m);
      StartsAtSlot(l, maxWaitMs, times, i);
      assert StartAt(l, maxWaitMs, times, m) < StartAt(l, maxWaitMs, times, i) + Interval(l);
    }
  }

  /** With sixty calls a minute and half a second of patience, two calls at once start half a second apart. */
  lemma TwoCallsTooClose()
    ensures var l, times := Limits(Some(60.0), None), [0.0, 0.0];
            && Paced(l) && Interval(l) == 1000.0
            && VerdictAt(l, 500.0, times, 0).Granted? && VerdictAt(l, 500.0, times, 1).Granted?
            && StartAt(l, 500.0, times, 0) == 0.0 && StartAt(l, 500.0, times, 1) == 500.0
  {
    var l, times := Limits(Some(60.0), None), [0.0, 0.0];
    assert times[..0] == [] && times[..1] == [0.0] && [0.0][..0] == [];
    assert ClockAfter(l, 500.0, [0.0]) == Some(Clock(1000.0, 0.0, 1));
  }

  // ---------------------------------------------------------------- the day's quota

  /** How many of the calls since the window began were granted. */
  function GrantedSince(l: Limits, maxWaitMs: real, times: seq<real>): nat {
    if times == [] then 0 else
      var n := |times| - 1;
      var before := ClockAfter(l, maxWaitMs, times[..n]);
      var newDay := before.None? || times[n] - before.value.windowStart >= DAY_MS;
      (if newDay then 0 else GrantedSince(l, maxWaitMs, times[..n])) + (if VerdictAt(l, maxWaitMs, times, n).Granted? then 1 else 0)
  }

  /** In one day window a provider is called no more often than its quota allows. */
  lemma {:induction false} QuotaHolds(l: Limits, maxWaitMs: real, times: seq<real>)
    requires times != []
    ensures ClockAfter(l, maxWaitMs, times).value.used == GrantedSince(l, maxWaitMs, times)
    ensures l.perDay.Some? && l.perDay.value >= 0 ==> GrantedSince(l, maxWaitMs, times) <= l.perDay.value
  {
    var n := |times| - 1;
    if n > 0 {
      QuotaHolds(l, maxWaitMs, times[..n]);
    }
  }

  // ---------------------------------------------------------------- the verdict on one call

  /** A granted call gets the earliest slot there is: the moment it comes, or an interval after an earlier slot. */
  lemma SlotIsEarliest(l: Limits, maxWaitMs: real, times: seq<real>, k: nat)
    requires Paced(l) && k < |times| && VerdictAt(l, maxWaitMs, times, k).Granted?
    ensures var slot := VerdictAt(l, maxWaitMs, times, k).slot;
      || slot == times[k]
      || exists i :: 0 <= i < k && VerdictAt(l, maxWaitMs, times, i).Granted? && slot == VerdictAt(l, maxWaitMs, times, i).slot + Interval(l)
  {
    hide Interval;
    FirstGranted(l, maxWaitMs, times, k);
    if VerdictAt(l, maxWaitMs, times, k).slot != times[k] {
      NotTheFirst(l, maxWaitMs, times, k);
      assert times[..k][..0] == times[..0];
      var i := ClockComesFrom(l, maxWaitMs, times[..k]);
      assert times[..k][..i] == times[..i];
      assert VerdictAt(l, maxWaitMs, times, i) == VerdictAt(l, maxWaitMs, times[..k], i);
    }
  }

  lemma NotTheFirst(l: Limits, maxWaitMs: real, times: seq<real>, k: nat)
    requires Paced(l) && k < |times| && VerdictAt(l, maxWaitMs, times, k).Granted? && VerdictAt(l, maxWaitMs, times, k).slot != times[k]
    ensures k > 0
  {
    hide Interval;
    assert times[..0] == [];
  }

  /** The caller waits for its slot, but never longer than it is willing to, and not at all without a limit. */
  lemma WaitIsClamped(l: Limits, maxWaitMs: real, times: seq<real>, k: nat)
    requires k < |times| && VerdictAt(l, maxWaitMs, times, k).Granted?
    ensures var v := VerdictAt(l, maxWaitMs, times, k);
      && (!Paced(l) ==> v.slot == times[k] && v.waited == 0.0)
      && v.waited >= 0.0
      && (v.slot - times[k] <= maxWaitMs ==> v.waited == v.slot - times[k])
      && (v.slot - times[k] > maxWaitMs ==> v.waited == Max(0.0, maxWaitMs))
  {
    hide Interval;
  }

  /** When the day's window began that the call after these falls into. */
  function WindowOf(times: seq<real>, at: real): real {
    if times == [] then at else
      var start := WindowOf(times[..|times| - 1], times[|times| - 1]);
      if at - start >= 86_400_000.0 then at else start
  }

  /** How many of these calls were granted in the window that the call at `at` falls into. */
  function GrantedInWindow(l: Limits, maxWaitMs: real, times: seq<real>, at: real): nat {
    if times == [] then 0 else
      var n := |times| - 1;
      if at - WindowOf(times[..n], times[n]) >= 86_400_000.0 then 0
      else GrantedInWindow(l, maxWaitMs, times[..n], times[n]) + (if VerdictAt(l, maxWaitMs, times, n).Granted? then 1 else 0)
  }

  lemma {:induction false} ClockMeaning(l: Limits, maxWaitMs: real, times: seq<real>, at: real)
    ensures var c := ClockFor(ClockAfter(l, maxWaitMs, times), at);
      c.windowStart == WindowOf(times, at) && c.used == GrantedInWindow(l, maxWaitMs, times, at)
  {
    hide Interval;
    if times != [] {
      ClockMeaning(l, maxWaitMs, times[..|times| - 1], times[|times| - 1]);
    }
  }

  /** A call is refused exactly when the day's quota has been used up in its window. */
  lemma RefusedIffSpent(l: Limits, maxWaitMs: real, times: seq<real>, k: nat)
    requires k < |times|
    ensures VerdictAt(l, maxWaitMs, times, k).QuotaSpent? <==>
            l.perDay.Some? && GrantedInWindow(l, maxWaitMs, times[..k], times[k]) >= l.perDay.value
  {
    hide Interval;
    ClockMeaning(l, maxWaitMs, times[..k], times[k]);
  }
}
