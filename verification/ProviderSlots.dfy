/** Start times that the passive-intelligence rate limiter reserves for its callers. */
module ProviderSlots {

  /** One first attempt: the caller's clock when it took the lock, and the start time it was given. */
  datatype Reservation = Reservation(source: string, now: int, start: int)

  function Max(a: int, b: int): int {
    if a < b then b else a
  }

  /** The latest reservation for the source, or -1. */
  function LatestFor(log: seq<Reservation>, source: string): (k: int)
    ensures -1 <= k < |log|
    ensures k >= 0 ==> log[k].source == source
    ensures forall i :: k < i < |log| ==> log[i].source != source
  {
    if log == [] then -1
    else if log[|log| - 1].source == source then |log| - 1
    else LatestFor(log[..|log| - 1], source)
  }

  /** The earliest start that respects the clock and the latest reservation of the same source. */
  function EarliestStart(log: seq<Reservation>, source: string, now: int, interval: int): int {
    var k := LatestFor(log, source);
    if k < 0 then now else Max(now, log[k].start + interval)
  }

  /** Every reservation got the earliest start that was possible after the ones before it. */
  ghost predicate Greedy(log: seq<Reservation>, interval: int) {
    log == []
    || var init, r := log[..|log| - 1], log[|log| - 1];
       Greedy(init, interval) && r.start == EarliestStart(init, r.source, r.now, interval)
  }

  lemma GreedyAppend(log: seq<Reservation>, r: Reservation, interval: int)
    requires Greedy(log, interval) && r.start == EarliestStart(log, r.source, r.now, interval)
    ensures Greedy(log + [r], interval)
  {
    assert (log + [r])[..|log|] == log;
  }

  /** The map holds the end of the interval after the latest reservation of the source. */
  ghost predicate NextAtAgrees(nextAt: map<string, int>, log: seq<Reservation>, source: string, interval: int) {
    var k := LatestFor(log, source);
    if k < 0 then source !in nextAt else source in nextAt && nextAt[source] == log[k].start + interval
  }

  lemma Reserved(nextAt: map<string, int>, log: seq<Reservation>, r: Reservation, interval: int, source: string)
    requires NextAtAgrees(nextAt, log, source, interval)
    ensures NextAtAgrees(nextAt[r.source := r.start + interval], log + [r], source, interval)
  {
    assert (log + [r])[..|log|] == log;
  }

  class RateLimiter {
    const interval: int
    var nextAt: map<string, int>
    ghost var log: seq<Reservation>

    ghost predicate Valid()
      reads this
    {
      && Greedy(log, interval)
      && forall s :: NextAtAgrees(nextAt, log, s, interval)
    }

    constructor (interval: int)
      ensures Valid() && log == [] && this.interval == interval
    {
      this.interval := interval;
      nextAt, log := map[], [];
    }

    /** The reservation made under the lock before the caller waits; without an interval nothing is reserved. */
    method WaitForProvider(source: string, now: int) returns (start: int)
      requires Valid()
      modifies this
      ensures Valid()
      ensures interval <= 0 ==> log == old(log) && start == now
      ensures interval > 0 ==> log == old(log) + [Reservation(source, now, start)]
    {
      if interval <= 0 {
        return now;
      }
      start := now;
      if source in nextAt && nextAt[source] >= now {
        start := nextAt[source];
      }
      ghost var r := Reservation(source, now, start);
      assert NextAtAgrees(nextAt, log, source, interval);
      GreedyAppend(log, r, interval);
      ghost var nextAt1, log1 := nextAt[source := start + interval], log + [r];
      forall s ensures NextAtAgrees(nextAt1, log1, s, interval) {
        Reserved(nextAt, log, r, interval, s);
      }
      nextAt := nextAt[source := start + interval];
      log := log + [r];
    }
  }

  // ---------------------------------------------------------------- properties of the schedule

  ghost predicate Spaced(log: seq<Reservation>, interval: int) {
    forall i, j :: 0 <= i < j < |log| && log[i].source == log[j].source ==> log[j].start >= log[i].start + interval
  }

  lemma AfterTheLatest(log: seq<Reservation>, source: string, start: int, interval: int)
    requires interval > 0 && Spaced(log, interval)
    requires var k := LatestFor(log, source); k >= 0 ==> start >= log[k].start + interval
    ensures forall i :: 0 <= i < |log| && log[i].source == source ==> start >= log[i].start + interval
  {
  }

  /**
   No reservation starts before its caller's clock, and starts for one provider are an interval apart, whatever the
   clocks say.
   */
  lemma {:induction false} StartsAreSpaced(log: seq<Reservation>, interval: int)
    requires interval > 0 && Greedy(log, interval)
    ensures Spaced(log, interval)
    ensures forall i :: 0 <= i < |log| ==> log[i].start >= log[i].now
  {
    if log != [] {
      var init, r := log[..|log| - 1], log[|log| - 1];
      StartsAreSpaced(init, interval);
      AfterTheLatest(init, r.source, r.start, interval);
      assert log == init + [r];
    }
  }

  /** Same callers in the same order. */
  ghost predicate SameCalls(a: seq<Reservation>, b: seq<Reservation>) {
    |a| == |b| && forall i :: 0 <= i < |a| ==> a[i].source == b[i].source && a[i].now == b[i].now
  }

  /** Any schedule for the same callers that respects clocks and spacing starts each of them no earlier. */
  lemma {:induction false} ScheduleIsEarliest(log: seq<Reservation>, other: seq<Reservation>, interval: int)
    requires interval > 0 && Greedy(log, interval)
    requires SameCalls(log, other) && Spaced(other, interval)
    requires forall i :: 0 <= i < |other| ==> other[i].start >= other[i].now
    ensures forall i :: 0 <= i < |log| ==> log[i].start <= other[i].start
  {
    if log != [] {
      var n := |log| - 1;
      ScheduleIsEarliest(log[..n], other[..n], interval);
      forall i | 0 <= i < n ensures log[i].start <= other[i].start {
        assert log[..n][i].start <= other[..n][i].start;
      }
      var k := LatestFor(log[..n], log[n].source);
      if k >= 0 { assert other[k].source == other[n].source; }
    }
  }

  function OnlySource(log: seq<Reservation>, source: string): seq<Reservation> {
    if log == [] then []
    else OnlySource(log[..|log| - 1], source) + (if log[|log| - 1].source == source then [log[|log| - 1]] else [])
  }

  lemma {:induction false} LatestOfSource(log: seq<Reservation>, source: string)
    ensures var only := OnlySource(log, source); var k := LatestFor(log, source);
      && (k < 0 <==> only == [])
      && (k >= 0 ==> only[|only| - 1] == log[k])
      && forall r :: r in only ==> r.source == source
  {
    if log != [] { LatestOfSource(log[..|log| - 1], source); }
  }

  /** Other providers are unaffected: the reservations of one source alone form the same schedule. */
  lemma {:induction false} ProvidersAreIndependent(log: seq<Reservation>, source: string, interval: int)
    requires Greedy(log, interval)
    ensures Greedy(OnlySource(log, source), interval)
  {
    if log != [] {
      var init, r := log[..|log| - 1], log[|log| - 1];
      ProvidersAreIndependent(init, source, interval);
      if r.source == source {
        LatestOfSource(init, source);
        OwnLatest(OnlySource(init, source), source);
        var only := OnlySource(init, source);
        assert EarliestStart(only, source, r.now, interval) == EarliestStart(init, source, r.now, interval);
        GreedyAppend(only, r, interval);
        assert OnlySource(log, source) == only + [r];
      } else {
        assert OnlySource(log, source) == OnlySource(init, source) + [] == OnlySource(init, source);
      }
    }
  }

  lemma OwnLatest(only: seq<Reservation>, source: string)
    requires forall r :: r in only ==> r.source == source
    ensures LatestFor(only, source) == |only| - 1
  {
  }

}
