/** The process-local limiter under changing limits: what a reconfiguration leaves, and what runs with reconfigurations grant. */
module Reconfigurations {
  import opened Wrappers
  import opened TokenRefill
  import opened RateLimiter

  // ---------------------------------------------------------------- one reconfiguration

  /**
   * A usable reconfiguration leaves the smallest of the new capacity, the old one, and the tokens held
   * plus what accrued at the old rate since the last refill. An unusable one is an error.
   */
  lemma ReconfigureLeaves(l: Limiter, next: Options, now: int)
    requires Inv(l)
    ensures Reconfigure(l, next, now).Some? <==> next.capacity > 0.0 && next.refillPerSecond > 0.0
    ensures Reconfigure(l, next, now).Some? ==>
              var r := Reconfigure(l, next, now).value;
              var supply := l.tokens + Accrued(l.opts.refillPerSecond, Behind(now, l.lastRefillMs));
              && r.opts == next && r.inFlight == l.inFlight && r.lastRefillMs == Later(l.lastRefillMs, now)
              && r.tokens <= supply && r.tokens <= l.opts.capacity && r.tokens <= next.capacity
              && r.tokens in {supply, l.opts.capacity, next.capacity}
  {
    hide Accrued;
    RefillLevel(l, now);
    AccruedSign(l.opts.refillPerSecond, 0);
  }

  lemma RefillLevel(l: Limiter, now: int)
    requires Inv(l)
    ensures Refill(l, now) == l.(tokens := LevelAt(l, now), lastRefillMs := Later(l.lastRefillMs, now))
    ensures LevelAt(l, now) <= l.tokens + Accrued(l.opts.refillPerSecond, Behind(now, l.lastRefillMs))
    ensures now > l.lastRefillMs ==> LevelAt(l, now) == MinReal(l.opts.capacity, l.tokens + Accrued(l.opts.refillPerSecond, now - l.lastRefillMs))
  {
    hide Accrued;
    AccruedSign(l.opts.refillPerSecond, now - l.lastRefillMs);
    AccruedSign(l.opts.refillPerSecond, 0);
  }

  // ---------------------------------------------------------------- runs

  /** The rate in force after an event. */
  function RateAfter(rate: real, e: Event): real {
    if e.Reconfiguring? && e.next.capacity > 0.0 && e.next.refillPerSecond > 0.0 then e.next.refillPerSecond else rate
  }

  /** What accrues over a run at the rates in force, from a reading on. */
  function Supply(rate: real, at: int, events: seq<Event>): real
    decreases |events|
  {
    if |events| == 0 then 0.0
    else if events[0].Releasing? then Supply(rate, at, events[1..])
    else
      Accrued(rate, Behind(events[0].now, at)) + Supply(RateAfter(rate, events[0]), Later(at, events[0].now), events[1..])
  }

  /** The clock never reads less than it has read. */
  predicate Forwards(at: int, events: seq<Event>)
    decreases |events|
  {
    |events| == 0
    || (if events[0].Releasing? then Forwards(at, events[1..])
        else at <= events[0].now && Forwards(events[0].now, events[1..]))
  }

  /** What the bucket would hold at a reading not before its last refill. */
  function Stock(l: Limiter, at: int): real {
    MinReal(l.opts.capacity, l.tokens + Accrued(l.opts.refillPerSecond, at - l.lastRefillMs))
  }

  function GrantOf(l: Limiter, e: Event): real { if GrantsAt(l, e) then 1.0 else 0.0 }

  /** One event spends no more than the stock and what accrues up to its reading. */
  lemma EventSpends(l: Limiter, e: Event, at: int)
    requires Inv(l) && l.lastRefillMs <= at && (!e.Releasing? ==> at <= e.now)
    ensures var next := Apply(l, e);
            var now := if e.Releasing? then at else e.now;
            && next.lastRefillMs <= now && next.opts.refillPerSecond == RateAfter(l.opts.refillPerSecond, e)
            && Stock(next, now) + GrantOf(l, e) <= Stock(l, at) + Accrued(l.opts.refillPerSecond, now - at)
  {
    hide Accrued;
    var now := if e.Releasing? then at else e.now;
    AccruedSplit(l.opts.refillPerSecond, at - l.lastRefillMs, now - at);
    AccruedSign(l.opts.refillPerSecond, now - at);
    match e {
      case Releasing =>
      case Acquiring(_) =>
        RefillLevel(l, now);
        AccruedSign(l.opts.refillPerSecond, 0);
        AcquireStock(l, now);
      case Reconfiguring(next, _) =>
        RefillLevel(l, now);
        AccruedSign(l.opts.refillPerSecond, 0);
        AccruedNothing(next.refillPerSecond);
    }
  }

  lemma AcquireStock(l: Limiter, now: int)
    requires Inv(l) && l.lastRefillMs <= now
    ensures var (next, outcome) := Acquire(l, now);
            next.lastRefillMs <= now && next.opts == l.opts
            && Stock(next, now) + (if outcome == Granted then 1.0 else 0.0) <= Stock(l, now)
  {
    hide Accrued;
    AccruedSign(l.opts.refillPerSecond, 0);
    if Acquire(l, now).1 == ConcurrencyCapReached {
      CapChangesNothing(l, now);
    } else {
      AcquireLevel(l, now);
      AccruedNothing(l.opts.refillPerSecond);
    }
  }

  lemma AccruedNothing(rate: real)
    ensures Accrued(rate, 0) == 0.0
  {
  }

  /** Under a clock that never goes back, a run grants at most the stock it starts with and what accrues at the rates in force. */
  lemma {:induction false} GrantsWithinSupply(l: Limiter, events: seq<Event>, at: int)
    requires Inv(l) && l.lastRefillMs <= at && Forwards(at, events)
    ensures Grants(l, events) as real <= Stock(l, at) + Supply(l.opts.refillPerSecond, at, events)
    decreases |events|
  {
    hide Apply, Acquire, Accrued;
    if |events| == 0 {
      AccruedSign(l.opts.refillPerSecond, at - l.lastRefillMs);
    } else {
      var now := if events[0].Releasing? then at else events[0].now;
      ApplyKeeps(l, events[0]);
      EventSpends(l, events[0], at);
      AccruedNothing(l.opts.refillPerSecond);
      GrantsWithinSupply(Apply(l, events[0]), events[1..], now);
    }
  }

  /**
   * Across reconfigurations, from any state and from any reading on, no more is granted than the
   * capacity in force there and what accrues at the rates in force, and no more than the tokens held,
   * what accrued since the last refill and what accrues from there.
   */
  lemma WindowAcrossReconfigurations(l: Limiter, before: seq<Event>, window: seq<Event>, first: int)
    requires Inv(l)
    requires Run(l, before).lastRefillMs <= first && Forwards(first, window)
    ensures var s := Run(l, before);
            && Grants(s, window) as real <= s.opts.capacity + Supply(s.opts.refillPerSecond, first, window)
            && Grants(s, window) as real
               <= s.tokens + Accrued(s.opts.refillPerSecond, first - s.lastRefillMs) + Supply(s.opts.refillPerSecond, first, window)
  {
    hide Run, Grants, Accrued, Supply;
    RunKeeps(l, before);
    GrantsWithinSupply(Run(l, before), window, first);
  }

  /** Every rate that comes into force in a run is at most `rate`, and no reading is past `last`. */
  predicate AtMost(events: seq<Event>, rate: real, last: int) {
    forall i :: 0 <= i < |events| ==>
      (events[i].Reconfiguring? ==> events[i].next.refillPerSecond <= rate) && (!events[i].Releasing? ==> events[i].now <= last)
  }

  /** The supply of a run is at most what the highest rate accrues over its readings. */
  lemma {:induction false} SupplyAtHighestRate(rate: real, at: int, events: seq<Event>, highest: real, last: int)
    requires 0.0 <= rate <= highest && at <= last && Forwards(at, events) && AtMost(events, highest, last)
    ensures Supply(rate, at, events) <= Accrued(highest, last - at)
    decreases |events|
  {
    hide Accrued;
    if |events| == 0 {
      AccruedSign(highest, last - at);
    } else {
      var now := if events[0].Releasing? then at else events[0].now;
      assert AtMost(events[1..], highest, last);
      HigherRate(rate, highest, now - at);
      AccruedSplit(highest, now - at, last - now);
      SupplyAtHighestRate(RateAfter(rate, events[0]), now, events[1..], highest, last);
      AccruedNothing(highest);
    }
  }

  lemma HigherRate(rate: real, highest: real, ms: int)
    requires rate <= highest && ms >= 0
    ensures Accrued(rate, ms) <= Accrued(highest, ms)
  {
    var seconds := ms as real / 1000.0;
    assert 0.0 <= seconds * (highest - rate);
  }

  // ---------------------------------------------------------------- concurrency

  /** Every usable reconfiguration caps the calls in flight at most at `cap`. */
  predicate CapsWithin(events: seq<Event>, cap: int) {
    forall i :: 0 <= i < |events| && events[i].Reconfiguring? ==> 0 < events[i].next.maxConcurrent.GetOr(0) <= cap
  }

  /** Across reconfigurations the calls in flight stay within the largest cap in force. */
  lemma {:induction false} CappedAcrossReconfigurations(l: Limiter, events: seq<Event>, cap: int)
    requires Inv(l) && 0 < l.opts.maxConcurrent.GetOr(0) <= cap && l.inFlight <= cap && CapsWithin(events, cap)
    ensures Run(l, events).inFlight <= cap
    decreases |events|
  {
    hide Accrued;
    if |events| > 0 {
      ApplyKeeps(l, events[0]);
      assert CapsWithin(events[1..], cap);
      CappedAcrossReconfigurations(Apply(l, events[0]), events[1..], cap);
    }
  }
}
