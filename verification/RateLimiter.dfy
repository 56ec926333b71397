/** The process-local token bucket with a concurrency cap, in its non-waiting mode. Times are clock readings in ms. */
module RateLimiter {
  import opened Wrappers
  import opened TokenRefill

  datatype Options = Options(capacity: real, refillPerSecond: real, maxConcurrent: Option<int>)

  predicate Usable(o: Options) {
    o.capacity > 0.0 && o.refillPerSecond > 0.0
  }

  datatype Limiter = Limiter(opts: Options, tokens: real, lastRefillMs: int, inFlight: int)

  datatype Outcome = Granted | ConcurrencyCapReached | BucketEmpty

  function Refill(l: Limiter, now: int): Limiter {
    var add := Accrued(l.opts.refillPerSecond, now - l.lastRefillMs);
    if add > 0.0 then l.(tokens := MinReal(l.opts.capacity, l.tokens + add), lastRefillMs := now) else l
  }

  function Acquire(l: Limiter, now: int): (Limiter, Outcome) {
    var maxConcurrent := l.opts.maxConcurrent.GetOr(0);
    if maxConcurrent > 0 && l.inFlight >= maxConcurrent then (l, ConcurrencyCapReached)
    else
      var r := Refill(l, now);
      if r.tokens >= 1.0 then (r.(tokens := r.tokens - 1.0, inFlight := r.inFlight + 1), Granted) else (r, BucketEmpty)
  }

  function Release(l: Limiter): Limiter {
    if l.inFlight > 0 then l.(inFlight := l.inFlight - 1) else l
  }

  /** None is the error raised for unusable options, which changes nothing. */
  function Reconfigure(l: Limiter, next: Options, now: int): Option<Limiter> {
    if !Usable(next) then None
    else
      var r := Refill(l, now);
      Some(r.(opts := next, tokens := MinReal(r.tokens, next.capacity)))
  }

  // ---------------------------------------------------------------- runs

  datatype Event = Acquiring(now: int) | Releasing | Reconfiguring(next: Options, now: int)

  function Apply(l: Limiter, e: Event): Limiter {
    match e
    case Acquiring(now) => Acquire(l, now).0
    case Releasing => Release(l)
    case Reconfiguring(next, now) => Reconfigure(l, next, now).GetOr(l)
  }

  function Run(l: Limiter, events: seq<Event>): Limiter
    decreases |events|
  {
    if |events| == 0 then l else Run(Apply(l, events[0]), events[1..])
  }

  function Grants(l: Limiter, events: seq<Event>): nat
    decreases |events|
  {
    if |events| == 0 then 0
    else
      (if events[0].Acquiring? && Acquire(l, events[0].now).1 == Granted then 1 else 0) + Grants(Apply(l, events[0]), events[1..])
  }

  function Releases(events: seq<Event>): nat {
    if |events| == 0 then 0 else (if events[0].Releasing? then 1 else 0) + Releases(events[1..])
  }

  predicate Inv(l: Limiter) {
    Usable(l.opts) && 0.0 <= l.tokens <= l.opts.capacity && l.inFlight >= 0
  }

  lemma ApplyKeeps(l: Limiter, e: Event)
    requires Inv(l)
    ensures Inv(Apply(l, e))
  {
    hide Accrued;
  }

  /** The bucket never holds less than nothing nor more than its capacity, whatever the clock does. */
  lemma {:induction false} RunKeeps(l: Limiter, events: seq<Event>)
    requires Inv(l)
    ensures Inv(Run(l, events))
    decreases |events|
  {
    hide Inv, Apply;
    if |events| > 0 {
      ApplyKeeps(l, events[0]);
      RunKeeps(Apply(l, events[0]), events[1..]);
    }
  }

  // ---------------------------------------------------------------- the window bound

  predicate NoReconfiguration(events: seq<Event>) {
    forall i :: 0 <= i < |events| ==> !events[i].Reconfiguring?
  }

  predicate GrantsAt(l: Limiter, e: Event) {
    e.Acquiring? && Acquire(l, e.now).1 == Granted
  }

  /** The calls of a run that are granted at a reading in [first, last]. */
  function GrantedIn(l: Limiter, events: seq<Event>, first: int, last: int): nat
    decreases |events|
  {
    if |events| == 0 then 0
    else
      (if GrantsAt(l, events[0]) && first <= events[0].now <= last then 1 else 0)
      + GrantedIn(Apply(l, events[0]), events[1..], first, last)
  }

  function BackFrom(from: int, events: seq<Event>): nat
    decreases |events|
  {
    if |events| == 0 then 0
    else if events[0].Acquiring? then Behind(from, events[0].now) + BackFrom(events[0].now, events[1..])
    else BackFrom(from, events[1..])
  }

  /** How far the readings of a run go back, in all. */
  function Back(events: seq<Event>): nat
    decreases |events|
  {
    if |events| == 0 then 0
    else if events[0].Acquiring? then BackFrom(events[0].now, events)
    else Back(events[1..])
  }

  function Later(a: int, b: int): int { if a < b then b else a }

  /**
   * How far past the window the clock had already been when a call read inside it. `seen` is the latest
   * reading so far, or the end of the window while no reading is past it.
   */
  function Past(events: seq<Event>, first: int, last: int, seen: int): nat
    requires last <= seen
    decreases |events|
  {
    if |events| == 0 then 0
    else if !events[0].Acquiring? then Past(events[1..], first, last, seen)
    else
      var rest := Past(events[1..], first, last, Later(seen, events[0].now));
      if first <= events[0].now <= last && rest < seen - last then seen - last else rest
  }

  lemma {:induction false} PastWithinBack(events: seq<Event>, first: int, last: int, seen: int, c: int)
    requires last <= seen
    ensures Past(events, first, last, seen) <= (if last < seen then Behind(seen, c) else 0) + BackFrom(c, events)
    decreases |events|
  {
    if |events| > 0 {
      if events[0].Acquiring? {
        PastWithinBack(events[1..], first, last, Later(seen, events[0].now), events[0].now);
      } else {
        PastWithinBack(events[1..], first, last, seen, c);
      }
    }
  }

  lemma {:induction false} PastAtMostBack(events: seq<Event>, first: int, last: int)
    ensures Past(events, first, last, last) <= Back(events)
    decreases |events|
  {
    if |events| > 0 {
      if events[0].Acquiring? {
        PastWithinBack(events, first, last, last, events[0].now);
      } else {
        PastAtMostBack(events[1..], first, last);
      }
    }
  }

  /**
   * What a clock that had been `d` past the window can add to it. A call past the window costs a token
   * when there is one, so a bucket of less than two never comes back with a whole one.
   */
  function Excess(o: Options, d: nat): real {
    if o.capacity < 2.0 then 0.0 else NotNegative(Accrued(o.refillPerSecond, d) - 1.0)
  }

  function Whole(tokens: real): real { if tokens < 1.0 then 0.0 else tokens }

  function MaxReal(a: real, b: real): real { if a < b then b else a }

  /** What a bucket refilled up to reading `at` can still grant at readings in the window. */
  function Potential(o: Options, tokens: real, at: int, first: int, last: int, d: nat): real {
    if at < first then o.capacity + Accrued(o.refillPerSecond, last - first) + Excess(o, d)
    else if at <= last then tokens + Accrued(o.refillPerSecond, last - at) + Excess(o, d)
    else MaxReal(Whole(tokens), if o.capacity < 2.0 then 0.0 else tokens + Accrued(o.refillPerSecond, Behind(last + d, at)) - 1.0)
  }

  lemma PotentialSign(o: Options, tokens: real, at: int, first: int, last: int, d: nat)
    requires Usable(o) && 0.0 <= tokens && first <= last
    ensures 0.0 <= Potential(o, tokens, at, first, last, d)
  {
    hide Accrued;
    AccruedSign(o.refillPerSecond, last - first);
    AccruedSign(o.refillPerSecond, last - at);
  }

  /** A reading not after the last refill adds nothing, and a grant takes a token. */
  lemma PotentialSpent(o: Options, tokens: real, at: int, first: int, last: int, d: nat)
    requires Usable(o) && 1.0 <= tokens && first <= last
    ensures Potential(o, tokens - 1.0, at, first, last, d) + (if first <= at then 1.0 else 0.0) <= Potential(o, tokens, at, first, last, d)
  {
    hide Accrued;
  }

  /** A refill at a reading before the end of the window. */
  lemma PotentialInside(o: Options, tokens: real, at: int, t: int, first: int, last: int, d: nat)
    requires Usable(o) && 0.0 <= tokens <= o.capacity && first <= last && at < t <= last
    ensures Potential(o, MinReal(o.capacity, tokens + Accrued(o.refillPerSecond, t - at)), t, first, last, d)
            <= Potential(o, tokens, at, first, last, d)
  {
    hide Accrued, Excess;
    AccruedSplit(o.refillPerSecond, t - at, last - t);
    if first <= t {
      AccruedMonotone(o.refillPerSecond, last - t, last - first);
    }
  }

  /** A call past the window, from a bucket not refilled past it: what is left for the window. */
  lemma PotentialLeaves(o: Options, tokens: real, at: int, t: int, first: int, last: int, d: nat)
    requires Usable(o) && 0.0 <= tokens <= o.capacity && first <= last && at <= last < t <= last + d
    ensures var level := MinReal(o.capacity, tokens + Accrued(o.refillPerSecond, t - at));
            Potential(o, if level < 1.0 then level else level - 1.0, t, first, last, d) <= Potential(o, tokens, at, first, last, d)
  {
    hide Accrued;
    var rate := o.refillPerSecond;
    AccruedSplit(rate, last - at, t - last);
    AccruedSplit(rate, t - last, last + d - t);
    AccruedSign(rate, last - at);
    AccruedSign(rate, last - first);
    AccruedSign(rate, t - last);
    AccruedSign(rate, last + d - t);
  }

  /** A call past the window, from a bucket refilled past it. */
  lemma PotentialOutside(o: Options, tokens: real, at: int, t: int, first: int, last: int, d: nat)
    requires Usable(o) && 0.0 <= tokens <= o.capacity && first <= last < at < t <= last + d
    ensures var level := MinReal(o.capacity, tokens + Accrued(o.refillPerSecond, t - at));
            Potential(o, if level < 1.0 then level else level - 1.0, t, first, last, d) <= Potential(o, tokens, at, first, last, d)
  {
    hide Accrued;
    var rate := o.refillPerSecond;
    AccruedSplit(rate, t - at, last + d - t);
    AccruedSign(rate, t - at);
    AccruedSign(rate, last + d - t);
  }

  /** What the bucket holds at a reading; one not after the last refill adds nothing. */
  function LevelAt(l: Limiter, t: int): real {
    if t > l.lastRefillMs
    then MinReal(l.opts.capacity, l.tokens + Accrued(l.opts.refillPerSecond, t - l.lastRefillMs))
    else l.tokens
  }

  /** What an acquire that passes the cap does to the bucket. */
  lemma AcquireLevel(l: Limiter, t: int)
    requires Inv(l) && Acquire(l, t).1 != ConcurrencyCapReached
    ensures var level := LevelAt(l, t);
            var (next, outcome) := Acquire(l, t);
            && next.opts == l.opts && next.lastRefillMs == Later(l.lastRefillMs, t)
            && (outcome == Granted <==> 1.0 <= level)
            && next.tokens == (if level < 1.0 then level else level - 1.0)
            && 0.0 <= level <= l.opts.capacity
  {
    hide Accrued;
    AccruedSign(l.opts.refillPerSecond, t - l.lastRefillMs);
  }

  /** The three answers: a cap that is set and reached, else a grant exactly when a whole token is there. */
  lemma AcquireExactlyWhen(l: Limiter, t: int)
    requires Inv(l)
    ensures var outcome := Acquire(l, t).1;
            var capped := l.opts.maxConcurrent.Some? && 0 < l.opts.maxConcurrent.value <= l.inFlight;
            && (outcome == ConcurrencyCapReached <==> capped)
            && (outcome == Granted <==> !capped && 1.0 <= LevelAt(l, t))
            && Acquire(l, t).0.inFlight == l.inFlight + if outcome == Granted then 1 else 0
  {
    hide Accrued;
    if Acquire(l, t).1 != ConcurrencyCapReached {
      AcquireLevel(l, t);
    }
  }

  ghost predicate WithinPotential(l: Limiter, next: Limiter, granted: bool, t: int, first: int, last: int, d: nat) {
    Potential(next.opts, next.tokens, next.lastRefillMs, first, last, d) + (if granted && first <= t <= last then 1.0 else 0.0)
    <= Potential(l.opts, l.tokens, l.lastRefillMs, first, last, d)
  }

  lemma AcquireSpends(l: Limiter, t: int, first: int, last: int, d: nat)
    requires Inv(l) && first <= last && t <= last + d
    ensures WithinPotential(l, Acquire(l, t).0, Acquire(l, t).1 == Granted, t, first, last, d)
  {
    hide Accrued, Potential, Acquire;
    var o, tokens, at := l.opts, l.tokens, l.lastRefillMs;
    if Acquire(l, t).1 == ConcurrencyCapReached {
      CapChangesNothing(l, t);
    } else {
      AcquireLevel(l, t);
      if t <= at {
        if 1.0 <= tokens {
          PotentialSpent(o, tokens, at, first, last, d);
        }
      } else if t <= last {
        var level := MinReal(o.capacity, tokens + Accrued(o.refillPerSecond, t - at));
        PotentialInside(o, tokens, at, t, first, last, d);
        if 1.0 <= level {
          PotentialSpent(o, level, t, first, last, d);
        }
      } else if at <= last {
        PotentialLeaves(o, tokens, at, t, first, last, d);
      } else {
        PotentialOutside(o, tokens, at, t, first, last, d);
      }
    }
  }

  lemma CapChangesNothing(l: Limiter, t: int)
    requires Acquire(l, t).1 == ConcurrencyCapReached
    ensures Acquire(l, t).0 == l
  {
    hide Refill;
  }

  lemma ReleaseSpends(l: Limiter, first: int, last: int, d: nat)
    ensures WithinPotential(l, Release(l), false, 0, first, last, d)
  {
    hide Potential;
  }

  /** Once the clock has been further past the window than it ever is when it comes back, nothing more is granted in it. */
  lemma {:induction false} NoneInside(l: Limiter, events: seq<Event>, first: int, last: int, seen: int, d: nat)
    requires last + d < seen && Past(events, first, last, seen) <= d
    ensures GrantedIn(l, events, first, last) == 0
    decreases |events|
  {
    hide Apply, Acquire;
    if |events| > 0 {
      NoneInside(Apply(l, events[0]), events[1..], first, last, if events[0].Acquiring? then Later(seen, events[0].now) else seen, d);
    }
  }

  lemma {:induction false} GrantsWithinPotential(l: Limiter, events: seq<Event>, first: int, last: int, seen: int, d: nat)
    requires Inv(l) && NoReconfiguration(events) && first <= last <= seen
    requires Past(events, first, last, seen) <= d
    ensures GrantedIn(l, events, first, last) as real <= Potential(l.opts, l.tokens, l.lastRefillMs, first, last, d)
    decreases |events|
  {
    hide Acquire, Potential, Release;
    PotentialSign(l.opts, l.tokens, l.lastRefillMs, first, last, d);
    if |events| > 0 {
      var e := events[0];
      var next := Apply(l, e);
      ApplyKeeps(l, e);
      if e.Releasing? {
        ReleaseSpends(l, first, last, d);
        GrantsWithinPotential(next, events[1..], first, last, seen, d);
      } else if e.now <= last + d {
        AcquireSpends(l, e.now, first, last, d);
        GrantsWithinPotential(next, events[1..], first, last, Later(seen, e.now), d);
      } else {
        NoneInside(next, events[1..], first, last, Later(seen, e.now), d);
      }
    }
  }

  lemma PotentialAtStart(o: Options, tokens: real, at: int, first: int, last: int, d: nat)
    requires Usable(o) && 0.0 <= tokens <= o.capacity && first <= last
    ensures Potential(o, tokens, at, first, last, d) <= o.capacity + Accrued(o.refillPerSecond, last - first) + Excess(o, d)
  {
    hide Accrued;
    AccruedSign(o.refillPerSecond, last - first);
    if first <= at <= last {
      AccruedMonotone(o.refillPerSecond, last - at, last - first);
    } else if last < at {
      AccruedMonotone(o.refillPerSecond, Behind(last + d, at), d);
    }
  }

  /**
   * The window bound, under any clock: between reconfigurations, from any state a run can reach, a whole
   * run is granted at readings in [t1, t2] at most capacity + rate * (t2 - t1), and beyond that only what
   * a clock that came back from past the window brings with it.
   */
  lemma WindowBound(l: Limiter, events: seq<Event>, first: int, last: int)
    requires Inv(l) && NoReconfiguration(events) && first <= last
    ensures GrantedIn(l, events, first, last) as real
            <= l.opts.capacity + Accrued(l.opts.refillPerSecond, last - first) + Excess(l.opts, Past(events, first, last, last))
    ensures Past(events, first, last, last) <= Back(events)
    ensures Excess(l.opts, Past(events, first, last, last)) <= Excess(l.opts, Back(events)) <= Accrued(l.opts.refillPerSecond, Back(events))
  {
    hide Accrued, Potential;
    var d := Past(events, first, last, last);
    GrantsWithinPotential(l, events, first, last, last, d);
    PotentialAtStart(l.opts, l.tokens, l.lastRefillMs, first, last, d);
    PastAtMostBack(events, first, last);
    AccruedMonotone(l.opts.refillPerSecond, d, Back(events));
    AccruedSign(l.opts.refillPerSecond, Back(events));
  }

  /** The clock readings of the acquires lie in a window; they need not be in order. */
  predicate ReadIn(events: seq<Event>, first: int, last: int) {
    forall i :: 0 <= i < |events| && events[i].Acquiring? ==> first <= events[i].now <= last
  }

  lemma {:induction false} NeverPast(events: seq<Event>, first: int, last: int)
    requires forall i :: 0 <= i < |events| && events[i].Acquiring? ==> events[i].now <= last
    ensures Past(events, first, last, last) == 0
    decreases |events|
  {
    if |events| > 0 {
      NeverPast(events[1..], first, last);
    }
  }

  /** A clock that reads only inside the window keeps the plain bound, whatever the order of its readings. */
  lemma BoundOfWindow(l: Limiter, events: seq<Event>, first: int, last: int)
    requires Inv(l) && NoReconfiguration(events) && ReadIn(events, first, last) && first <= last
    ensures GrantedIn(l, events, first, last) == Grants(l, events)
    ensures Grants(l, events) as real <= l.opts.capacity + Accrued(l.opts.refillPerSecond, last - first)
  {
    hide Accrued;
    WindowBound(l, events, first, last);
    NeverPast(events, first, last);
    AccruedSign(l.opts.refillPerSecond, 0);
    AllInside(l, events, first, last);
  }

  lemma {:induction false} AllInside(l: Limiter, events: seq<Event>, first: int, last: int)
    requires ReadIn(events, first, last)
    ensures GrantedIn(l, events, first, last) == Grants(l, events)
    decreases |events|
  {
    hide Apply, Acquire;
    if |events| > 0 {
      AllInside(Apply(l, events[0]), events[1..], first, last);
    }
  }

  /** A clock that never goes back keeps the plain bound for every window of a run. */
  lemma BoundForwards(l: Limiter, events: seq<Event>, first: int, last: int)
    requires Inv(l) && NoReconfiguration(events) && first <= last && Back(events) == 0
    ensures GrantedIn(l, events, first, last) as real <= l.opts.capacity + Accrued(l.opts.refillPerSecond, last - first)
  {
    hide Accrued;
    WindowBound(l, events, first, last);
    AccruedSign(l.opts.refillPerSecond, 0);
  }

  // ---------------------------------------------------------------- when the plain bound holds

  function Full(o: Options): Limiter { Limiter(o, o.capacity, 0, 0) }

  /** The plain window bound, for every run from a new limiter whose readings go back by at most `d` in all. */
  ghost predicate WindowsBounded(o: Options, d: nat) {
    forall events, first, last :: NoReconfiguration(events) && first <= last && Back(events) <= d ==>
      GrantedIn(Full(o), events, first, last) as real <= o.capacity + Accrued(o.refillPerSecond, last - first)
  }

  /** A call that is released before the next event. */
  function Call(t: int): seq<Event> { [Acquiring(t), Releasing] }

  function Calls(m: nat, t: int): seq<Event> {
    if m == 0 then [] else Calls(m - 1, t) + Call(t)
  }

  /** Calls at d, 2 * d, ..., k * d. */
  function Ladder(k: nat, d: nat): seq<Event> {
    if k == 0 then [] else Ladder(k - 1, d) + Call(k * d)
  }

  lemma {:induction false} GrantedInSplit(l: Limiter, x: seq<Event>, y: seq<Event>, first: int, last: int)
    ensures GrantedIn(l, x + y, first, last) == GrantedIn(l, x, first, last) + GrantedIn(Run(l, x), y, first, last)
    ensures Run(l, x + y) == Run(Run(l, x), y)
    decreases |x|
  {
    hide Apply, GrantsAt;
    if |x| == 0 {
      assert x + y == y;
    } else {
      assert (x + y)[0] == x[0] && (x + y)[1..] == x[1..] + y;
      GrantedInSplit(Apply(l, x[0]), x[1..], y, first, last);
    }
  }

  /** The latest reading of a run that starts after a reading `from`. */
  function LastReading(from: int, events: seq<Event>): int
    decreases |events|
  {
    if |events| == 0 then from
    else LastReading(if events[0].Acquiring? then events[0].now else from, events[1..])
  }

  lemma {:induction false} BackSplit(from: int, x: seq<Event>, y: seq<Event>)
    ensures BackFrom(from, x + y) == BackFrom(from, x) + BackFrom(LastReading(from, x), y)
    ensures LastReading(from, x + y) == LastReading(LastReading(from, x), y)
    decreases |x|
  {
    if |x| == 0 {
      assert x + y == y;
    } else {
      assert (x + y)[0] == x[0] && (x + y)[1..] == x[1..] + y;
      BackSplit(if x[0].Acquiring? then x[0].now else from, x[1..], y);
    }
  }

  lemma OneCallBack(from: int, t: int)
    ensures BackFrom(from, Call(t)) == Behind(from, t) && LastReading(from, Call(t)) == t
  {
    assert Call(t)[1..] == [Releasing] && [Releasing][1..] == [];
    assert LastReading(t, [Releasing]) == LastReading(t, []);
    assert BackFrom(t, [Releasing]) == BackFrom(t, []);
  }

  /** A granted and released call leaves a token less in the bucket, refilled up to its reading. */
  lemma OneCall(l: Limiter, t: int, first: int, last: int)
    requires Inv(l) && l.inFlight == 0
    requires 1.0 <= LevelAt(l, t)
    ensures Run(l, Call(t)) == Limiter(l.opts, LevelAt(l, t) - 1.0, Later(l.lastRefillMs, t), 0)
    ensures GrantedIn(l, Call(t), first, last) == if first <= t <= last then 1 else 0
  {
    hide Accrued, Refill;
    CallPasses(l, t);
    AcquireLevel(l, t);
    var held := Apply(l, Acquiring(t));
    assert Call(t)[1..] == [Releasing] && [Releasing][1..] == [];
    assert Run(held, [Releasing]) == Run(Release(held), []);
    assert GrantedIn(held, [Releasing], first, last) == GrantedIn(Release(held), [], first, last);
  }

  lemma CallPasses(l: Limiter, t: int)
    requires l.inFlight == 0
    ensures Acquire(l, t).1 != ConcurrencyCapReached && Acquire(l, t).0.inFlight == if Acquire(l, t).1 == Granted then 1 else 0
  {
    hide Accrued;
  }

  lemma {:induction false} CallsGranted(o: Options, tokens: real, at: int, m: nat, first: int, last: int)
    requires Usable(o) && m as real <= tokens <= o.capacity && first <= at <= last
    ensures var l := Limiter(o, tokens, at, 0);
            && Run(l, Calls(m, at)) == Limiter(o, tokens - m as real, at, 0)
            && GrantedIn(l, Calls(m, at), first, last) == m
    ensures BackFrom(at, Calls(m, at)) == 0 && LastReading(at, Calls(m, at)) == at
    decreases m
  {
    hide Run, GrantedIn, Accrued, Call, BackFrom, LastReading;
    var l := Limiter(o, tokens, at, 0);
    if m == 0 {
      Nothing(l, first, last, at);
    } else {
      CallsGranted(o, tokens, at, m - 1, first, last);
      GrantedInSplit(l, Calls(m - 1, at), Call(at), first, last);
      OneCall(Limiter(o, tokens - (m - 1) as real, at, 0), at, first, last);
      BackSplit(at, Calls(m - 1, at), Call(at));
      OneCallBack(at, at);
    }
  }

  lemma Nothing(l: Limiter, first: int, last: int, from: int)
    ensures Run(l, []) == l && GrantedIn(l, [], first, last) == 0 && BackFrom(from, []) == 0 && LastReading(from, []) == from
  {
  }

  /** Each step of the ladder accrues one token and `gain` more, and spends one. */
  lemma {:induction false} LadderGranted(o: Options, tokens: real, k: nat, d: nat, gain: real, last: int)
    requires Usable(o) && 2.0 <= o.capacity && 0 < d && k * d <= last
    requires Accrued(o.refillPerSecond, d) == 1.0 + gain && 0.0 <= gain && 0.0 <= tokens && tokens + k as real * gain < 1.0
    ensures var l := Limiter(o, tokens, 0, 0);
            && Run(l, Ladder(k, d)) == Limiter(o, tokens + k as real * gain, k * d, 0)
            && GrantedIn(l, Ladder(k, d), 0, last) == k
    ensures BackFrom(0, Ladder(k, d)) == 0 && LastReading(0, Ladder(k, d)) == k * d
    decreases k
  {
    hide Run, GrantedIn, Accrued, Call, BackFrom, LastReading;
    var l := Limiter(o, tokens, 0, 0);
    if k == 0 {
      Nothing(l, 0, last, 0);
    } else {
      assert (k - 1) * d + d == k * d;
      assert (k - 1) as real * gain + gain == k as real * gain;
      LadderGranted(o, tokens, k - 1, d, gain, last);
      var before := Limiter(o, tokens + (k - 1) as real * gain, (k - 1) * d, 0);
      GrantedInSplit(l, Ladder(k - 1, d), Call(k * d), 0, last);
      OneCall(before, k * d, 0, last);
      BackSplit(0, Ladder(k - 1, d), Call(k * d));
      OneCallBack((k - 1) * d, k * d);
    }
  }

  /** A burst at reading 0, the ladder, a call past its end, and a call back at its end. */
  function Comeback(m: nat, k: nat, d: nat): seq<Event> {
    (Calls(m, 0) + Ladder(k, d)) + (Call((k + 1) * d) + Call(k * d))
  }

  lemma ComebackEnds(o: Options, tokens: real, k: nat, d: nat)
    requires Usable(o) && 2.0 <= o.capacity && 0 < d && 0.0 <= tokens < 1.0
    requires tokens + Accrued(o.refillPerSecond, d) >= 2.0
    ensures GrantedIn(Limiter(o, tokens, k * d, 0), Call((k + 1) * d) + Call(k * d), 0, k * d) == 1
    ensures BackFrom(k * d, Call((k + 1) * d) + Call(k * d)) == d
  {
    hide Run, GrantedIn, Accrued, Call, BackFrom, LastReading;
    assert k * d >= 0 && (k + 1) * d == k * d + d;
    var l := Limiter(o, tokens, k * d, 0);
    GrantedInSplit(l, Call((k + 1) * d), Call(k * d), 0, k * d);
    OneCall(l, (k + 1) * d, 0, k * d);
    OneCall(Run(l, Call((k + 1) * d)), k * d, 0, k * d);
    BackSplit(k * d, Call((k + 1) * d), Call(k * d));
    OneCallBack(k * d, (k + 1) * d);
    OneCallBack((k + 1) * d, k * d);
  }

  /** The failing run, for every bucket of two or more tokens and every step back that accrues more than one. */
  lemma ComebackGrants(o: Options, m: nat, k: nat, d: nat)
    requires Usable(o) && 2.0 <= o.capacity && m as real <= o.capacity < m as real + 1.0 && 0 < d
    requires var gain, left := Accrued(o.refillPerSecond, d) - 1.0, o.capacity - m as real;
             0.0 <= gain && left + k as real * gain < 1.0 <= left + k as real * gain + gain
    ensures NoReconfiguration(Comeback(m, k, d)) && Back(Comeback(m, k, d)) == d
    ensures GrantedIn(Full(o), Comeback(m, k, d), 0, k * d) == m + k + 1
  {
    hide Run, GrantedIn, Accrued, Call, Calls, Ladder, BackFrom, LastReading, Back;
    var gain, left := Accrued(o.refillPerSecond, d) - 1.0, o.capacity - m as real;
    assert k * d >= 0;
    CallsGranted(o, o.capacity, 0, m, 0, k * d);
    LadderGranted(o, left, k, d, gain, k * d);
    GrantedInSplit(Full(o), Calls(m, 0), Ladder(k, d), 0, k * d);
    GrantedInSplit(Full(o), Calls(m, 0) + Ladder(k, d), Call((k + 1) * d) + Call(k * d), 0, k * d);
    assert Run(Full(o), Calls(m, 0)) == Limiter(o, left, 0, 0);
    ComebackEnds(o, left + k as real * gain, k, d);
    BackSplit(0, Calls(m, 0), Ladder(k, d));
    BackSplit(0, Calls(m, 0) + Ladder(k, d), Call((k + 1) * d) + Call(k * d));
    ComebackShape(m, k, d);
  }

  lemma ComebackShape(m: nat, k: nat, d: nat)
    requires m > 0
    ensures NoReconfiguration(Comeback(m, k, d))
    ensures Back(Comeback(m, k, d)) == BackFrom(0, Comeback(m, k, d))
  {
    PlainCalls(m, 0);
    PlainLadder(k, d);
  }

  lemma {:induction false} PlainCalls(m: nat, t: int)
    ensures NoReconfiguration(Calls(m, t)) && (m > 0 ==> |Calls(m, t)| > 0 && Calls(m, t)[0] == Acquiring(t))
  {
    if m > 0 {
      PlainCalls(m - 1, t);
    }
  }

  lemma {:induction false} PlainLadder(k: nat, d: nat)
    ensures NoReconfiguration(Ladder(k, d))
  {
    if k > 0 {
      PlainLadder(k - 1, d);
    }
  }

  /** The number of steps after which a positive gain has reached one. */
  lemma {:induction false} Steps(left: real, gain: real, bound: nat) returns (k: nat)
    requires 0.0 <= left < 1.0 && 0.0 < gain && 1.0 <= left + bound as real * gain + gain
    ensures left + k as real * gain < 1.0 <= left + k as real * gain + gain
    decreases bound
  {
    if bound == 0 || left + bound as real * gain < 1.0 {
      k := bound;
    } else {
      assert (bound - 1) as real * gain + gain == bound as real * gain;
      k := Steps(left, gain, bound - 1);
    }
  }

  lemma EnoughSteps(gain: real) returns (bound: nat)
    requires 0.0 < gain
    ensures 1.0 <= bound as real * gain
  {
    var x := 1.0 / gain;
    assert x * gain == 1.0;
    bound := x.Floor + 1;
    assert bound as real * gain >= x * gain;
  }

  lemma ComebackBreaks(o: Options, d: nat)
    requires Usable(o) && 2.0 <= o.capacity && 1.0 < Accrued(o.refillPerSecond, d)
    ensures !WindowsBounded(o, d)
  {
    hide Accrued, Comeback, GrantedIn, Back;
    AccruedSign(o.refillPerSecond, d);
    var m: nat := o.capacity.Floor;
    var gain, left := Accrued(o.refillPerSecond, d) - 1.0, o.capacity - m as real;
    var bound := EnoughSteps(gain);
    var k := Steps(left, gain, bound);
    ComebackGrants(o, m, k, d);
    AccruedTimes(o.refillPerSecond, k, d);
    assert k as real * (1.0 + gain) == k as real + k as real * gain;
    assert k * d >= 0;
  }

  lemma {:induction false} AccruedTimes(rate: real, k: nat, d: nat)
    ensures Accrued(rate, k * d) == k as real * Accrued(rate, d)
  {
    if k == 0 {
      assert k * d == 0;
    } else {
      AccruedTimes(rate, k - 1, d);
      assert k * d == (k - 1) * d + d;
      AccruedSplit(rate, (k - 1) * d, d);
    }
  }

  /**
   * The plain window bound holds in every run whose readings go back by at most `d` exactly when the
   * bucket holds less than two tokens or no more than one token accrues over `d`.
   */
  lemma WindowsBoundedExactlyWhen(o: Options, d: nat)
    requires Usable(o)
    ensures WindowsBounded(o, d) <==> o.capacity < 2.0 || Accrued(o.refillPerSecond, d) <= 1.0
  {
    hide Accrued, GrantedIn, Back, Past;
    if 2.0 <= o.capacity && 1.0 < Accrued(o.refillPerSecond, d) {
      ComebackBreaks(o, d);
    } else {
      forall events, first, last | NoReconfiguration(events) && first <= last && Back(events) <= d
        ensures GrantedIn(Full(o), events, first, last) as real <= o.capacity + Accrued(o.refillPerSecond, last - first)
      {
        WindowBound(Full(o), events, first, last);
        AccruedMonotone(o.refillPerSecond, Back(events), d);
      }
    }
  }

  // ---------------------------------------------------------------- concurrency

  lemma {:induction false} ConcurrencyCapped(l: Limiter, events: seq<Event>)
    requires Inv(l) && NoReconfiguration(events)
    requires l.opts.maxConcurrent.GetOr(0) > 0 && l.inFlight <= l.opts.maxConcurrent.value
    ensures Run(l, events).inFlight <= l.opts.maxConcurrent.value
    decreases |events|
  {
    hide Accrued;
    if |events| > 0 {
      ApplyKeeps(l, events[0]);
      ConcurrencyCapped(Apply(l, events[0]), events[1..]);
    }
  }

  /** No release comes before the grant it belongs to. */
  predicate Paired(l: Limiter, events: seq<Event>)
    decreases |events|
  {
    |events| == 0 || ((events[0].Releasing? ==> l.inFlight > 0) && Paired(Apply(l, events[0]), events[1..]))
  }

  /** What is in flight is what was granted and not released, across reconfigurations too. */
  lemma {:induction false} InFlightIsOutstanding(l: Limiter, events: seq<Event>)
    requires Inv(l) && Paired(l, events)
    ensures Run(l, events).inFlight == l.inFlight + Grants(l, events) - Releases(events)
    decreases |events|
  {
    hide Accrued, MinReal;
    if |events| > 0 {
      ApplyKeeps(l, events[0]);
      InFlightIsOutstanding(Apply(l, events[0]), events[1..]);
    }
  }

  // ---------------------------------------------------------------- the service

  class RateLimiterService {
    var opts: Options
    var tokens: real
    var lastRefillMs: int
    var inFlight: int

    function State(): Limiter
      reads this
    {
      Limiter(opts, tokens, lastRefillMs, inFlight)
    }

    constructor (opts: Options, now: int)
      requires Usable(opts)
      ensures State() == Limiter(opts, opts.capacity, now, 0) && Inv(State())
    {
      this.opts := opts;
      tokens := opts.capacity;
      lastRefillMs := now;
      inFlight := 0;
    }

    /** Building a limiter from unusable options raises an error. */
    static method Create(opts: Options, now: int) returns (limiter: Option<RateLimiterService>)
      ensures limiter.Some? <==> Usable(opts)
      ensures limiter.Some? ==> fresh(limiter.value) && limiter.value.State() == Limiter(opts, opts.capacity, now, 0)
    {
      if opts.capacity <= 0.0 || opts.refillPerSecond <= 0.0 {
        return None;
      }
      var built := new RateLimiterService(opts, now);
      limiter := Some(built);
    }

    method RefillAt(now: int)
      modifies this
      ensures State() == Refill(old(State()), now)
    {
      hide Accrued;
      var add := Accrued(opts.refillPerSecond, now - lastRefillMs);
      if add > 0.0 {
        tokens := MinReal(opts.capacity, tokens + add);
        lastRefillMs := now;
      }
    }

    method TryTake(now: int) returns (taken: bool)
      modifies this
      ensures taken <==> Refill(old(State()), now).tokens >= 1.0
      ensures State() == if taken then Refill(old(State()), now).(tokens := Refill(old(State()), now).tokens - 1.0)
                         else Refill(old(State()), now)
    {
      RefillAt(now);
      taken := tokens >= 1.0;
      if taken {
        tokens := tokens - 1.0;
      }
    }

    method TryAcquire(now: int) returns (outcome: Outcome)
      modifies this
      ensures (State(), outcome) == Acquire(old(State()), now)
    {
      hide Refill;
      var maxConcurrent := opts.maxConcurrent.GetOr(0);
      if maxConcurrent > 0 && inFlight >= maxConcurrent {
        return ConcurrencyCapReached;
      }
      var taken := TryTake(now);
      if !taken {
        RefillSame(old(State()), now);
        return BucketEmpty;
      }
      RefillSame(old(State()), now);
      inFlight := inFlight + 1;
      outcome := Granted;
    }

    method Free()
      modifies this
      ensures State() == Release(old(State()))
    {
      if inFlight > 0 {
        inFlight := inFlight - 1;
      }
    }

    method ReconfigureTo(next: Options, now: int) returns (ok: bool)
      modifies this
      ensures ok <==> Usable(next)
      ensures State() == Reconfigure(old(State()), next, now).GetOr(old(State()))
    {
      hide Refill;
      if !(next.capacity > 0.0 && next.refillPerSecond > 0.0) {
        return false;
      }
      RefillAt(now);
      opts := next;
      tokens := MinReal(tokens, next.capacity);
      ok := true;
    }
  }

  lemma RefillSame(l: Limiter, now: int)
    ensures Refill(l, now).opts == l.opts && Refill(l, now).inFlight == l.inFlight
  {
    hide Accrued;
  }
}
