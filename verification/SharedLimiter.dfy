/**
 * The limiter that processes share through Redis. Its two scripts are atomic steps over two keys that
 * expire: the bucket, and the leases in flight. The reference is a bucket that never forgets; the
 * module proves when the two give the same answers, and what a window of readings can be granted under
 * a clock that goes forwards and back.
 */
module SharedLimiter {
  import opened Wrappers
  import opened TokenRefill

  datatype Limits = Limits(capacity: real, refillPerSecond: real, maxConcurrent: int, ttlMs: int)

  datatype TokenHash = TokenHash(tokens: real, updatedAt: int, expireAt: int)

  datatype InflightHash = InflightHash(fields: map<string, int>, expireAt: int)

  datatype Keys = Keys(tokens: Option<TokenHash>, inflight: Option<InflightHash>)

  datatype Reason = ByConcurrency | ByTokens | ByGrant

  datatype Reply = Reply(reason: Reason, inflightTotal: int)

  const NO_KEYS := Keys(None, None)

  /** The bucket, unless its key has expired. */
  function LiveTokens(k: Keys, now: int): Option<TokenHash> {
    if k.tokens.Some? && now < k.tokens.value.expireAt then k.tokens else None
  }

  function LiveFields(k: Keys, now: int): map<string, int> {
    if k.inflight.Some? && now < k.inflight.value.expireAt then k.inflight.value.fields else map[]
  }

  function Unexpired(fields: map<string, int>, now: int): map<string, int> {
    map f | f in fields && fields[f] > now :: fields[f]
  }

  /** What a bucket holds at an instant. A clock behind the last update adds nothing. */
  function Level(l: Limits, tokens: real, updatedAt: int, now: int): real {
    MinReal(l.capacity, tokens + Accrued(l.refillPerSecond, if now > updatedAt then now - updatedAt else 0))
  }

  function LevelOf(k: Keys, l: Limits, now: int): real {
    match LiveTokens(k, now)
    case Some(h) => Level(l, h.tokens, h.updatedAt, now)
    case None => Level(l, l.capacity, now, now)
  }

  /** The in-flight key once the script has deleted the fields that ran out; without fields there is no key. */
  function Swept(k: Keys, now: int): Option<InflightHash> {
    var kept := Unexpired(LiveFields(k, now), now);
    if kept == map[] then None else Some(InflightHash(kept, k.inflight.value.expireAt))
  }

  function Acquire(k: Keys, l: Limits, now: int, owner: string): (Keys, Reply) {
    var kept := Unexpired(LiveFields(k, now), now);
    if l.maxConcurrent > 0 && |kept| >= l.maxConcurrent then
      (k.(inflight := Swept(k, now)), Reply(ByConcurrency, |kept|))
    else
      var level := LevelOf(k, l, now);
      if level < 1.0 then
        (Keys(Some(TokenHash(level, now, now + l.ttlMs)), Swept(k, now)), Reply(ByTokens, |kept|))
      else
        (Keys(Some(TokenHash(level - 1.0, now, now + l.ttlMs)),
              Some(InflightHash(kept[owner := now + l.ttlMs], now + l.ttlMs))),
         Reply(ByGrant, |kept| + 1))
  }

  function Release(k: Keys, l: Limits, now: int, owner: string): Keys {
    var left := LiveFields(k, now) - {owner};
    k.(inflight := if left == map[] then None else Some(InflightHash(left, now + l.ttlMs)))
  }

  /** The leases in flight at an instant. */
  function LiveLeases(k: Keys, now: int): set<string> { Unexpired(LiveFields(k, now), now).Keys }

  /**
   * An acquire deletes the leases that ran out and adds its own exactly when it is granted; the count it
   * answers with is that of the leases then live, unless it was granted under an owner that had one.
   */
  lemma AcquireLeases(k: Keys, l: Limits, now: int, owner: string)
    requires l.ttlMs > 0
    requires k.inflight.Some? ==> forall f :: f in k.inflight.value.fields ==> k.inflight.value.fields[f] <= k.inflight.value.expireAt
    ensures var (next, reply) := Acquire(k, l, now, owner);
            var granted := reply.reason == ByGrant;
            && LiveLeases(next, now) == LiveLeases(k, now) + (if granted then {owner} else {})
            && (next.inflight.Some? ==> next.inflight.value.fields.Keys == LiveLeases(next, now) != {})
            && (reply.inflightTotal == |LiveLeases(next, now)| <==> !(granted && owner in LiveLeases(k, now)))
            && (reply.reason == ByConcurrency <==> 0 < l.maxConcurrent <= |LiveLeases(k, now)|)
  {
    hide LevelOf, Unexpired, LiveFields, Swept, LiveLeases;
    var kept := Unexpired(LiveFields(k, now), now);
    SizeOfKeys(kept);
    SweptLeases(k, now);
    LeasesOf(k, now);
    var level := LevelOf(k, l, now);
    GrantedLeases(Keys(Some(TokenHash(level - 1.0, now, now + l.ttlMs)), None), kept, now, l.ttlMs, owner);
    SweptKeepsLive(k, k.tokens, now);
    SweptKeepsLive(k, Some(TokenHash(level, now, now + l.ttlMs)), now);
  }

  lemma LeasesOf(k: Keys, now: int)
    ensures LiveLeases(k, now) == Unexpired(LiveFields(k, now), now).Keys
  {
  }

  lemma GrantedLeases(k: Keys, kept: map<string, int>, now: int, ttlMs: int, owner: string)
    requires ttlMs > 0 && forall f :: f in kept ==> kept[f] > now
    ensures LiveLeases(k.(inflight := Some(InflightHash(kept[owner := now + ttlMs], now + ttlMs))), now) == kept.Keys + {owner}
    ensures |kept.Keys + {owner}| == |kept.Keys| + if owner in kept then 0 else 1
    ensures kept[owner := now + ttlMs].Keys == kept.Keys + {owner}
  {
    var fields := kept[owner := now + ttlMs];
    assert Unexpired(fields, now) == fields;
    if owner in kept {
      assert kept.Keys + {owner} == kept.Keys;
    }
  }

  lemma SizeOfKeys(m: map<string, int>)
    ensures |m| == |m.Keys|
  {
  }

  lemma SweptLeases(k: Keys, now: int)
    ensures var kept := Unexpired(LiveFields(k, now), now);
            && (forall f :: f in kept ==> kept[f] > now)
            && (Swept(k, now).Some? ==> Swept(k, now).value.fields == kept && kept.Keys != {})
            && (Swept(k, now).None? ==> kept.Keys == {})
  {
    var kept := Unexpired(LiveFields(k, now), now);
    assert kept.Keys == {} ==> kept == map[];
  }

  lemma SweptKeepsLive(k: Keys, tokens: Option<TokenHash>, now: int)
    requires k.inflight.Some? ==> forall f :: f in k.inflight.value.fields ==> k.inflight.value.fields[f] <= k.inflight.value.expireAt
    ensures LiveLeases(Keys(tokens, Swept(k, now)), now) == LiveLeases(k, now)
  {
    var kept := Unexpired(LiveFields(k, now), now);
    if kept != map[] {
      var f :| f in kept;
      assert now < k.inflight.value.expireAt;
      assert Unexpired(kept, now) == kept;
    }
  }

  // ---------------------------------------------------------------- the reference

  /** A bucket that never expires, and the leases granted and not released. */
  datatype Bucket = Bucket(tokens: real, updatedAt: int, leases: map<string, int>)

  function BucketLevel(b: Bucket, l: Limits, now: int): real {
    Level(l, b.tokens, b.updatedAt, now)
  }

  function BucketAcquire(b: Bucket, l: Limits, now: int, owner: string): (Bucket, Reply) {
    var live := Unexpired(b.leases, now);
    if l.maxConcurrent > 0 && |live| >= l.maxConcurrent then (b, Reply(ByConcurrency, |live|))
    else
      var level := BucketLevel(b, l, now);
      if level < 1.0 then (Bucket(level, now, b.leases), Reply(ByTokens, |live|))
      else (Bucket(level - 1.0, now, b.leases[owner := now + l.ttlMs]), Reply(ByGrant, |live| + if owner in live then 0 else 1))
  }

  function BucketRelease(b: Bucket, owner: string): Bucket {
    b.(leases := b.leases - {owner})
  }

  // ---------------------------------------------------------------- runs

  datatype Event = Acquiring(now: int, owner: string) | Releasing(now: int, owner: string)

  function Apply(k: Keys, l: Limits, e: Event): Keys {
    match e
    case Acquiring(now, owner) => Acquire(k, l, now, owner).0
    case Releasing(now, owner) => Release(k, l, now, owner)
  }

  function BucketApply(b: Bucket, l: Limits, e: Event): Bucket {
    match e
    case Acquiring(now, owner) => BucketAcquire(b, l, now, owner).0
    case Releasing(now, owner) => BucketRelease(b, owner)
  }

  function Run(k: Keys, l: Limits, events: seq<Event>): Keys
    decreases |events|
  {
    if |events| == 0 then k else Run(Apply(k, l, events[0]), l, events[1..])
  }

  function BucketRun(b: Bucket, l: Limits, events: seq<Event>): Bucket
    decreases |events|
  {
    if |events| == 0 then b else BucketRun(BucketApply(b, l, events[0]), l, events[1..])
  }

  /** Whether each acquire of a run was granted, and why not. */
  function Replies(k: Keys, l: Limits, events: seq<Event>): seq<Reason>
    decreases |events|
  {
    if |events| == 0 then []
    else
      (if events[0].Acquiring? then [Acquire(k, l, events[0].now, events[0].owner).1.reason] else [])
      + Replies(Apply(k, l, events[0]), l, events[1..])
  }

  function BucketReplies(b: Bucket, l: Limits, events: seq<Event>): seq<Reason>
    decreases |events|
  {
    if |events| == 0 then []
    else
      (if events[0].Acquiring? then [BucketAcquire(b, l, events[0].now, events[0].owner).1.reason] else [])
      + BucketReplies(BucketApply(b, l, events[0]), l, events[1..])
  }

  function Granted(replies: seq<Reason>): nat {
    if |replies| == 0 then 0 else (if replies[0] == ByGrant then 1 else 0) + Granted(replies[1..])
  }

  /** The clock readings never go back, starting from an instant. */
  predicate Ascending(events: seq<Event>, from: int) {
    && (|events| > 0 ==> from <= events[0].now)
    && forall i, j :: 0 <= i < j < |events| ==> events[i].now <= events[j].now
  }

  predicate Sane(l: Limits) {
    l.capacity >= 0.0 && l.refillPerSecond >= 0.0 && l.ttlMs > 0
  }

  /** A bucket idle for a whole time to live is full again. */
  predicate RefillsWithinTtl(l: Limits) {
    Accrued(l.refillPerSecond, l.ttlMs) >= l.capacity
  }

  // ---------------------------------------------------------------- refinement

  ghost predicate SameBucket(k: Keys, b: Bucket, l: Limits, now: int) {
    && b.updatedAt <= now && 0.0 <= b.tokens <= l.capacity
    && match LiveTokens(k, now)
       case Some(h) => h.tokens == b.tokens && h.updatedAt == b.updatedAt && h.expireAt == h.updatedAt + l.ttlMs
       case None => BucketLevel(b, l, now) == l.capacity
  }

  ghost predicate SameLeases(k: Keys, b: Bucket, now: int) {
    && Unexpired(LiveFields(k, now), now) == Unexpired(b.leases, now)
    && (k.inflight.Some? ==> forall f :: f in k.inflight.value.fields ==> k.inflight.value.fields[f] <= k.inflight.value.expireAt)
  }

  lemma LevelLater(l: Limits, tokens: real, updatedAt: int, now: int, later: int)
    requires Sane(l) && updatedAt <= now <= later && 0.0 <= tokens
    ensures Level(l, tokens, updatedAt, now) <= Level(l, tokens, updatedAt, later)
    ensures RefillsWithinTtl(l) && updatedAt + l.ttlMs <= later ==> Level(l, tokens, updatedAt, later) == l.capacity
    ensures Level(l, tokens, updatedAt, updatedAt) == MinReal(l.capacity, tokens)
  {
    hide Accrued;
    AccruedMonotone(l.refillPerSecond, now - updatedAt, later - updatedAt);
    AccruedSign(l.refillPerSecond, 0);
    if updatedAt + l.ttlMs <= later {
      AccruedMonotone(l.refillPerSecond, l.ttlMs, later - updatedAt);
    }
  }

  /** Time passing, and with it a key expiring, keeps the bucket the same. */
  lemma BucketLater(k: Keys, b: Bucket, l: Limits, now: int, later: int)
    requires Sane(l) && RefillsWithinTtl(l) && SameBucket(k, b, l, now) && now <= later
    ensures SameBucket(k, b, l, later)
  {
    hide Accrued, Level, RefillsWithinTtl;
    LevelLater(l, b.tokens, b.updatedAt, now, later);
    LevelCapped(l, b.tokens, b.updatedAt, later);
  }

  lemma LevelCapped(l: Limits, tokens: real, updatedAt: int, now: int)
    requires Sane(l) && 0.0 <= tokens
    ensures 0.0 <= Level(l, tokens, updatedAt, now) <= l.capacity
  {
    hide Accrued;
    AccruedSign(l.refillPerSecond, if now > updatedAt then now - updatedAt else 0);
  }

  /** The expiry of the in-flight key is never seen: every lease in it has run out by then. */
  lemma LeasesLater(k: Keys, b: Bucket, now: int, later: int)
    requires SameLeases(k, b, now) && now <= later
    ensures SameLeases(k, b, later)
  {
    UnexpiredLater(b.leases, now, later);
    UnexpiredLater(LiveFields(k, now), now, later);
    if k.inflight.Some? && now < k.inflight.value.expireAt <= later {
      assert Unexpired(k.inflight.value.fields, later) == map[];
    }
  }

  lemma UnexpiredLater(fields: map<string, int>, now: int, later: int)
    requires now <= later
    ensures Unexpired(Unexpired(fields, now), later) == Unexpired(fields, later)
  {
  }

  /** The script reads the level the reference has. */
  lemma SameLevel(k: Keys, b: Bucket, l: Limits, now: int)
    requires Sane(l) && SameBucket(k, b, l, now)
    ensures LevelOf(k, l, now) == BucketLevel(b, l, now) && 0.0 <= LevelOf(k, l, now) <= l.capacity
  {
    hide Accrued, Level;
    LevelLater(l, l.capacity, now, now, now);
    LevelCapped(l, b.tokens, b.updatedAt, now);
  }

  lemma AcquireSame(k: Keys, b: Bucket, l: Limits, now: int, owner: string)
    requires Sane(l) && SameBucket(k, b, l, now) && SameLeases(k, b, now)
    ensures Acquire(k, l, now, owner).1.reason == BucketAcquire(b, l, now, owner).1.reason
    ensures SameBucket(Acquire(k, l, now, owner).0, BucketAcquire(b, l, now, owner).0, l, now)
  {
    hide Level, Unexpired, LevelOf;
    SameLevel(k, b, l, now);
  }

  lemma AcquireSameLeases(k: Keys, b: Bucket, l: Limits, now: int, owner: string)
    requires Sane(l) && SameBucket(k, b, l, now) && SameLeases(k, b, now) && LeasesFresh(k, l, now)
    ensures SameLeases(Acquire(k, l, now, owner).0, BucketAcquire(b, l, now, owner).0, now)
  {
    hide Level, LevelOf, LiveTokens, BucketLevel, SameBucket, Unexpired, Swept;
    SameLevel(k, b, l, now);
    var kept := Unexpired(LiveFields(k, now), now);
    SweptSame(k, b, now);
    UnexpiredLater(LiveFields(k, now), now, now);
    GrantedLease(b.leases, now, owner, now + l.ttlMs);
    GrantedLease(kept, now, owner, now + l.ttlMs);
    KeptExpiry(k, now, owner, now + l.ttlMs);
  }

  /** Deleting the fields that ran out leaves the live ones as they are. */
  lemma SweptSame(k: Keys, b: Bucket, now: int)
    requires SameLeases(k, b, now)
    ensures SameLeases(k.(inflight := Swept(k, now)), b, now)
    ensures Unexpired(map[], now) == map[]
  {
  }

  lemma KeptExpiry(k: Keys, now: int, owner: string, until: int)
    requires k.inflight.Some? ==> forall f :: f in k.inflight.value.fields ==> k.inflight.value.fields[f] <= until
    ensures var fields := Unexpired(LiveFields(k, now), now)[owner := until];
            forall f :: f in fields ==> fields[f] <= until
  {
  }

  lemma GrantedLease(fields: map<string, int>, now: int, owner: string, until: int)
    requires now < until
    ensures Unexpired(fields[owner := until], now) == Unexpired(fields, now)[owner := until]
  {
  }

  lemma ReleaseSame(k: Keys, b: Bucket, l: Limits, now: int, owner: string)
    requires Sane(l) && SameBucket(k, b, l, now) && SameLeases(k, b, now)
    requires LeasesFresh(k, l, now)
    ensures SameBucket(Release(k, l, now, owner), BucketRelease(b, owner), l, now)
    ensures SameLeases(Release(k, l, now, owner), BucketRelease(b, owner), now)
  {
    hide Level;
    ReleasedLease(b.leases, now, owner);
    ReleasedLease(LiveFields(k, now), now, owner);
    assert Unexpired(map[], now) == map[];
  }

  lemma ReleasedLease(fields: map<string, int>, now: int, owner: string)
    ensures Unexpired(fields - {owner}, now) == Unexpired(fields, now) - {owner}
  {
  }

  /** Every lease was granted by now, so it runs out within a time to live from now. */
  ghost predicate LeasesFresh(k: Keys, l: Limits, now: int) {
    k.inflight.Some? ==> forall f :: f in k.inflight.value.fields ==> k.inflight.value.fields[f] <= now + l.ttlMs
  }

  lemma ApplyFresh(k: Keys, l: Limits, e: Event)
    requires LeasesFresh(k, l, e.now)
    ensures LeasesFresh(Apply(k, l, e), l, e.now)
  {
    hide LevelOf;
  }

  ghost predicate Same(k: Keys, b: Bucket, l: Limits, now: int) {
    SameBucket(k, b, l, now) && SameLeases(k, b, now) && LeasesFresh(k, l, now)
  }

  lemma ApplySame(k: Keys, b: Bucket, l: Limits, from: int, e: Event)
    requires Sane(l) && RefillsWithinTtl(l) && Same(k, b, l, from) && from <= e.now
    ensures Same(Apply(k, l, e), BucketApply(b, l, e), l, e.now)
    ensures e.Acquiring? ==> Acquire(k, l, e.now, e.owner).1.reason == BucketAcquire(b, l, e.now, e.owner).1.reason
  {
    hide SameBucket, SameLeases, Acquire, BucketAcquire, Release, BucketRelease, RefillsWithinTtl;
    BucketLater(k, b, l, from, e.now);
    LeasesLater(k, b, from, e.now);
    assert LeasesFresh(k, l, e.now);
    ApplyFresh(k, l, e);
    match e {
      case Acquiring(now, owner) =>
        AcquireSame(k, b, l, now, owner);
        AcquireSameLeases(k, b, l, now, owner);
      case Releasing(now, owner) => ReleaseSame(k, b, l, now, owner);
    }
  }

  lemma {:induction false} RunsAgree(k: Keys, b: Bucket, l: Limits, from: int, events: seq<Event>)
    requires Sane(l) && RefillsWithinTtl(l) && Same(k, b, l, from) && Ascending(events, from)
    ensures Replies(k, l, events) == BucketReplies(b, l, events)
    ensures |events| > 0 ==> Same(Run(k, l, events), BucketRun(b, l, events), l, events[|events| - 1].now)
    decreases |events|
  {
    hide Same, Apply, BucketApply, Acquire, BucketAcquire, RefillsWithinTtl, Sane;
    if |events| > 0 {
      ApplySame(k, b, l, from, events[0]);
      assert Ascending(events[1..], events[0].now);
      RunsAgree(Apply(k, l, events[0]), BucketApply(b, l, events[0]), l, events[0].now, events[1..]);
      if |events| > 1 {
        assert events[1..][|events| - 2] == events[|events| - 1];
      }
    }
  }

  function FullBucket(l: Limits, at: int): Bucket {
    Bucket(l.capacity, at, map[])
  }

  lemma StartSame(l: Limits, at: int)
    requires Sane(l)
    ensures Same(NO_KEYS, FullBucket(l, at), l, at)
  {
    hide Level;
    LevelLater(l, l.capacity, at, at, at);
  }

  /**
   * Under a clock that never goes back, if an idle bucket refills within its time to live, the expiry of
   * the keys is invisible: every run gives the answers of the bucket that never expires.
   */
  lemma ExpiryInvisible(l: Limits, events: seq<Event>, start: int)
    requires Sane(l) && RefillsWithinTtl(l) && Ascending(events, start)
    ensures Replies(NO_KEYS, l, events) == BucketReplies(FullBucket(l, start), l, events)
  {
    hide Ascending, RefillsWithinTtl;
    StartSame(l, start);
    RunsAgree(NO_KEYS, FullBucket(l, start), l, start, events);
  }

  // ---------------------------------------------------------------- the window bound

  lemma BucketStep(b: Bucket, l: Limits, e: Event)
    requires Sane(l) && b.updatedAt <= e.now && 0.0 <= b.tokens <= l.capacity
    ensures var c := BucketApply(b, l, e);
            && c.updatedAt <= e.now && 0.0 <= c.tokens <= l.capacity
            && BucketLevel(c, l, e.now) == BucketLevel(b, l, e.now)
                 - if e.Acquiring? && BucketAcquire(b, l, e.now, e.owner).1.reason == ByGrant then 1.0 else 0.0
  {
    hide Level, Unexpired;
    LevelCapped(l, b.tokens, b.updatedAt, e.now);
    var level := BucketLevel(b, l, e.now);
    LevelLater(l, level, e.now, e.now, e.now);
    if level >= 1.0 {
      LevelLater(l, level - 1.0, e.now, e.now, e.now);
    }
  }

  lemma LevelRises(b: Bucket, l: Limits, now: int, later: int)
    requires Sane(l) && b.updatedAt <= now <= later
    ensures BucketLevel(b, l, later) <= BucketLevel(b, l, now) + Accrued(l.refillPerSecond, later - now)
  {
    hide Accrued;
    AccruedSplit(l.refillPerSecond, now - b.updatedAt, later - now);
    AccruedSign(l.refillPerSecond, later - now);
  }

  lemma {:induction false} GrantsWithinLevel(b: Bucket, l: Limits, events: seq<Event>, now: int, last: int)
    requires Sane(l) && b.updatedAt <= now <= last && 0.0 <= b.tokens <= l.capacity && Ascending(events, now)
    requires |events| > 0 ==> events[|events| - 1].now <= last
    ensures Granted(BucketReplies(b, l, events)) as real <= BucketLevel(b, l, now) + Accrued(l.refillPerSecond, last - now)
    decreases |events|
  {
    hide Accrued, Level, BucketAcquire, BucketLevel;
    if |events| == 0 {
      BudgetSign(b, l, now, last);
    } else {
      var e := events[0];
      var c := BucketApply(b, l, e);
      BucketStep(b, l, e);
      LevelRises(b, l, now, e.now);
      AccruedSplit(l.refillPerSecond, e.now - now, last - e.now);
      GrantsWithinLevel(c, l, events[1..], e.now, last);
      if e.Acquiring? {
        GrantedCons(BucketAcquire(b, l, e.now, e.owner).1.reason, BucketReplies(c, l, events[1..]));
      } else {
        assert BucketReplies(b, l, events) == BucketReplies(c, l, events[1..]);
      }
    }
  }

  lemma GrantedCons(r: Reason, rest: seq<Reason>)
    ensures Granted([r] + rest) == (if r == ByGrant then 1 else 0) + Granted(rest)
  {
    assert ([r] + rest)[1..] == rest;
  }

  lemma BudgetSign(b: Bucket, l: Limits, now: int, last: int)
    requires Sane(l) && now <= last && 0.0 <= b.tokens
    ensures 0.0 <= BucketLevel(b, l, now) + Accrued(l.refillPerSecond, last - now)
  {
    hide Accrued, Level;
    LevelCapped(l, b.tokens, b.updatedAt, now);
    AccruedSign(l.refillPerSecond, last - now);
  }

  // ---------------------------------------------------------------- the window bound under any clock

  /** The acquires of a run that are granted at a reading in [first, last]. */
  function GrantedIn(k: Keys, l: Limits, events: seq<Event>, first: int, last: int): nat
    decreases |events|
  {
    if |events| == 0 then 0
    else
      (if GrantsAt(k, l, events[0]) && first <= events[0].now <= last then 1 else 0)
      + GrantedIn(Apply(k, l, events[0]), l, events[1..], first, last)
  }

  predicate GrantsAt(k: Keys, l: Limits, e: Event) {
    e.Acquiring? && Acquire(k, l, e.now, e.owner).1.reason == ByGrant
  }

  function BackFrom(from: int, events: seq<Event>): nat
    decreases |events|
  {
    if |events| == 0 then 0 else Behind(from, events[0].now) + BackFrom(events[0].now, events[1..])
  }

  /** How far the readings of a run go back, in all. */
  function Back(events: seq<Event>): nat {
    if |events| == 0 then 0 else BackFrom(events[0].now, events)
  }

  ghost predicate TokensOk(k: Keys, l: Limits) {
    k.tokens.Some? ==>
      && 0.0 <= k.tokens.value.tokens <= l.capacity
      && k.tokens.value.expireAt == k.tokens.value.updatedAt + l.ttlMs
  }

  /** With the refill condition a stored bucket has the same level at any reading, expired or not. */
  lemma LevelAnyReading(k: Keys, l: Limits, now: int)
    requires Sane(l) && RefillsWithinTtl(l) && TokensOk(k, l)
    ensures LevelOf(k, l, now) == if k.tokens.Some? then Level(l, k.tokens.value.tokens, k.tokens.value.updatedAt, now) else l.capacity
    ensures 0.0 <= LevelOf(k, l, now) <= l.capacity
  {
    hide Accrued, Level, RefillsWithinTtl;
    LevelLater(l, l.capacity, now, now, now);
    if k.tokens.Some? {
      var h := k.tokens.value;
      LevelCapped(l, h.tokens, h.updatedAt, now);
      if h.expireAt <= now {
        LevelLater(l, h.tokens, h.updatedAt, h.updatedAt, now);
      }
    }
  }

  /** Between two readings the level never falls forwards, never rises backwards, and rises no faster than the rate. */
  lemma LevelMoves(k: Keys, l: Limits, c: int, t: int)
    requires Sane(l) && RefillsWithinTtl(l) && TokensOk(k, l)
    ensures c <= t ==> LevelOf(k, l, t) <= LevelOf(k, l, c) + Accrued(l.refillPerSecond, t - c)
    ensures t <= c ==> LevelOf(k, l, t) <= LevelOf(k, l, c)
  {
    hide LevelOf, Level, Accrued, RefillsWithinTtl;
    LevelAnyReading(k, l, c);
    LevelAnyReading(k, l, t);
    AccruedSign(l.refillPerSecond, t - c);
    if k.tokens.Some? {
      if c <= t {
        LevelSlope(l, k.tokens.value.tokens, k.tokens.value.updatedAt, c, t);
      } else {
        LevelSlope(l, k.tokens.value.tokens, k.tokens.value.updatedAt, t, c);
      }
    }
  }

  lemma LevelSlope(l: Limits, tokens: real, updatedAt: int, early: int, late: int)
    requires Sane(l) && early <= late
    ensures Level(l, tokens, updatedAt, early) <= Level(l, tokens, updatedAt, late)
    ensures Level(l, tokens, updatedAt, late) <= Level(l, tokens, updatedAt, early) + Accrued(l.refillPerSecond, late - early)
  {
    hide Accrued;
    var a, b := if early > updatedAt then early - updatedAt else 0, if late > updatedAt then late - updatedAt else 0;
    AccruedMonotone(l.refillPerSecond, a, b);
    AccruedMonotone(l.refillPerSecond, b - a, late - early);
    AccruedSplit(l.refillPerSecond, a, b - a);
    AccruedSign(l.refillPerSecond, late - early);
  }

  /** What a bucket at a level can still grant in [first, last] when the clock reads `c` and goes back no more. */
  function Potential(l: Limits, first: int, last: int, level: real, c: int): real {
    if c < first then
      MinReal(l.capacity, level + Accrued(l.refillPerSecond, first - c)) + Accrued(l.refillPerSecond, last - first)
    else NotNegative(level + Accrued(l.refillPerSecond, last - c))
  }

  lemma PotentialForward(l: Limits, first: int, last: int, level: real, next: real, c: int, t: int)
    requires Sane(l) && first <= last && c <= t && 0.0 <= level && 0.0 <= next <= l.capacity
    requires next <= level + Accrued(l.refillPerSecond, t - c)
    ensures Potential(l, first, last, next, t) <= Potential(l, first, last, level, c)
  {
    hide Accrued;
    AccruedSign(l.refillPerSecond, last - first);
    AccruedSign(l.refillPerSecond, first - c);
    AccruedSplit(l.refillPerSecond, t - c, last - t);
    AccruedSplit(l.refillPerSecond, t - c, first - t);
    AccruedSplit(l.refillPerSecond, first - c, last - first);
    if first <= t {
      AccruedMonotone(l.refillPerSecond, last - t, last - first);
    }
  }

  /** A step back costs what accrues over it. */
  lemma PotentialBackward(l: Limits, first: int, last: int, level: real, next: real, c: int, t: int)
    requires Sane(l) && first <= last && t < c && 0.0 <= next <= level
    ensures Potential(l, first, last, next, t) <= Potential(l, first, last, level, c) + Accrued(l.refillPerSecond, c - t)
  {
    hide Accrued;
    AccruedSign(l.refillPerSecond, c - t);
    AccruedSplit(l.refillPerSecond, c - t, last - c);
    AccruedSplit(l.refillPerSecond, c - t, first - c);
    AccruedSplit(l.refillPerSecond, first - t, last - first);
  }

  /** A grant in the window takes one from the potential; a grant outside it adds nothing. */
  lemma PotentialSpent(l: Limits, first: int, last: int, level: real, t: int)
    requires Sane(l) && first <= last && 1.0 <= level
    ensures Potential(l, first, last, level - 1.0, t) + (if first <= t <= last then 1.0 else 0.0) <= Potential(l, first, last, level, t)
  {
    hide Accrued;
    AccruedSign(l.refillPerSecond, last - t);
  }

  /** An event leaves the level at its own reading, less the token it grants. */
  lemma EventSpends(k: Keys, l: Limits, e: Event)
    requires Sane(l) && RefillsWithinTtl(l) && TokensOk(k, l)
    ensures TokensOk(Apply(k, l, e), l)
    ensures GrantsAt(k, l, e) ==> LevelOf(k, l, e.now) >= 1.0
    ensures LevelOf(Apply(k, l, e), l, e.now) == LevelOf(k, l, e.now) - if GrantsAt(k, l, e) then 1.0 else 0.0
  {
    hide LevelOf, Unexpired, Swept, RefillsWithinTtl, Accrued, Level;
    LevelAnyReading(k, l, e.now);
    TokensApplied(k, l, e);
    if !GrantsAt(k, l, e) && Apply(k, l, e).tokens == k.tokens {
      LevelAnyReading(Apply(k, l, e), l, e.now);
    } else {
      LevelNow(Apply(k, l, e), l, e.now);
    }
  }

  /** The bucket an event leaves: the one it found, or one written at its reading. */
  lemma TokensApplied(k: Keys, l: Limits, e: Event)
    ensures var level := LevelOf(k, l, e.now);
            && (GrantsAt(k, l, e) ==> level >= 1.0 && Apply(k, l, e).tokens == Some(TokenHash(level - 1.0, e.now, e.now + l.ttlMs)))
            && (!GrantsAt(k, l, e) ==>
                  Apply(k, l, e).tokens == k.tokens || Apply(k, l, e).tokens == Some(TokenHash(level, e.now, e.now + l.ttlMs)))
  {
    hide LevelOf, Unexpired, Swept, LiveFields;
  }

  lemma LevelNow(k: Keys, l: Limits, now: int)
    requires Sane(l) && k.tokens.Some? && k.tokens.value.updatedAt == now && k.tokens.value.expireAt == now + l.ttlMs
    requires 0.0 <= k.tokens.value.tokens <= l.capacity
    ensures LevelOf(k, l, now) == k.tokens.value.tokens
  {
    hide Level;
    LevelLater(l, k.tokens.value.tokens, now, now, now);
  }

  lemma {:induction false} GrantsWithinPotential(k: Keys, l: Limits, events: seq<Event>, first: int, last: int, c: int)
    requires Sane(l) && RefillsWithinTtl(l) && TokensOk(k, l) && first <= last
    ensures GrantedIn(k, l, events, first, last) as real
            <= Potential(l, first, last, LevelOf(k, l, c), c) + Accrued(l.refillPerSecond, BackFrom(c, events))
    decreases |events|
  {
    hide Accrued, LevelOf, Apply, GrantsAt, TokensOk, RefillsWithinTtl, Potential;
    if |events| == 0 {
      LevelAnyReading(k, l, c);
      PotentialSign(l, first, last, LevelOf(k, l, c), c);
    } else {
      var e := events[0];
      var next := Apply(k, l, e);
      EventSpends(k, l, e);
      GrantsWithinPotential(next, l, events[1..], first, last, e.now);
      AccruedSplit(l.refillPerSecond, Behind(c, e.now), BackFrom(e.now, events[1..]));
      PotentialMoves(k, l, first, last, c, e.now);
      if GrantsAt(k, l, e) {
        PotentialSpent(l, first, last, LevelOf(k, l, e.now), e.now);
      }
    }
  }

  lemma PotentialMoves(k: Keys, l: Limits, first: int, last: int, c: int, t: int)
    requires Sane(l) && RefillsWithinTtl(l) && TokensOk(k, l) && first <= last
    ensures Potential(l, first, last, LevelOf(k, l, t), t)
            <= Potential(l, first, last, LevelOf(k, l, c), c) + Accrued(l.refillPerSecond, Behind(c, t))
  {
    hide Accrued, LevelOf, TokensOk, RefillsWithinTtl, Potential;
    LevelAnyReading(k, l, c);
    LevelAnyReading(k, l, t);
    LevelMoves(k, l, c, t);
    AccruedSign(l.refillPerSecond, 0);
    if c <= t {
      PotentialForward(l, first, last, LevelOf(k, l, c), LevelOf(k, l, t), c, t);
    } else {
      PotentialBackward(l, first, last, LevelOf(k, l, c), LevelOf(k, l, t), c, t);
    }
  }

  lemma PotentialSign(l: Limits, first: int, last: int, level: real, c: int)
    requires Sane(l) && first <= last && 0.0 <= level
    ensures 0.0 <= Potential(l, first, last, level, c) && Accrued(l.refillPerSecond, 0) == 0.0
  {
    hide Accrued;
    AccruedSign(l.refillPerSecond, 0);
    AccruedSign(l.refillPerSecond, last - first);
    AccruedSign(l.refillPerSecond, first - c);
  }

  /**
   * The window bound, under any clock: provided an idle bucket refills within its time to live, a whole
   * run is granted at readings in [t1, t2] at most capacity + rate * (t2 - t1), and beyond that what
   * accrues over the time by which its readings went back.
   */
  lemma WindowBound(l: Limits, events: seq<Event>, first: int, last: int)
    requires Sane(l) && RefillsWithinTtl(l) && first <= last
    ensures GrantedIn(NO_KEYS, l, events, first, last) as real
            <= l.capacity + Accrued(l.refillPerSecond, last - first) + Accrued(l.refillPerSecond, Back(events))
  {
    hide Accrued, LevelOf, RefillsWithinTtl;
    AccruedSign(l.refillPerSecond, last - first);
    AccruedSign(l.refillPerSecond, 0);
    if |events| > 0 {
      var c := events[0].now;
      LevelAnyReading(NO_KEYS, l, c);
      AccruedMonotone(l.refillPerSecond, last - c, if c < first then last - c else last - first);
      GrantsWithinPotential(NO_KEYS, l, events, first, last, c);
    }
  }

  /** A clock that never goes back has no backward motion, so the bound is then the plain one. */
  lemma {:induction false} AscendingHasNoBack(events: seq<Event>, from: int)
    requires Ascending(events, from)
    ensures BackFrom(from, events) == 0 && Back(events) == 0
    decreases |events|
  {
    if |events| > 0 {
      assert Ascending(events[1..], events[0].now);
      AscendingHasNoBack(events[1..], events[0].now);
    }
  }

  // ---------------------------------------------------------------- leases

  /** Leases that have not run out, of which there are never more than the cap. */
  ghost predicate Capped(k: Keys, l: Limits, now: int) {
    |Unexpired(LiveFields(k, now), now)| <= l.maxConcurrent
  }

  lemma FewerLater(k: Keys, now: int, later: int)
    requires now <= later
    ensures |Unexpired(LiveFields(k, later), later)| <= |Unexpired(LiveFields(k, now), now)|
  {
    var a, b := Unexpired(LiveFields(k, later), later), Unexpired(LiveFields(k, now), now);
    assert a.Keys <= b.Keys;
    SmallerMap(a, b);
  }

  lemma {:induction false} SmallerMap(a: map<string, int>, b: map<string, int>)
    requires a.Keys <= b.Keys
    ensures |a| <= |b|
    decreases |a|
  {
    if |a| > 0 {
      var f :| f in a;
      assert (a - {f}).Keys == a.Keys - {f} && (b - {f}).Keys == b.Keys - {f};
      SmallerMap(a - {f}, b - {f});
    }
  }

  lemma AcquireCapped(k: Keys, l: Limits, now: int, owner: string)
    requires l.maxConcurrent > 0 && l.ttlMs > 0 && Capped(k, l, now)
    ensures Capped(Acquire(k, l, now, owner).0, l, now)
  {
    hide LevelOf, Unexpired, Swept;
    var kept := Unexpired(LiveFields(k, now), now);
    UnexpiredLater(LiveFields(k, now), now, now);
    GrantedLease(kept, now, owner, now + l.ttlMs);
    assert kept[owner := now + l.ttlMs].Keys == kept.Keys + {owner};
    SweptLive(k, now);
  }

  lemma SweptLive(k: Keys, now: int)
    ensures var swept := k.(inflight := Swept(k, now));
            Unexpired(LiveFields(swept, now), now) == Unexpired(LiveFields(k, now), now)
  {
  }

  lemma ReleaseCapped(k: Keys, l: Limits, now: int, owner: string)
    requires l.maxConcurrent > 0 && l.ttlMs > 0 && Capped(k, l, now)
    ensures Capped(Release(k, l, now, owner), l, now)
  {
    hide Unexpired;
    var kept := Unexpired(LiveFields(k, now), now);
    ReleasedLease(LiveFields(k, now), now, owner);
    SmallerMap(kept - {owner}, kept);
    NothingUnexpired(now);
  }

  lemma NothingUnexpired(now: int)
    ensures Unexpired(map[], now) == map[]
  {
  }

  lemma ApplyCapped(k: Keys, l: Limits, e: Event)
    requires l.maxConcurrent > 0 && l.ttlMs > 0 && Capped(k, l, e.now)
    ensures Capped(Apply(k, l, e), l, e.now)
  {
    hide Capped, Acquire, Release;
    match e {
      case Acquiring(now, owner) => AcquireCapped(k, l, now, owner);
      case Releasing(now, owner) => ReleaseCapped(k, l, now, owner);
    }
  }

  /** After every run under a clock that never goes back, at most maxConcurrent leases are live. */
  lemma {:induction false} LeasesCapped(k: Keys, l: Limits, from: int, events: seq<Event>, now: int)
    requires l.maxConcurrent > 0 && l.ttlMs > 0 && Capped(k, l, from) && Ascending(events, from)
    requires from <= now && (|events| > 0 ==> events[|events| - 1].now <= now)
    ensures Capped(Run(k, l, events), l, now)
    decreases |events|
  {
    hide Apply, Unexpired, LiveFields;
    if |events| == 0 {
      FewerLater(k, from, now);
    } else {
      FewerLater(k, from, events[0].now);
      ApplyCapped(k, l, events[0]);
      assert Ascending(events[1..], events[0].now);
      LeasesCapped(Apply(k, l, events[0]), l, events[0].now, events[1..], now);
    }
  }

  // ---------------------------------------------------------------- when expiry is visible

  /** Calls one after another at one instant, each released before the next. */
  function Burst(n: nat, now: int): seq<Event> {
    seq(2 * n, i => if i % 2 == 0 then Acquiring(now, "") else Releasing(now, ""))
  }

  lemma BurstStep(n: nat, now: int)
    requires n > 0
    ensures Burst(n, now) == [Acquiring(now, ""), Releasing(now, "")] + Burst(n - 1, now)
  {
  }

  /** A granted call and its release leave no lease and one token less. */
  lemma CallAndRelease(k: Keys, l: Limits, now: int)
    requires Sane(l) && k.inflight.None? && 1.0 <= LevelOf(k, l, now) <= l.capacity
    ensures var (held, reply) := Acquire(k, l, now, "");
            reply.reason == ByGrant
            && Release(held, l, now, "") == Keys(Some(TokenHash(LevelOf(k, l, now) - 1.0, now, now + l.ttlMs)), None)
  {
    hide Level, LevelOf;
    assert Unexpired(map[], now) == map[];
    assert map[][("") := now + l.ttlMs] - {""} == map[];
  }

  lemma OneCall(k: Keys, l: Limits, now: int, rest: seq<Event>)
    requires Sane(l) && k.inflight.None? && 1.0 <= LevelOf(k, l, now) <= l.capacity
    ensures var next := Keys(Some(TokenHash(LevelOf(k, l, now) - 1.0, now, now + l.ttlMs)), None);
            && Replies(k, l, [Acquiring(now, ""), Releasing(now, "")] + rest) == [ByGrant] + Replies(next, l, rest)
            && Run(k, l, [Acquiring(now, ""), Releasing(now, "")] + rest) == Run(next, l, rest)
  {
    hide LevelOf, Acquire, Release;
    CallAndRelease(k, l, now);
    var held := Acquire(k, l, now, "").0;
    var one := [Releasing(now, "")] + rest;
    var all := [Acquiring(now, ""), Releasing(now, "")] + rest;
    assert all[0] == Acquiring(now, "") && all[1..] == one;
    assert one[0] == Releasing(now, "") && one[1..] == rest;
    assert Replies(held, l, one) == Replies(Release(held, l, now, ""), l, rest);
  }

  lemma LevelAfterCall(k: Keys, l: Limits, now: int)
    requires Sane(l) && 1.0 <= LevelOf(k, l, now) <= l.capacity
    ensures LevelOf(Keys(Some(TokenHash(LevelOf(k, l, now) - 1.0, now, now + l.ttlMs)), None), l, now) == LevelOf(k, l, now) - 1.0
  {
    hide Level;
    LevelLater(l, LevelOf(k, l, now) - 1.0, now, now, now);
  }

  lemma {:induction false} BurstGranted(k: Keys, l: Limits, n: nat, now: int)
    requires Sane(l) && k.inflight.None? && n as real <= LevelOf(k, l, now) <= l.capacity
    ensures Granted(Replies(k, l, Burst(n, now))) == n
    ensures var after := Run(k, l, Burst(n, now));
            after.inflight.None? && (n > 0 ==> after.tokens == Some(TokenHash(LevelOf(k, l, now) - n as real, now, now + l.ttlMs)))
    decreases n
  {
    hide Level, Unexpired, Burst, Accrued, LevelOf, Replies, Run, Granted;
    if n == 0 {
      NoBurst(k, l, now);
    } else {
      BurstStep(n, now);
      OneCall(k, l, now, Burst(n - 1, now));
      LevelAfterCall(k, l, now);
      var next := Keys(Some(TokenHash(LevelOf(k, l, now) - 1.0, now, now + l.ttlMs)), None);
      BurstGranted(next, l, n - 1, now);
      GrantedCons(ByGrant, Replies(next, l, Burst(n - 1, now)));
      if n == 1 {
        NoBurst(next, l, now);
      }
    }
  }

  lemma NoBurst(k: Keys, l: Limits, now: int)
    ensures Burst(0, now) == [] && Replies(k, l, Burst(0, now)) == [] && Granted([]) == 0 && Run(k, l, Burst(0, now)) == k
  {
  }

  lemma {:induction false} RepliesSplit(k: Keys, l: Limits, x: seq<Event>, y: seq<Event>)
    ensures Replies(k, l, x + y) == Replies(k, l, x) + Replies(Run(k, l, x), l, y)
    decreases |x|
  {
    hide Apply, Acquire;
    if |x| == 0 {
      assert x + y == y;
    } else {
      assert (x + y)[0] == x[0] && (x + y)[1..] == x[1..] + y;
      RepliesSplit(Apply(k, l, x[0]), l, x[1..], y);
    }
  }

  lemma {:induction false} GrantedSplit(x: seq<Reason>, y: seq<Reason>)
    ensures Granted(x + y) == Granted(x) + Granted(y)
  {
    if |x| == 0 {
      assert x + y == y;
    } else {
      assert (x + y)[0] == x[0] && (x + y)[1..] == x[1..] + y;
      GrantedSplit(x[1..], y);
    }
  }

  /** Two bursts of capacity, one time to live apart. */
  function TwoBursts(l: Limits, n: nat): seq<Event> {
    Burst(n, 0) + Burst(n, l.ttlMs)
  }

  lemma TwoBurstsAscend(l: Limits, n: nat)
    requires Sane(l)
    ensures Ascending(TwoBursts(l, n), 0)
    ensures n > 0 ==> |TwoBursts(l, n)| > 0 && TwoBursts(l, n)[|TwoBursts(l, n)| - 1].now == l.ttlMs
  {
  }

  lemma TwoBurstsGranted(l: Limits, n: nat)
    requires Sane(l) && l.capacity == n as real && n > 0
    ensures Granted(Replies(NO_KEYS, l, TwoBursts(l, n))) == 2 * n
  {
    hide Burst, Replies, Granted, Run, Level;
    LevelLater(l, l.capacity, 0, 0, 0);
    LevelLater(l, l.capacity, l.ttlMs, l.ttlMs, l.ttlMs);
    BurstGranted(NO_KEYS, l, n, 0);
    var k := Run(NO_KEYS, l, Burst(n, 0));
    BurstGranted(k, l, n, l.ttlMs);
    RepliesSplit(NO_KEYS, l, Burst(n, 0), Burst(n, l.ttlMs));
    GrantedSplit(Replies(NO_KEYS, l, Burst(n, 0)), Replies(k, l, Burst(n, l.ttlMs)));
  }

  /** No run of the limiter tells the expiring keys from the bucket that never expires. */
  ghost predicate Indistinguishable(l: Limits) {
    forall events :: Ascending(events, 0) ==> Replies(NO_KEYS, l, events) == BucketReplies(FullBucket(l, 0), l, events)
  }

  /**
   * For a whole capacity and any concurrency cap, expiry is invisible exactly when an idle bucket refills
   * within its time to live. Otherwise two full bursts one time to live apart are all granted, which the
   * reference never does.
   */
  lemma ExpiryInvisibleExactlyWhen(l: Limits, n: nat)
    requires Sane(l) && l.capacity == n as real
    ensures Indistinguishable(l) <==> RefillsWithinTtl(l)
  {
    hide Accrued, Burst, TwoBursts, Ascending, Replies, BucketReplies, Granted, Level;
    AccruedSign(l.refillPerSecond, l.ttlMs);
    if RefillsWithinTtl(l) {
      forall events | Ascending(events, 0) ensures Replies(NO_KEYS, l, events) == BucketReplies(FullBucket(l, 0), l, events) {
        ExpiryInvisible(l, events, 0);
      }
    } else {
      TwoBurstsAscend(l, n);
      TwoBurstsGranted(l, n);
      LevelLater(l, l.capacity, 0, 0, 0);
      GrantsWithinLevel(FullBucket(l, 0), l, TwoBursts(l, n), 0, l.ttlMs);
    }
  }

  // ---------------------------------------------------------------- when the window bound holds

  /** The plain window bound, for every run whose readings go back by at most `d` in all. */
  ghost predicate WindowsBounded(l: Limits, d: nat) {
    forall events, first, last :: first <= last && Back(events) <= d ==>
      GrantedIn(NO_KEYS, l, events, first, last) as real <= l.capacity + Accrued(l.refillPerSecond, last - first)
  }

  lemma {:induction false} GrantedInWindow(k: Keys, l: Limits, events: seq<Event>, first: int, last: int)
    requires forall i :: 0 <= i < |events| ==> first <= events[i].now <= last
    ensures GrantedIn(k, l, events, first, last) == Granted(Replies(k, l, events))
    decreases |events|
  {
    hide Apply, Acquire;
    if |events| > 0 {
      var next := Apply(k, l, events[0]);
      GrantedInWindow(next, l, events[1..], first, last);
      if events[0].Acquiring? {
        GrantedCons(Acquire(k, l, events[0].now, events[0].owner).1.reason, Replies(next, l, events[1..]));
      } else {
        assert Replies(k, l, events) == Replies(next, l, events[1..]);
      }
    }
  }

  lemma {:induction false} GrantedInSplit(k: Keys, l: Limits, x: seq<Event>, y: seq<Event>, first: int, last: int)
    ensures GrantedIn(k, l, x + y, first, last) == GrantedIn(k, l, x, first, last) + GrantedIn(Run(k, l, x), l, y, first, last)
    ensures Run(k, l, x + y) == Run(Run(k, l, x), l, y)
    decreases |x|
  {
    hide Apply, GrantsAt;
    if |x| == 0 {
      assert x + y == y;
    } else {
      assert (x + y)[0] == x[0] && (x + y)[1..] == x[1..] + y;
      GrantedInSplit(Apply(k, l, x[0]), l, x[1..], y, first, last);
    }
  }

  lemma {:induction false} BackSplit(x: seq<Event>, y: seq<Event>, from: int)
    ensures BackFrom(from, x + y) == BackFrom(from, x) + BackFrom(if |x| == 0 then from else x[|x| - 1].now, y)
    decreases |x|
  {
    if |x| == 0 {
      assert x + y == y;
    } else {
      assert (x + y)[0] == x[0] && (x + y)[1..] == x[1..] + y;
      BackSplit(x[1..], y, x[0].now);
    }
  }

  lemma {:induction false} BurstBack(n: nat, now: int, from: int)
    requires from <= now || n == 0
    ensures BackFrom(from, Burst(n, now)) == 0
    ensures |Burst(n, now)| == 2 * n && forall i :: 0 <= i < 2 * n ==> Burst(n, now)[i].now == now
  {
    assert Ascending(Burst(n, now), from);
    AscendingHasNoBack(Burst(n, now), from);
  }

  /** A full burst at reading `d`, a call at reading 0, and a burst of `m` at a later reading `x`. */
  function Swing(n: nat, d: nat, m: nat, x: nat): seq<Event> {
    Burst(n, d) + ([Acquiring(0, "")] + Burst(m, x))
  }

  lemma SwingBack(n: nat, d: nat, m: nat, x: nat)
    requires n > 0
    ensures Back(Swing(n, d, m, x)) == d
  {
    hide Burst;
    BurstBack(n, d, d);
    BurstBack(m, x, 0);
    BackSplit(Burst(n, d), [Acquiring(0, "")] + Burst(m, x), d);
    assert ([Acquiring(0, "")] + Burst(m, x))[1..] == Burst(m, x);
  }

  /** The call at the earlier reading is refused, and the empty bucket is stored as of that reading. */
  lemma SetBack(k: Keys, l: Limits, d: nat)
    requires Sane(l) && k == Keys(Some(TokenHash(0.0, d, d + l.ttlMs)), None)
    ensures !GrantsAt(k, l, Acquiring(0, ""))
    ensures Apply(k, l, Acquiring(0, "")) == Keys(Some(TokenHash(0.0, 0, l.ttlMs)), None)
  {
    AccruedSign(l.refillPerSecond, 0);
  }

  /** The tokens that accrue from the earlier reading on are granted a second time. */
  lemma SwingGrants(l: Limits, n: nat, d: nat, m: nat, x: nat)
    requires Sane(l) && l.capacity == n as real && 0 < n && d <= x
    requires m <= n && m as real <= Accrued(l.refillPerSecond, x)
    ensures GrantedIn(NO_KEYS, l, Swing(n, d, m, x), d, x) == n + m
  {
    hide Burst, Run, Level, GrantsAt, Accrued, GrantedIn, Replies, Granted, Apply;
    var set0 := [Acquiring(0, "")];
    LevelLater(l, l.capacity, d, d, d);
    BurstGranted(NO_KEYS, l, n, d);
    BurstBack(n, d, d);
    BurstBack(m, x, x);
    GrantedInWindow(NO_KEYS, l, Burst(n, d), d, x);
    var k := Run(NO_KEYS, l, Burst(n, d));
    SetBack(k, l, d);
    var back := Keys(Some(TokenHash(0.0, 0, l.ttlMs)), None);
    OneRefused(k, l, d, x);
    LevelFromZero(l, m, x);
    BurstGranted(back, l, m, x);
    GrantedInWindow(back, l, Burst(m, x), d, x);
    GrantedInSplit(k, l, set0, Burst(m, x), d, x);
    GrantedInSplit(NO_KEYS, l, Burst(n, d), set0 + Burst(m, x), d, x);
  }

  lemma OneRefused(k: Keys, l: Limits, first: int, last: int)
    requires !GrantsAt(k, l, Acquiring(0, ""))
    ensures GrantedIn(k, l, [Acquiring(0, "")], first, last) == 0
    ensures Run(k, l, [Acquiring(0, "")]) == Apply(k, l, Acquiring(0, ""))
  {
    hide Apply, GrantsAt;
    assert Run(Apply(k, l, Acquiring(0, "")), l, [Acquiring(0, "")][1..]) == Apply(k, l, Acquiring(0, ""));
  }

  lemma LevelFromZero(l: Limits, m: nat, x: nat)
    requires Sane(l) && m as real <= l.capacity && m as real <= Accrued(l.refillPerSecond, x)
    ensures m as real <= LevelOf(Keys(Some(TokenHash(0.0, 0, l.ttlMs)), None), l, x) <= l.capacity
  {
    hide Accrued;
    AccruedSign(l.refillPerSecond, 0);
  }

  /**
   * How much a backward clock can grant beyond the plain bound: every whole number of tokens that
   * accrue over the time it went back, up to a full bucket, at a single reading.
   */
  lemma BackwardExcess(l: Limits, n: nat, d: nat, m: nat)
    requires Sane(l) && l.capacity == n as real && 0 < n
    requires m <= n && m as real <= Accrued(l.refillPerSecond, d)
    ensures Back(Swing(n, d, m, d)) == d
    ensures GrantedIn(NO_KEYS, l, Swing(n, d, m, d), d, d) == n + m
  {
    hide Swing, GrantedIn, Accrued, Back;
    SwingBack(n, d, m, d);
    SwingGrants(l, n, d, m, d);
  }

  /** The first reading not before `d` by which one token has accrued from reading 0. */
  lemma {:induction false} FirstToken(l: Limits, d: nat, late: nat) returns (x: nat)
    requires Sane(l) && d <= late && Accrued(l.refillPerSecond, late) >= 1.0
    ensures d <= x && Accrued(l.refillPerSecond, x) >= 1.0
    ensures x > d ==> Accrued(l.refillPerSecond, x - 1) < 1.0
    decreases late - d
  {
    hide Accrued;
    if late == d || Accrued(l.refillPerSecond, late - 1) < 1.0 {
      x := late;
    } else {
      x := FirstToken(l, d, late - 1);
    }
  }

  /** With any room to go back, one more call than the bound allows. */
  lemma BackwardBreaksBound(l: Limits, n: nat, d: nat)
    requires Sane(l) && l.capacity == n as real && 0 < n && RefillsWithinTtl(l) && 0 < d
    ensures !WindowsBounded(l, d)
  {
    hide Swing, GrantedIn, Accrued, Back;
    AccruedMonotone(l.refillPerSecond, l.ttlMs, d + l.ttlMs);
    var x := FirstToken(l, d, d + l.ttlMs);
    SwingBack(n, d, 1, x);
    SwingGrants(l, n, d, 1, x);
    AccruedSign(l.refillPerSecond, 0);
    AccruedMonotone(l.refillPerSecond, x - d, x - 1);
    assert GrantedIn(NO_KEYS, l, Swing(n, d, 1, x), d, x) as real > l.capacity + Accrued(l.refillPerSecond, x - d);
  }

  lemma TwoBurstsBreakBound(l: Limits, n: nat, d: nat)
    requires Sane(l) && l.capacity == n as real && !RefillsWithinTtl(l)
    ensures !WindowsBounded(l, d)
  {
    hide Accrued, TwoBursts, Replies, Granted, GrantedIn, Back, Ascending;
    AccruedSign(l.refillPerSecond, l.ttlMs);
    TwoBurstsAscend(l, n);
    TwoBurstsGranted(l, n);
    TwoBurstsInside(l, n);
    AscendingHasNoBack(TwoBursts(l, n), 0);
    GrantedInWindow(NO_KEYS, l, TwoBursts(l, n), 0, l.ttlMs);
  }

  lemma TwoBurstsInside(l: Limits, n: nat)
    requires Sane(l)
    ensures forall i :: 0 <= i < |TwoBursts(l, n)| ==> 0 <= TwoBursts(l, n)[i].now <= l.ttlMs
  {
  }

  /**
   * For a whole capacity, the plain window bound holds in every run whose readings go back by at most `d`
   * exactly when the clock never goes back and an idle bucket refills within its time to live.
   */
  lemma WindowsBoundedExactlyWhen(l: Limits, n: nat, d: nat)
    requires Sane(l) && l.capacity == n as real && 0 < n
    ensures WindowsBounded(l, d) <==> d == 0 && RefillsWithinTtl(l)
  {
    hide Accrued, GrantedIn, Back, RefillsWithinTtl, WindowsBounded;
    if !RefillsWithinTtl(l) {
      TwoBurstsBreakBound(l, n, d);
    } else if d > 0 {
      BackwardBreaksBound(l, n, d);
    } else {
      NoBackBounded(l);
    }
  }

  lemma NoBackBounded(l: Limits)
    requires Sane(l) && RefillsWithinTtl(l)
    ensures WindowsBounded(l, 0)
  {
    hide Accrued, GrantedIn, Back, RefillsWithinTtl;
    AccruedSign(l.refillPerSecond, 0);
    forall events, first, last | first <= last && Back(events) <= 0
      ensures GrantedIn(NO_KEYS, l, events, first, last) as real <= l.capacity + Accrued(l.refillPerSecond, last - first)
    {
      WindowBound(l, events, first, last);
    }
  }

  // ---------------------------------------------------------------- the scripts over the stored hashes

  /** The fields left when those outside `rows` have been swept. */
  function Remaining(stored: map<string, int>, rows: set<string>, now: int): map<string, int> {
    map f | f in stored && (f in rows || stored[f] > now) :: stored[f]
  }

  function LiveIn(stored: map<string, int>, rows: set<string>, now: int): set<string>
    requires rows <= stored.Keys
  {
    set f | f in rows && stored[f] > now
  }

  lemma AllRemain(stored: map<string, int>, now: int)
    ensures Remaining(stored, stored.Keys, now) == stored
    ensures |LiveIn(stored, stored.Keys, now)| == |Unexpired(stored, now)|
  {
    assert LiveIn(stored, stored.Keys, now) == Unexpired(stored, now).Keys;
  }

  lemma SweepStep(stored: map<string, int>, rows: set<string>, field: string, now: int)
    requires rows <= stored.Keys && field in rows
    ensures Remaining(stored, rows - {field}, now)
            == if stored[field] <= now then Remaining(stored, rows, now) - {field} else Remaining(stored, rows, now)
    ensures |LiveIn(stored, rows, now)| == |LiveIn(stored, rows - {field}, now)| + if stored[field] <= now then 0 else 1
  {
    var after := LiveIn(stored, rows - {field}, now);
    assert LiveIn(stored, rows, now) == if stored[field] <= now then after else after + {field};
  }

  lemma NoneRemain(stored: map<string, int>, now: int)
    ensures Remaining(stored, {}, now) == Unexpired(stored, now) && LiveIn(stored, {}, now) == {}
  {
  }

  class RedisKeys {
    var tokens: Option<TokenHash>
    var inflight: Option<InflightHash>

    function State(): Keys
      reads this
    {
      Keys(tokens, inflight)
    }

    constructor ()
      ensures State() == NO_KEYS
    {
      tokens := None;
      inflight := None;
    }

    /** Deletes the fields that have run out, one by one, and counts the others. */
    method SweepInflight(now: int) returns (inflightTotal: nat)
      modifies this
      ensures inflight == Swept(old(State()), now) && tokens == old(tokens)
      ensures inflightTotal == |Unexpired(LiveFields(old(State()), now), now)|
    {
      hide Unexpired, Remaining, LiveIn;
      ghost var before := State();
      var stored := LiveFields(State(), now);
      var fields := stored;
      var rows := stored.Keys;
      inflightTotal := 0;
      AllRemain(stored, now);
      while rows != {}
        invariant State() == before && rows <= stored.Keys
        invariant fields == Remaining(stored, rows, now)
        invariant inflightTotal + |LiveIn(stored, rows, now)| == |Unexpired(stored, now)|
        decreases |rows|
      {
        var field :| field in rows;
        SweepStep(stored, rows, field, now);
        if stored[field] <= now {
          fields := fields - {field};
        } else {
          inflightTotal := inflightTotal + 1;
        }
        rows := rows - {field};
      }
      NoneRemain(stored, now);
      if fields == map[] {
        inflight := None;
      } else {
        inflight := Some(InflightHash(fields, inflight.value.expireAt));
      }
    }

    method AcquireScript(l: Limits, now: int, owner: string) returns (reply: Reply)
      modifies this
      ensures (State(), reply) == Acquire(old(State()), l, now, owner)
    {
      hide Level, Unexpired;
      ghost var before := State();
      var inflightTotal := SweepInflight(now);
      if l.maxConcurrent > 0 && inflightTotal >= l.maxConcurrent {
        return Reply(ByConcurrency, inflightTotal);
      }
      var stored := LiveTokens(State(), now);
      var held := if stored.Some? then stored.value.tokens else l.capacity;
      var updatedAt := if stored.Some? then stored.value.updatedAt else now;
      held := Level(l, held, updatedAt, now);
      if held < 1.0 {
        tokens := Some(TokenHash(held, now, now + l.ttlMs));
        return Reply(ByTokens, inflightTotal);
      }
      tokens := Some(TokenHash(held - 1.0, now, now + l.ttlMs));
      var kept := if inflight.Some? then inflight.value.fields else map[];
      inflight := Some(InflightHash(kept[owner := now + l.ttlMs], now + l.ttlMs));
      reply := Reply(ByGrant, inflightTotal + 1);
    }

    method ReleaseScript(l: Limits, now: int, owner: string) returns (removed: bool)
      modifies this
      ensures State() == Release(old(State()), l, now, owner)
      ensures removed <==> owner in LiveFields(old(State()), now)
    {
      var fields := LiveFields(State(), now);
      removed := owner in fields;
      fields := fields - {owner};
      if fields != map[] {
        inflight := Some(InflightHash(fields, now + l.ttlMs));
      } else {
        inflight := None;
      }
    }
  }
}
