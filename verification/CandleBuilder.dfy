/**
 * The streaming one-minute candle builder. Ticks of many symbols arrive interleaved; a candle closes
 * when a tick of a later minute arrives. The module proves that, between flushes, the closed candles
 * followed by the open one are the per-minute grouping of the symbol's accepted ticks.
 */
module CandleBuilder {
  import opened KstTime
  import opened Truncation
  import opened Wrappers

  /** The remainder operator of the source's language: it takes the sign of the dividend. */
  function Remainder(a: int, b: int): int
    requires b > 0
  {
    if a >= 0 then a % b else -((-a) % b)
  }

  function FloorToKstMinute(utcMs: int): int {
    var kstMs := utcMs + KST_OFFSET_MS;
    kstMs - Remainder(kstMs, MINUTE_MS) - KST_OFFSET_MS
  }

  lemma FloorMonotone(a: int, b: int)
    requires a <= b
    ensures FloorToKstMinute(a) <= FloorToKstMinute(b)
  {
    hide FloorToKstMinute;
    FloorValue(a);
    FloorValue(b);
  }

  /** The floor rounds toward the epoch of KST: down after it, up before it. */
  lemma FloorValue(utcMs: int)
    ensures var kst := utcMs + KST_OFFSET_MS;
            FloorToKstMinute(utcMs) + KST_OFFSET_MS == if kst >= 0 then kst / MINUTE_MS * MINUTE_MS else -((-kst) / MINUTE_MS * MINUTE_MS)
  {
    var kst := utcMs + KST_OFFSET_MS;
    if kst >= 0 {
      assert kst == kst / MINUTE_MS * MINUTE_MS + kst % MINUTE_MS;
    } else {
      assert -kst == (-kst) / MINUTE_MS * MINUTE_MS + (-kst) % MINUTE_MS;
    }
  }

  predicate AfterKstEpoch(utcMs: int) {
    utcMs + KST_OFFSET_MS >= 0 || (utcMs + KST_OFFSET_MS) % MINUTE_MS == 0
  }

  /** A time lies in its own bucket exactly when it is not before the epoch of KST, or is a whole minute. */
  lemma BucketContainsExactlyWhen(utcMs: int)
    ensures FloorToKstMinute(utcMs) <= utcMs < FloorToKstMinute(utcMs) + MINUTE_MS <==> AfterKstEpoch(utcMs)
  {
    hide FloorToKstMinute;
    FloorValue(utcMs);
    var kst := utcMs + KST_OFFSET_MS;
    assert kst == kst / MINUTE_MS * MINUTE_MS + kst % MINUTE_MS;
    assert -kst == (-kst) / MINUTE_MS * MINUTE_MS + (-kst) % MINUTE_MS;
  }

  // ---------------------------------------------------------------- ticks and candles

  /** The time text of a tick: absent or empty, not a date, or an instant in ms. */
  datatype SourceTs = NoTs | BadTs | AtMs(ms: int)

  datatype MarketEnv = Mock | Production

  datatype Tick = Tick(
    env: MarketEnv,
    symbol: string,
    price: Option<int>,
    tradeVolume: Option<int>,
    sourceTs: SourceTs,
    cumulativeVolume: Option<int>,
    parseWarnings: set<string>)

  type Key = (MarketEnv, string)

  datatype Candle = Candle(
    key: Key,
    bucketStart: int,
    bucketEnd: int,
    open: int,
    high: int,
    low: int,
    close: int,
    volume: int,
    tickCount: int,
    firstSourceTs: int,
    lastSourceTs: int,
    cumulativeVolumeFirst: Option<int>,
    cumulativeVolumeLast: Option<int>,
    cumulativeVolumeAnomalies: int)

  datatype Rejection = ParseWarning | MissingRequiredField | InvalidPrice | InvalidVolume | StaleTick

  datatype Result = Rejected(reason: Rejection) | Accepted(closed: Option<Candle>, current: Candle) | InvalidDate

  datatype Builder = Builder(
    current: map<Key, Candle>,
    lastAcceptedSourceTsMs: map<Key, int>,
    rejections: map<Rejection, int>)

  function KeyOf(t: Tick): Key {
    (t.env, t.symbol)
  }

  predicate Usable(t: Tick) {
    t.price.Some? && t.tradeVolume.Some? && t.sourceTs.AtMs?
  }

  function OpenCandle(t: Tick): Candle
    requires Usable(t)
  {
    var start := FloorToKstMinute(t.sourceTs.ms);
    Candle(KeyOf(t), start, start + MINUTE_MS, t.price.value, t.price.value, t.price.value, t.price.value,
           Abs(t.tradeVolume.value), 1, t.sourceTs.ms, t.sourceTs.ms, t.cumulativeVolume, t.cumulativeVolume, 0)
  }

  function UpdateCandle(prev: Candle, t: Tick): Candle
    requires Usable(t)
  {
    var price, incoming := t.price.value, t.cumulativeVolume;
    var anomaly := incoming.Some? && prev.cumulativeVolumeLast.Some? && incoming.value < prev.cumulativeVolumeLast.value;
    prev.(high := if price > prev.high then price else prev.high,
          low := if price < prev.low then price else prev.low,
          close := price,
          volume := prev.volume + Abs(t.tradeVolume.value),
          tickCount := prev.tickCount + 1,
          lastSourceTs := t.sourceTs.ms,
          cumulativeVolumeLast := OrElse(incoming, prev.cumulativeVolumeLast),
          cumulativeVolumeAnomalies := prev.cumulativeVolumeAnomalies + if anomaly then 1 else 0)
  }

  function Reject(b: Builder, reason: Rejection): (Builder, Result) {
    (b.(rejections := b.rejections[reason := (if reason in b.rejections then b.rejections[reason] else 0) + 1]), Rejected(reason))
  }

  const BLOCKING := {"missing-price", "missing-trade-volume", "missing-source-ts"}

  function Ingest(b: Builder, t: Tick): (Builder, Result) {
    if t.parseWarnings * BLOCKING != {} then Reject(b, ParseWarning)
    else if t.price.None? || t.tradeVolume.None? || t.sourceTs.NoTs? then Reject(b, MissingRequiredField)
    else if t.price.value <= 0 then Reject(b, InvalidPrice)
    else if t.tradeVolume.value == 0 then Reject(b, InvalidVolume)
    else if t.sourceTs.BadTs? then (b, InvalidDate)
    else
      var key := KeyOf(t);
      if key in b.lastAcceptedSourceTsMs && t.sourceTs.ms < b.lastAcceptedSourceTsMs[key] then Reject(b, StaleTick)
      else
        var start := FloorToKstMinute(t.sourceTs.ms);
        var same := key in b.current && b.current[key].bucketStart == start;
        var next := if same then UpdateCandle(b.current[key], t) else OpenCandle(t);
        var closed := if key in b.current && !same then Some(b.current[key]) else None;
        (b.(current := b.current[key := next], lastAcceptedSourceTsMs := b.lastAcceptedSourceTsMs[key := t.sourceTs.ms]),
         Accepted(closed, next))
  }

  function FlushAll(b: Builder): (Builder, map<Key, Candle>) {
    (b.(current := map[], lastAcceptedSourceTsMs := map[]), b.current)
  }

  // ---------------------------------------------------------------- runs

  function Run(b: Builder, ticks: seq<Tick>): Builder {
    if |ticks| == 0 then b else Ingest(Run(b, ticks[..|ticks| - 1]), ticks[|ticks| - 1]).0
  }

  /** The candles of one key that closed during a run, in the order they closed. */
  function Closed(b: Builder, ticks: seq<Tick>, key: Key): seq<Candle> {
    if |ticks| == 0 then []
    else
      var rest, last := ticks[..|ticks| - 1], ticks[|ticks| - 1];
      var r := Ingest(Run(b, rest), last).1;
      Closed(b, rest, key) + if r.Accepted? && r.closed.Some? && KeyOf(last) == key then [r.closed.value] else []
  }

  function Open(b: Builder, key: Key): seq<Candle> {
    if key in b.current then [b.current[key]] else []
  }

  // ---------------------------------------------------------------- the batch reference

  /** A tick that can be accepted: no blocking warning, every field, a positive price, some volume, a real date. */
  predicate Valid(t: Tick) {
    && t.parseWarnings * BLOCKING == {} && Usable(t)
    && t.price.value > 0 && t.tradeVolume.value != 0
  }

  function Ms(t: Tick): int {
    if t.sourceTs.AtMs? then t.sourceTs.ms else 0
  }

  predicate Ordered(ticks: seq<Tick>) {
    forall i, j :: 0 <= i < j < |ticks| ==> Ms(ticks[i]) <= Ms(ticks[j])
  }

  /** The ticks of one key that count: valid, and not older than the one accepted before. */
  function AcceptedOf(ticks: seq<Tick>, key: Key): seq<Tick> {
    if |ticks| == 0 then []
    else
      var rest, last := AcceptedOf(ticks[..|ticks| - 1], key), ticks[|ticks| - 1];
      if Valid(last) && KeyOf(last) == key && (rest == [] || Ms(last) >= Ms(rest[|rest| - 1]))
      then rest + [last]
      else rest
  }

  predicate Good(acc: seq<Tick>, key: Key) {
    Ordered(acc) && AllUsable(acc) && forall i :: 0 <= i < |acc| ==> KeyOf(acc[i]) == key
  }

  function BucketOf(t: Tick): int
    requires Usable(t)
  {
    FloorToKstMinute(t.sourceTs.ms)
  }

  predicate AllUsable(ticks: seq<Tick>) {
    forall i :: 0 <= i < |ticks| ==> Usable(ticks[i])
  }

  /** The ticks of a bucket, in order. */
  function InBucket(ticks: seq<Tick>, bucket: int): (r: seq<Tick>)
    requires AllUsable(ticks)
    ensures AllUsable(r) && forall t :: t in r <==> t in ticks && BucketOf(t) == bucket
  {
    if |ticks| == 0 then []
    else
      var rest, last := InBucket(ticks[..|ticks| - 1], bucket), ticks[|ticks| - 1];
      assert ticks == ticks[..|ticks| - 1] + [last];
      if BucketOf(last) == bucket then rest + [last] else rest
  }

  function MaxPrice(ticks: seq<Tick>): (p: int)
    requires |ticks| > 0 && AllUsable(ticks)
    ensures forall t :: t in ticks ==> t.price.value <= p
    ensures exists t :: t in ticks && t.price.value == p
  {
    var rest, last := ticks[..|ticks| - 1], ticks[|ticks| - 1];
    assert ticks == rest + [last] && last in ticks;
    if |rest| == 0 then last.price.value
    else
      var before := MaxPrice(rest);
      assert forall t :: t in rest ==> t in ticks;
      if last.price.value > before then last.price.value else before
  }

  function MinPrice(ticks: seq<Tick>): (p: int)
    requires |ticks| > 0 && AllUsable(ticks)
    ensures forall t :: t in ticks ==> p <= t.price.value
    ensures exists t :: t in ticks && t.price.value == p
  {
    var rest, last := ticks[..|ticks| - 1], ticks[|ticks| - 1];
    assert ticks == rest + [last] && last in ticks;
    if |rest| == 0 then last.price.value
    else
      var before := MinPrice(rest);
      assert forall t :: t in rest ==> t in ticks;
      if last.price.value < before then last.price.value else before
  }

  function TradedVolume(ticks: seq<Tick>): int
    requires AllUsable(ticks)
  {
    if |ticks| == 0 then 0 else TradedVolume(ticks[..|ticks| - 1]) + Abs(ticks[|ticks| - 1].tradeVolume.value)
  }

  /** The cumulative volumes that are present. */
  function Cumulatives(ticks: seq<Tick>): seq<int> {
    if |ticks| == 0 then []
    else
      Cumulatives(ticks[..|ticks| - 1])
      + if ticks[|ticks| - 1].cumulativeVolume.Some? then [ticks[|ticks| - 1].cumulativeVolume.value] else []
  }

  /** How many times a value is smaller than the one before it. */
  function Descents(values: seq<int>): int {
    if |values| < 2 then 0
    else Descents(values[..|values| - 1]) + if values[|values| - 1] < values[|values| - 2] then 1 else 0
  }

  function LastOf(values: seq<int>): Option<int> {
    if |values| == 0 then None else Some(values[|values| - 1])
  }

  /** The candle of the ticks of one minute. */
  function Summarise(ticks: seq<Tick>): Candle
    requires |ticks| > 0 && AllUsable(ticks)
  {
    var first, last := ticks[0], ticks[|ticks| - 1];
    Candle(KeyOf(first), BucketOf(first), BucketOf(first) + MINUTE_MS,
           first.price.value, MaxPrice(ticks), MinPrice(ticks), last.price.value,
           TradedVolume(ticks), |ticks|, first.sourceTs.ms, last.sourceTs.ms,
           first.cumulativeVolume, LastOf(Cumulatives(ticks)), Descents(Cumulatives(ticks)))
  }

  /** The per-minute grouping of ticks: each bucket that occurs, summarised over all its ticks. */
  function Group(ticks: seq<Tick>): seq<Candle>
    requires AllUsable(ticks)
    decreases |ticks|
  {
    if |ticks| == 0 then []
    else
      var bucket := BucketOf(ticks[|ticks| - 1]);
      var earlier, own := Others(ticks, bucket), InBucket(ticks, bucket);
      assert ticks[|ticks| - 1] in own;
      Group(earlier) + [Summarise(own)]
  }

  function Others(ticks: seq<Tick>, bucket: int): (r: seq<Tick>)
    requires AllUsable(ticks)
    ensures AllUsable(r) && |r| <= |ticks|
    ensures |ticks| > 0 && BucketOf(ticks[|ticks| - 1]) == bucket ==> |r| < |ticks|
    ensures forall t :: t in r <==> t in ticks && BucketOf(t) != bucket
  {
    if |ticks| == 0 then []
    else
      var rest, last := Others(ticks[..|ticks| - 1], bucket), ticks[|ticks| - 1];
      assert ticks == ticks[..|ticks| - 1] + [last];
      if BucketOf(last) != bucket then rest + [last] else rest
  }

  // ---------------------------------------------------------------- one more tick

  lemma SummariseOne(t: Tick)
    requires Usable(t)
    ensures AllUsable([t]) && Summarise([t]) == OpenCandle(t)
  {
    hide FloorToKstMinute;
    assert [t][..0] == [];
    assert Cumulatives([t]) == [] + if t.cumulativeVolume.Some? then [t.cumulativeVolume.value] else [];
    assert MaxPrice([t]) == t.price.value && MinPrice([t]) == t.price.value;
    assert TradedVolume([t]) == Abs(t.tradeVolume.value);
  }

  lemma CumulativesSnoc(ticks: seq<Tick>, t: Tick)
    ensures var before, after := Cumulatives(ticks), Cumulatives(ticks + [t]);
            && LastOf(after) == OrElse(t.cumulativeVolume, LastOf(before))
            && Descents(after) == Descents(before)
                 + if t.cumulativeVolume.Some? && LastOf(before).Some? && t.cumulativeVolume.value < LastOf(before).value then 1 else 0
  {
    assert (ticks + [t])[..|ticks|] == ticks;
    var before, after := Cumulatives(ticks), Cumulatives(ticks + [t]);
    if t.cumulativeVolume.Some? {
      assert after == before + [t.cumulativeVolume.value];
      assert after[..|before|] == before;
    } else {
      assert after == before;
    }
  }

  lemma SummariseMore(ticks: seq<Tick>, t: Tick)
    requires |ticks| > 0 && AllUsable(ticks) && Usable(t)
    ensures AllUsable(ticks + [t]) && Summarise(ticks + [t]) == UpdateCandle(Summarise(ticks), t)
  {
    hide FloorToKstMinute, Cumulatives, Descents, LastOf;
    assert (ticks + [t])[..|ticks|] == ticks;
    CumulativesSnoc(ticks, t);
  }

  lemma {:induction false} SameBucketSplit(ticks: seq<Tick>, t: Tick, bucket: int)
    requires AllUsable(ticks) && Usable(t)
    ensures InBucket(ticks + [t], bucket) == InBucket(ticks, bucket) + if BucketOf(t) == bucket then [t] else []
    ensures Others(ticks + [t], bucket) == Others(ticks, bucket) + if BucketOf(t) != bucket then [t] else []
  {
    assert (ticks + [t])[..|ticks|] == ticks;
  }

  lemma {:induction false} NoneInBucket(ticks: seq<Tick>, bucket: int)
    requires AllUsable(ticks) && forall t :: t in ticks ==> BucketOf(t) != bucket
    ensures InBucket(ticks, bucket) == [] && Others(ticks, bucket) == ticks
  {
    if |ticks| > 0 {
      NoneInBucket(ticks[..|ticks| - 1], bucket);
      assert ticks == ticks[..|ticks| - 1] + [ticks[|ticks| - 1]];
    }
  }

  lemma GroupLast(acc: seq<Tick>, earlier: seq<Tick>, own: seq<Tick>, bucket: int)
    requires AllUsable(acc) && acc != [] && BucketOf(acc[|acc| - 1]) == bucket
    requires earlier == Others(acc, bucket) && own == InBucket(acc, bucket)
    ensures own != [] && Group(acc) == Group(earlier) + [Summarise(own)]
  {
    hide FloorToKstMinute, Summarise;
    assert acc[|acc| - 1] in own;
  }

  /** A tick of the last bucket updates the last candle; a tick of a later bucket opens a new one. */
  lemma GroupSnoc(acc: seq<Tick>, t: Tick, key: Key)
    requires Good(acc, key) && Usable(t) && KeyOf(t) == key
    requires acc != [] ==> Ms(acc[|acc| - 1]) <= Ms(t)
    ensures AllUsable(acc + [t])
    ensures acc == [] ==> Group(acc + [t]) == [OpenCandle(t)]
    ensures acc != [] && BucketOf(acc[|acc| - 1]) != BucketOf(t) ==> Group(acc + [t]) == Group(acc) + [OpenCandle(t)]
    ensures acc != [] && BucketOf(acc[|acc| - 1]) == BucketOf(t) ==>
              |Group(acc)| > 0
              && Group(acc + [t]) == Group(acc)[..|Group(acc)| - 1] + [UpdateCandle(Group(acc)[|Group(acc)| - 1], t)]
  {
    hide FloorToKstMinute, Summarise, UpdateCandle, OpenCandle, Group, InBucket, Others, BucketOf;
    var bucket := BucketOf(t);
    var earlier, own := Others(acc, bucket), InBucket(acc, bucket);
    SameBucketSplit(acc, t, bucket);
    if acc != [] && BucketOf(acc[|acc| - 1]) == bucket {
      GroupLast(acc, earlier, own, bucket);
      GroupLast(acc + [t], earlier, own + [t], bucket);
      SummariseMore(own, t);
    } else {
      LaterBucket(acc, t, key);
      NoneInBucket(acc, bucket);
      GroupLast(acc + [t], acc, [t], bucket);
      SummariseOne(t);
      NoGroups();
    }
  }

  lemma LaterBucket(acc: seq<Tick>, t: Tick, key: Key)
    requires Good(acc, key) && Usable(t)
    requires acc != [] ==> Ms(acc[|acc| - 1]) <= Ms(t) && BucketOf(acc[|acc| - 1]) != BucketOf(t)
    ensures forall x :: x in acc ==> BucketOf(x) < BucketOf(t)
  {
    hide FloorToKstMinute;
    if acc != [] {
      var last := acc[|acc| - 1];
      FloorMonotone(last.sourceTs.ms, t.sourceTs.ms);
      forall x | x in acc ensures BucketOf(x) < BucketOf(t) {
        FloorMonotone(x.sourceTs.ms, last.sourceTs.ms);
      }
    }
  }

  // ---------------------------------------------------------------- streaming equals batch

  /** A builder that has just started or flushed. */
  predicate Fresh(b: Builder) {
    b.current == map[] && b.lastAcceptedSourceTsMs == map[]
  }

  ghost predicate Tracks(b: Builder, acc: seq<Tick>, key: Key) {
    && (key in b.current <==> acc != []) && (key in b.lastAcceptedSourceTsMs <==> acc != [])
    && (acc != [] ==>
          && Usable(acc[|acc| - 1])
          && b.lastAcceptedSourceTsMs[key] == acc[|acc| - 1].sourceTs.ms
          && b.current[key].bucketStart == BucketOf(acc[|acc| - 1]))
  }

  lemma {:induction false} AcceptedIsGood(ticks: seq<Tick>, key: Key)
    ensures Good(AcceptedOf(ticks, key), key)
  {
    if |ticks| > 0 {
      AcceptedIsGood(ticks[..|ticks| - 1], key);
    }
  }

  /** A tick is accepted exactly when it joins the accepted ticks of its key, whatever other keys received. */
  lemma AcceptedExactlyWhen(b: Builder, acc: seq<Tick>, t: Tick)
    requires Tracks(b, acc, KeyOf(t))
    ensures Ingest(b, t).1.Accepted? <==> Valid(t) && (acc == [] || Ms(t) >= Ms(acc[|acc| - 1]))
  {
    hide FloorToKstMinute, UpdateCandle, OpenCandle;
  }

  /** An accepted tick keeps the tracking and moves exactly one candle from open to closed when its minute is new. */
  lemma IngestTracks(b: Builder, acc: seq<Tick>, t: Tick, key: Key)
    requires Tracks(b, acc, key) && KeyOf(t) == key && Valid(t) && Ingest(b, t).1.Accepted?
    ensures Tracks(Ingest(b, t).0, acc + [t], key)
    ensures var (c, r) := Ingest(b, t);
            && Open(c, key) == [r.current]
            && (if acc == [] then r.closed == None && r.current == OpenCandle(t)
                else if BucketOf(acc[|acc| - 1]) == BucketOf(t) then r.closed == None && r.current == UpdateCandle(b.current[key], t)
                else r.closed == Some(b.current[key]) && r.current == OpenCandle(t))
  {
    hide FloorToKstMinute;
  }

  /** A tick that is not accepted, or is of another key, leaves the candle of this key alone. */
  lemma IngestLeaves(b: Builder, t: Tick, key: Key)
    requires KeyOf(t) != key || !Ingest(b, t).1.Accepted?
    ensures Open(Ingest(b, t).0, key) == Open(b, key)
    ensures forall acc :: Tracks(b, acc, key) ==> Tracks(Ingest(b, t).0, acc, key)
  {
    hide FloorToKstMinute, UpdateCandle, OpenCandle;
  }

  /**
   * Between flushes, for any interleaving of ticks of any keys: the candles of a key that have closed,
   * followed by its open one, are the per-minute grouping of its accepted ticks.
   */
  lemma {:induction false} StreamingIsBatch(b: Builder, ticks: seq<Tick>, key: Key)
    requires Fresh(b)
    ensures AllUsable(AcceptedOf(ticks, key))
    ensures Tracks(Run(b, ticks), AcceptedOf(ticks, key), key)
    ensures Closed(b, ticks, key) + Open(Run(b, ticks), key) == Group(AcceptedOf(ticks, key))
    decreases |ticks|
  {
    hide Ingest, Group, Tracks, Valid, UpdateCandle, OpenCandle, FloorToKstMinute;
    AcceptedIsGood(ticks, key);
    if |ticks| == 0 {
      assert Tracks(b, [], key) by { FreshTracks(b, key); }
      assert Group([]) == [] by { NoGroups(); }
    } else {
      var rest, t := ticks[..|ticks| - 1], ticks[|ticks| - 1];
      var acc, mid := AcceptedOf(rest, key), Run(b, rest);
      StreamingIsBatch(b, rest, key);
      if KeyOf(t) == key {
        AcceptedExactlyWhen(mid, acc, t);
      }
      if KeyOf(t) == key && Ingest(mid, t).1.Accepted? {
        ValidIsUsable(t);
        IngestTracks(mid, acc, t, key);
        AcceptedIsGood(rest, key);
        GroupSnoc(acc, t, key);
        OneMore(Closed(b, rest, key), mid, acc, t, key);
      } else {
        IngestLeaves(mid, t, key);
        assert Closed(b, ticks, key) == Closed(b, rest, key);
      }
    }
  }

  lemma FreshTracks(b: Builder, key: Key)
    requires Fresh(b)
    ensures Tracks(b, [], key) && Open(b, key) == []
  {
  }

  lemma NoGroups()
    ensures Group([]) == []
  {
  }

  lemma ValidIsUsable(t: Tick)
    requires Valid(t)
    ensures Usable(t)
  {
  }

  lemma OneMore(closed: seq<Candle>, b: Builder, acc: seq<Tick>, t: Tick, key: Key)
    requires Good(acc, key) && AllUsable(acc + [t]) && Tracks(b, acc, key) && KeyOf(t) == key && Valid(t)
    requires acc != [] ==> Ms(acc[|acc| - 1]) <= Ms(t)
    requires closed + Open(b, key) == Group(acc) && Ingest(b, t).1.Accepted?
    ensures var (c, r) := Ingest(b, t);
            (closed + if r.closed.Some? then [r.closed.value] else []) + Open(c, key) == Group(acc + [t])
  {
    hide Ingest, Group, Valid, UpdateCandle, OpenCandle, FloorToKstMinute;
    ValidIsUsable(t);
    IngestTracks(b, acc, t, key);
    GroupSnoc(acc, t, key);
    if acc == [] {
      NoGroups();
      assert closed == [];
    }
  }

  // ---------------------------------------------------------------- what the grouping is

  lemma GoodUnsnoc(acc: seq<Tick>, key: Key)
    requires Good(acc, key) && acc != []
    ensures var rest, last := acc[..|acc| - 1], acc[|acc| - 1];
            Good(rest, key) && acc == rest + [last] && forall x :: x in rest ==> Ms(x) <= Ms(last)
  {
  }

  lemma GoodSnoc(rest: seq<Tick>, last: Tick, key: Key)
    requires Good(rest, key) && Usable(last) && KeyOf(last) == key && forall x :: x in rest ==> Ms(x) <= Ms(last)
    ensures Good(rest + [last], key)
  {
    assert forall i :: 0 <= i < |rest| ==> rest[i] in rest;
  }

  lemma {:induction false} OthersGood(acc: seq<Tick>, bucket: int, key: Key)
    requires Good(acc, key)
    ensures Good(Others(acc, bucket), key)
    decreases |acc|
  {
    hide BucketOf, Good, Ms;
    if |acc| > 0 {
      var rest, last := acc[..|acc| - 1], acc[|acc| - 1];
      GoodUnsnoc(acc, key);
      OthersGood(rest, bucket, key);
      assert KeyOf(last) == key && Usable(last) by { GoodMember(acc, |acc| - 1, key); }
      if BucketOf(last) != bucket {
        GoodSnoc(Others(rest, bucket), last, key);
      }
    }
  }

  lemma GoodMember(acc: seq<Tick>, i: int, key: Key)
    requires Good(acc, key) && 0 <= i < |acc|
    ensures Usable(acc[i]) && KeyOf(acc[i]) == key
  {
  }

  lemma OthersEarlier(acc: seq<Tick>, key: Key)
    requires Good(acc, key) && acc != []
    ensures var bucket := BucketOf(acc[|acc| - 1]); forall t :: t in Others(acc, bucket) ==> BucketOf(t) < bucket
  {
    hide FloorToKstMinute;
    var last := acc[|acc| - 1];
    forall t | t in Others(acc, BucketOf(last)) ensures BucketOf(t) < BucketOf(last) {
      var i :| 0 <= i < |acc| && acc[i] == t;
      FloorMonotone(t.sourceTs.ms, last.sourceTs.ms);
    }
  }

  lemma {:induction false} OthersInBucket(ticks: seq<Tick>, skipped: int, bucket: int)
    requires AllUsable(ticks) && skipped != bucket
    ensures InBucket(Others(ticks, skipped), bucket) == InBucket(ticks, bucket)
  {
    hide FloorToKstMinute;
    if |ticks| > 0 {
      var rest, last := ticks[..|ticks| - 1], ticks[|ticks| - 1];
      OthersInBucket(rest, skipped, bucket);
      if BucketOf(last) != skipped {
        SameBucketSplit(Others(rest, skipped), last, bucket);
      }
    }
  }

  /** The summary of all ticks of a bucket, when there are any. */
  ghost predicate IsSummaryOf(c: Candle, acc: seq<Tick>)
    requires AllUsable(acc)
  {
    var own := InBucket(acc, c.bucketStart);
    own != [] && c == Summarise(own)
  }

  /**
   * The grouping of accepted ticks has strictly increasing buckets, one for every minute with a tick,
   * each summarising all ticks of its minute.
   */
  lemma {:induction false} GroupIsGrouping(acc: seq<Tick>, key: Key)
    requires Good(acc, key)
    ensures forall i, j :: 0 <= i < j < |Group(acc)| ==> Group(acc)[i].bucketStart < Group(acc)[j].bucketStart
    ensures forall c :: c in Group(acc) ==> IsSummaryOf(c, acc)
    ensures forall t :: t in acc ==> exists c :: c in Group(acc) && c.bucketStart == BucketOf(t)
    decreases |acc|
  {
    hide FloorToKstMinute, Summarise;
    if acc != [] {
      var last := acc[|acc| - 1];
      var bucket := BucketOf(last);
      var others, own := Others(acc, bucket), InBucket(acc, bucket);
      OthersGood(acc, bucket, key);
      OthersEarlier(acc, key);
      GroupIsGrouping(others, key);
      assert last in own;
      SummaryBucket(own, bucket);
      var groups := Group(others);
      assert Group(acc) == groups + [Summarise(own)];
      forall c | c in groups ensures c.bucketStart < bucket && IsSummaryOf(c, acc) {
        OldGroup(acc, bucket, c);
      }
      forall t | t in acc ensures exists c :: c in Group(acc) && c.bucketStart == BucketOf(t) {
        if BucketOf(t) == bucket {
          assert Summarise(own) in Group(acc);
        } else {
          assert t in others;
          var c :| c in groups && c.bucketStart == BucketOf(t);
          assert c in Group(acc);
        }
      }
    }
  }

  lemma SummaryBucket(own: seq<Tick>, bucket: int)
    requires AllUsable(own) && own != [] && forall t :: t in own ==> BucketOf(t) == bucket
    ensures Summarise(own).bucketStart == bucket
  {
    hide FloorToKstMinute;
    assert own[0] in own;
  }

  lemma OldGroup(acc: seq<Tick>, bucket: int, c: Candle)
    requires AllUsable(acc) && IsSummaryOf(c, Others(acc, bucket)) && forall t :: t in Others(acc, bucket) ==> BucketOf(t) < bucket
    ensures c.bucketStart < bucket && IsSummaryOf(c, acc)
  {
    hide FloorToKstMinute, Summarise;
    var own := InBucket(Others(acc, bucket), c.bucketStart);
    assert own[0] in own;
    OthersInBucket(acc, bucket, c.bucketStart);
  }

  function CandleVolume(candles: seq<Candle>): int {
    if |candles| == 0 then 0 else CandleVolume(candles[..|candles| - 1]) + candles[|candles| - 1].volume
  }

  function CandleTicks(candles: seq<Candle>): int {
    if |candles| == 0 then 0 else CandleTicks(candles[..|candles| - 1]) + candles[|candles| - 1].tickCount
  }

  lemma {:induction false} SplitConserves(ticks: seq<Tick>, bucket: int)
    requires AllUsable(ticks)
    ensures TradedVolume(ticks) == TradedVolume(Others(ticks, bucket)) + TradedVolume(InBucket(ticks, bucket))
    ensures |ticks| == |Others(ticks, bucket)| + |InBucket(ticks, bucket)|
  {
    hide FloorToKstMinute;
    if |ticks| > 0 {
      var rest, last := ticks[..|ticks| - 1], ticks[|ticks| - 1];
      SplitConserves(rest, bucket);
      assert (Others(rest, bucket) + [last])[..|Others(rest, bucket)|] == Others(rest, bucket);
      assert (InBucket(rest, bucket) + [last])[..|InBucket(rest, bucket)|] == InBucket(rest, bucket);
    }
  }

  /** Grouping loses no volume and no tick. */
  lemma {:induction false} GroupConserves(acc: seq<Tick>)
    requires AllUsable(acc)
    ensures CandleVolume(Group(acc)) == TradedVolume(acc) && CandleTicks(Group(acc)) == |acc|
    decreases |acc|
  {
    hide FloorToKstMinute, MaxPrice, MinPrice, Cumulatives, Descents;
    if acc != [] {
      var bucket := BucketOf(acc[|acc| - 1]);
      var others, own := Others(acc, bucket), InBucket(acc, bucket);
      assert acc[|acc| - 1] in own;
      GroupConserves(others);
      SplitConserves(acc, bucket);
      var groups := Group(others);
      assert (groups + [Summarise(own)])[..|groups|] == groups;
    }
  }

  /** Prices of a candle lie between its low and its high; its times lie in its bucket exactly when they are after the KST epoch. */
  lemma CandleInvariant(own: seq<Tick>, key: Key, bucket: int)
    requires Good(own, key) && own != [] && forall t :: t in own ==> BucketOf(t) == bucket
    ensures var c := Summarise(own);
            && c.low <= c.open <= c.high && c.low <= c.close <= c.high
            && c.firstSourceTs <= c.lastSourceTs && c.bucketEnd == c.bucketStart + MINUTE_MS
            && (c.bucketStart <= c.firstSourceTs && c.lastSourceTs < c.bucketEnd
                <==> AfterKstEpoch(c.firstSourceTs) && AfterKstEpoch(c.lastSourceTs))
  {
    hide FloorToKstMinute, MaxPrice, MinPrice, AfterKstEpoch;
    var first, last := own[0], own[|own| - 1];
    assert first in own && last in own;
    BucketContainsExactlyWhen(first.sourceTs.ms);
    BucketContainsExactlyWhen(last.sourceTs.ms);
  }

  ghost predicate SoundCandle(c: Candle) {
    && c.low <= c.open <= c.high && c.low <= c.close <= c.high
    && c.firstSourceTs <= c.lastSourceTs && c.bucketEnd == c.bucketStart + MINUTE_MS
    && (c.bucketStart <= c.firstSourceTs && c.lastSourceTs < c.bucketEnd
        <==> AfterKstEpoch(c.firstSourceTs) && AfterKstEpoch(c.lastSourceTs))
  }

  /**
   * The candles a run produces for a key: strictly increasing minutes, no volume and no accepted tick
   * lost, and each candle the summary of all accepted ticks of its minute, with its prices between its
   * low and its high, and its times in its bucket exactly when they are after the KST epoch.
   */
  lemma StreamedCandles(b: Builder, ticks: seq<Tick>, key: Key)
    requires Fresh(b)
    ensures AllUsable(AcceptedOf(ticks, key))
    ensures var acc, all := AcceptedOf(ticks, key), Closed(b, ticks, key) + Open(Run(b, ticks), key);
            && CandleVolume(all) == TradedVolume(acc) && CandleTicks(all) == |acc|
            && (forall i, j :: 0 <= i < j < |all| ==> all[i].bucketStart < all[j].bucketStart)
            && (forall c :: c in all ==> IsSummaryOf(c, acc) && SoundCandle(c))
  {
    hide Group, AcceptedOf, Closed, Run, Open, TradedVolume, CandleVolume, CandleTicks, Good, Tracks, SoundCandle, InBucket, Summarise;
    var acc := AcceptedOf(ticks, key);
    StreamingIsBatch(b, ticks, key);
    AcceptedIsGood(ticks, key);
    assert AllUsable(acc) by { GoodUsable(acc, key); }
    GroupIsGrouping(acc, key);
    GroupConserves(acc);
    forall c | c in Group(acc) ensures SoundCandle(c) {
      SummarySound(acc, key, c);
    }
  }

  lemma GoodUsable(acc: seq<Tick>, key: Key)
    requires Good(acc, key)
    ensures AllUsable(acc)
  {
  }

  lemma {:induction false} InBucketGood(acc: seq<Tick>, bucket: int, key: Key)
    requires Good(acc, key)
    ensures Good(InBucket(acc, bucket), key)
    decreases |acc|
  {
    hide BucketOf, Good, Ms;
    GoodUsable(acc, key);
    if |acc| > 0 {
      var rest, last := acc[..|acc| - 1], acc[|acc| - 1];
      GoodUnsnoc(acc, key);
      GoodUsable(rest, key);
      InBucketGood(rest, bucket, key);
      GoodMember(acc, |acc| - 1, key);
      if BucketOf(last) == bucket {
        GoodSnoc(InBucket(rest, bucket), last, key);
      }
    } else {
      assert Good([], key) by { GoodEmpty(key); }
    }
  }

  lemma GoodEmpty(key: Key)
    ensures Good([], key)
  {
  }

  lemma SummarySound(acc: seq<Tick>, key: Key, c: Candle)
    requires Good(acc, key) && IsSummaryOf(c, acc)
    ensures SoundCandle(c)
  {
    hide BucketOf, Good, Ms, Summarise;
    GoodUsable(acc, key);
    InBucketGood(acc, c.bucketStart, key);
    CandleInvariant(InBucket(acc, c.bucketStart), key, c.bucketStart);
  }

  // ---------------------------------------------------------------- flushes

  /** The candles of one key a flush hands out. */
  function Flushed(b: Builder, key: Key): seq<Candle> {
    var out := FlushAll(b).1;
    if key in out then [out[key]] else []
  }

  /** The builder after sessions of ticks with a flush at the end of each. */
  function AfterSessions(b: Builder, sessions: seq<seq<Tick>>): Builder {
    if |sessions| == 0 then b
    else FlushAll(Run(AfterSessions(b, sessions[..|sessions| - 1]), sessions[|sessions| - 1])).0
  }

  /** Every candle of a key that sessions hand out, when it closes or at the flush, in order. */
  function HandedOut(b: Builder, sessions: seq<seq<Tick>>, key: Key): seq<Candle> {
    if |sessions| == 0 then []
    else
      var before, ticks := AfterSessions(b, sessions[..|sessions| - 1]), sessions[|sessions| - 1];
      HandedOut(b, sessions[..|sessions| - 1], key) + Closed(before, ticks, key) + Flushed(Run(before, ticks), key)
  }

  /** The per-minute grouping of every session on its own. */
  ghost predicate Grouped(sessions: seq<seq<Tick>>, key: Key, candles: seq<Candle>)
    decreases |sessions|
  {
    if |sessions| == 0 then candles == []
    else
      var acc := AcceptedOf(sessions[|sessions| - 1], key);
      AllUsable(acc) && |Group(acc)| <= |candles|
      && candles[|candles| - |Group(acc)|..] == Group(acc)
      && Grouped(sessions[..|sessions| - 1], key, candles[..|candles| - |Group(acc)|])
  }

  lemma FlushHandsOut(b: Builder, ticks: seq<Tick>, key: Key)
    requires Fresh(b)
    ensures Fresh(FlushAll(Run(b, ticks)).0)
    ensures AllUsable(AcceptedOf(ticks, key))
    ensures Closed(b, ticks, key) + Flushed(Run(b, ticks), key) == Group(AcceptedOf(ticks, key))
  {
    hide Run, Closed, AcceptedOf, Group, Tracks;
    StreamingIsBatch(b, ticks, key);
  }

  /**
   * Over any number of sessions each ended by a flush, the candles handed out for a key, closed or
   * flushed, are the per-minute groupings of the accepted ticks of the sessions, one after the other:
   * a flush loses no open candle, hands none out twice and leaves nothing behind for the next session.
   */
  lemma {:induction false} FlushedSessionsAreBatches(b: Builder, sessions: seq<seq<Tick>>, key: Key)
    requires Fresh(b)
    ensures Fresh(AfterSessions(b, sessions))
    ensures Grouped(sessions, key, HandedOut(b, sessions, key))
    decreases |sessions|
  {
    hide Run, Closed, Flushed, AcceptedOf, Group, FlushAll;
    if |sessions| > 0 {
      var rest, ticks := sessions[..|sessions| - 1], sessions[|sessions| - 1];
      FlushedSessionsAreBatches(b, rest, key);
      FlushHandsOut(AfterSessions(b, rest), ticks, key);
      var earlier, group := HandedOut(b, rest, key), Group(AcceptedOf(ticks, key));
      assert HandedOut(b, sessions, key) == earlier + group;
      assert (earlier + group)[|earlier|..] == group && (earlier + group)[..|earlier|] == earlier;
    }
  }

  // ---------------------------------------------------------------- rejections

  /** Why a tick is turned away, told from the tick and the latest accepted time of its key alone. */
  ghost predicate TurnedAway(t: Tick, latest: Option<int>, r: Rejection) {
    match r
    case ParseWarning => "missing-price" in t.parseWarnings || "missing-trade-volume" in t.parseWarnings || "missing-source-ts" in t.parseWarnings
    case MissingRequiredField => t.price.None? || t.tradeVolume.None? || t.sourceTs.NoTs?
    case InvalidPrice => t.price.Some? && t.price.value <= 0
    case InvalidVolume => t.tradeVolume == Some(0)
    case StaleTick => t.sourceTs.AtMs? && latest.Some? && t.sourceTs.ms < latest.value
  }

  const REASONS := [ParseWarning, MissingRequiredField, InvalidPrice, InvalidVolume, StaleTick]

  /** A tick is rejected with the first reason, in this order, that applies; a date that is none raises before a stale one. */
  lemma RejectedForFirstReason(b: Builder, t: Tick, i: nat)
    requires i < |REASONS|
    ensures var latest := if KeyOf(t) in b.lastAcceptedSourceTsMs then Some(b.lastAcceptedSourceTsMs[KeyOf(t)]) else None;
            Ingest(b, t).1 == Rejected(REASONS[i])
            <==> TurnedAway(t, latest, REASONS[i]) && forall j :: 0 <= j < i ==> !TurnedAway(t, latest, REASONS[j])
  {
    hide FloorToKstMinute, UpdateCandle, OpenCandle, TurnedAway;
    var latest := if KeyOf(t) in b.lastAcceptedSourceTsMs then Some(b.lastAcceptedSourceTsMs[KeyOf(t)]) else None;
    RejectionCascade(b, t, latest);
    assert REASONS[0] == ParseWarning && REASONS[1] == MissingRequiredField && REASONS[2] == InvalidPrice;
    assert REASONS[3] == InvalidVolume && REASONS[4] == StaleTick;
  }

  lemma RejectionCascade(b: Builder, t: Tick, latest: Option<int>)
    requires latest == if KeyOf(t) in b.lastAcceptedSourceTsMs then Some(b.lastAcceptedSourceTsMs[KeyOf(t)]) else None
    ensures var result := Ingest(b, t).1;
            if TurnedAway(t, latest, ParseWarning) then result == Rejected(ParseWarning)
            else if TurnedAway(t, latest, MissingRequiredField) then result == Rejected(MissingRequiredField)
            else if TurnedAway(t, latest, InvalidPrice) then result == Rejected(InvalidPrice)
            else if TurnedAway(t, latest, InvalidVolume) then result == Rejected(InvalidVolume)
            else if TurnedAway(t, latest, StaleTick) then result == Rejected(StaleTick)
            else !result.Rejected?
  {
    hide FloorToKstMinute, UpdateCandle, OpenCandle;
    BlockingWarnings(t.parseWarnings);
  }

  lemma BlockingWarnings(warnings: set<string>)
    ensures warnings * BLOCKING != {} <==>
              "missing-price" in warnings || "missing-trade-volume" in warnings || "missing-source-ts" in warnings
  {
    forall w | w in BLOCKING && w in warnings ensures w in warnings * BLOCKING {
    }
    if warnings * BLOCKING != {} {
      var w :| w in warnings * BLOCKING;
      assert w in BLOCKING;
    }
  }

  function RejectedFor(b: Builder, ticks: seq<Tick>, reason: Rejection): nat {
    if |ticks| == 0 then 0
    else
      RejectedFor(b, ticks[..|ticks| - 1], reason)
      + if Ingest(Run(b, ticks[..|ticks| - 1]), ticks[|ticks| - 1]).1 == Rejected(reason) then 1 else 0
  }

  /** The counters count the rejected ticks, reason by reason. */
  lemma {:induction false} RejectionsCounted(b: Builder, ticks: seq<Tick>, reason: Rejection)
    ensures CountOf(Run(b, ticks), reason) == CountOf(b, reason) + RejectedFor(b, ticks, reason)
  {
    hide Ingest, CountOf;
    if |ticks| > 0 {
      RejectionsCounted(b, ticks[..|ticks| - 1], reason);
      IngestCounts(Run(b, ticks[..|ticks| - 1]), ticks[|ticks| - 1], reason);
    }
  }

  function CountOf(b: Builder, reason: Rejection): int {
    if reason in b.rejections then b.rejections[reason] else 0
  }

  lemma IngestCounts(b: Builder, t: Tick, reason: Rejection)
    ensures CountOf(Ingest(b, t).0, reason) == CountOf(b, reason) + if Ingest(b, t).1 == Rejected(reason) then 1 else 0
  {
    hide Ingest;
    RejectsOrNot(b, t);
  }

  /** Only a rejection with a reason touches a counter, and its own. */
  lemma RejectsOrNot(b: Builder, t: Tick)
    ensures var (after, result) := Ingest(b, t);
            if result.Rejected? then (after, result) == Reject(b, result.reason) else after.rejections == b.rejections
  {
    hide FloorToKstMinute, UpdateCandle, OpenCandle;
  }

  // ---------------------------------------------------------------- the service

  class CandleBuilderService {
    var current: map<Key, Candle>
    var lastAcceptedSourceTsMs: map<Key, int>
    var rejections: map<Rejection, int>

    function State(): Builder
      reads this
    {
      Builder(current, lastAcceptedSourceTsMs, rejections)
    }

    constructor ()
      ensures State() == Builder(map[], map[], map[]) && Fresh(State())
    {
      current := map[];
      lastAcceptedSourceTsMs := map[];
      rejections := map[];
    }

    method CountRejection(reason: Rejection) returns (result: Result)
      modifies this
      ensures (State(), result) == Reject(old(State()), reason)
    {
      rejections := rejections[reason := (if reason in rejections then rejections[reason] else 0) + 1];
      result := Rejected(reason);
    }

    method IngestTick(t: Tick) returns (result: Result)
      modifies this
      ensures (State(), result) == Ingest(old(State()), t)
    {
      hide FloorToKstMinute, UpdateCandle, OpenCandle;
      if t.parseWarnings * BLOCKING != {} {
        result := CountRejection(ParseWarning);
        return;
      }
      if t.price.None? || t.tradeVolume.None? || t.sourceTs.NoTs? {
        result := CountRejection(MissingRequiredField);
        return;
      }
      if t.price.value <= 0 {
        result := CountRejection(InvalidPrice);
        return;
      }
      if t.tradeVolume.value == 0 {
        result := CountRejection(InvalidVolume);
        return;
      }
      if t.sourceTs.BadTs? {
        return InvalidDate;
      }
      var key := KeyOf(t);
      if key in lastAcceptedSourceTsMs && t.sourceTs.ms < lastAcceptedSourceTsMs[key] {
        result := CountRejection(StaleTick);
        return;
      }
      var bucketStart := FloorToKstMinute(t.sourceTs.ms);
      var closed: Option<Candle> := None;
      var nextCurrent: Candle;
      if key in current && current[key].bucketStart == bucketStart {
        nextCurrent := UpdateCandle(current[key], t);
      } else {
        if key in current {
          closed := Some(current[key]);
        }
        nextCurrent := OpenCandle(t);
      }
      current := current[key := nextCurrent];
      lastAcceptedSourceTsMs := lastAcceptedSourceTsMs[key := t.sourceTs.ms];
      result := Accepted(closed, nextCurrent);
    }

    /** Detaches every open candle: afterwards the builder is as fresh as a new one, but for its counters. */
    method Flush() returns (out: map<Key, Candle>)
      modifies this
      ensures (State(), out) == FlushAll(old(State())) && Fresh(State())
    {
      out := current;
      current := map[];
      lastAcceptedSourceTsMs := map[];
    }
  }
}
