/**
 * Stored candle rows: merging by bucket, and deriving coarser rows. A stored object is a sequence of
 * rows; what it means is the map from bucket to row, and an object the archive wrote is the sorted
 * form of that map.
 */
module CandleRows {
  import opened Wrappers
  import opened IntSets
  import opened KstTime

  /** Buckets are milliseconds since the epoch, in UTC. */
  datatype Row = Row(bucket: int, open: int, high: int, low: int, close: int, volume: int, tradingValue: Option<int>)

  /** The rows by bucket; of two rows with one bucket the later is kept. */
  function ToMap(rows: seq<Row>): (m: map<int, Row>)
    ensures WellKeyed(m)
    decreases |rows|
  {
    if |rows| == 0 then map[]
    else ToMap(rows[..|rows| - 1])[rows[|rows| - 1].bucket := rows[|rows| - 1]]
  }

  lemma {:induction false} ToMapRows(rows: seq<Row>)
    ensures forall k :: k in ToMap(rows) ==> ToMap(rows)[k] in rows
    ensures forall r :: r in rows ==> r.bucket in ToMap(rows)
    decreases |rows|
  {
    if |rows| > 0 {
      ToMapRows(rows[..|rows| - 1]);
      assert rows == rows[..|rows| - 1] + [rows[|rows| - 1]];
    }
  }

  lemma ToMapSnoc(rows: seq<Row>, last: Row)
    ensures ToMap(rows + [last]) == ToMap(rows)[last.bucket := last]
  {
    assert (rows + [last])[..|rows|] == rows;
  }

  /** Strictly ascending: one row per bucket, in order. */
  predicate Sorted(rows: seq<Row>) {
    forall i, j :: 0 <= i < j < |rows| ==> rows[i].bucket < rows[j].bucket
  }

  predicate Distinct(rows: seq<Row>) {
    forall i, j :: 0 <= i < j < |rows| ==> rows[i].bucket != rows[j].bucket
  }

  predicate WellKeyed(m: map<int, Row>) {
    forall k :: k in m ==> m[k].bucket == k
  }

  /** The rows of a map in bucket order. */
  function FromMap(m: map<int, Row>): (rows: seq<Row>)
    ensures |rows| == |m|
    decreases |m|
  {
    if |m.Keys| == 0 then []
    else
      var top := MaxOf(m.Keys);
      assert |m - {top}| == |m| - 1 by { assert (m - {top}).Keys == m.Keys - {top}; }
      FromMap(m - {top}) + [m[top]]
  }

  lemma {:induction false} FromMapSorted(m: map<int, Row>)
    requires WellKeyed(m)
    ensures Sorted(FromMap(m)) && ToMap(FromMap(m)) == m
    decreases |m|
  {
    hide ToMap;
    if |m.Keys| > 0 {
      var top := MaxOf(m.Keys);
      assert (m - {top}).Keys == m.Keys - {top};
      FromMapSorted(m - {top});
      Append(FromMap(m - {top}), m - {top}, m[top]);
      assert (m - {top})[top := m[top]] == m;
    } else {
      assert m == map[];
      assert ToMap([]) == map[] by { EmptyMap(); }
    }
  }

  lemma EmptyMap()
    ensures ToMap([]) == map[]
  {
  }

  lemma Append(rows: seq<Row>, m: map<int, Row>, last: Row)
    requires Sorted(rows) && ToMap(rows) == m && forall k :: k in m ==> k < last.bucket
    ensures Sorted(rows + [last]) && ToMap(rows + [last]) == m[last.bucket := last]
  {
    hide ToMap;
    ToMapSnoc(rows, last);
    ToMapRows(rows);
    forall i | 0 <= i < |rows| ensures rows[i].bucket < last.bucket {
      assert rows[i] in rows;
    }
  }

  /** A sorted sequence is the only sorted form of what it means. */
  lemma {:induction false} SortedIsFromMap(rows: seq<Row>)
    requires Sorted(rows)
    ensures FromMap(ToMap(rows)) == rows
    decreases |rows|
  {
    hide ToMap;
    if |rows| > 0 {
      var rest, last := rows[..|rows| - 1], rows[|rows| - 1];
      assert rest + [last] == rows;
      SortedIsFromMap(rest);
      ToMapSnoc(rest, last);
      var m := ToMap(rows);
      EarlierKeys(rest, last);
      assert last.bucket in m.Keys;
      assert MaxOf(m.Keys) == last.bucket;
      assert m - {last.bucket} == ToMap(rest);
    } else {
      EmptyMap();
    }
  }

  lemma EarlierKeys(rest: seq<Row>, last: Row)
    requires Sorted(rest + [last])
    ensures forall k :: k in ToMap(rest) ==> k < last.bucket
  {
    hide ToMap;
    ToMapRows(rest);
    forall k | k in ToMap(rest) ensures k < last.bucket {
      var i :| 0 <= i < |rest| && rest[i] == ToMap(rest)[k];
      assert (rest + [last])[i] == rest[i] && (rest + [last])[|rest|] == last;
    }
  }

  /** What a merge stores: the incoming row where there is one, the existing row elsewhere, sorted. */
  function Merge(existing: seq<Row>, incoming: seq<Row>): seq<Row> {
    FromMap(ToMap(existing) + ToMap(incoming))
  }

  lemma MergeMeaning(existing: seq<Row>, incoming: seq<Row>)
    ensures Sorted(Merge(existing, incoming))
    ensures ToMap(Merge(existing, incoming)) == ToMap(existing) + ToMap(incoming)
    ensures |Merge(existing, incoming)| == |ToMap(existing).Keys + ToMap(incoming).Keys|
  {
    hide ToMap, FromMap;
    var m := ToMap(existing) + ToMap(incoming);
    FromMapSorted(m);
    assert m.Keys == ToMap(existing).Keys + ToMap(incoming).Keys;
  }

  lemma MergeAssociative(a: seq<Row>, b: seq<Row>, c: seq<Row>)
    ensures Merge(Merge(a, b), c) == Merge(a, Merge(b, c))
  {
    hide ToMap, FromMap;
    MergeMeaning(a, b);
    MergeMeaning(b, c);
    assert (ToMap(a) + ToMap(b)) + ToMap(c) == ToMap(a) + (ToMap(b) + ToMap(c));
  }

  /** Storing the same rows again, or merging a stored object with itself, changes nothing. */
  lemma MergeIdempotent(a: seq<Row>, b: seq<Row>)
    ensures Merge(Merge(a, b), b) == Merge(a, b)
    ensures Sorted(a) ==> Merge(a, a) == a && Merge(a, []) == a && Merge([], a) == a
  {
    hide ToMap, FromMap;
    MergeMeaning(a, b);
    EmptyMap();
    assert (ToMap(a) + ToMap(b)) + ToMap(b) == ToMap(a) + ToMap(b);
    assert ToMap(a) + ToMap(a) == ToMap(a) + map[] == map[] + ToMap(a) == ToMap(a);
    if Sorted(a) {
      SortedIsFromMap(a);
    }
  }

  method MergeRows(existing: seq<Row>, incoming: seq<Row>) returns (merged: seq<Row>)
    ensures merged == Merge(existing, incoming)
  {
    hide ToMap, FromMap;
    var byBucket: map<int, Row> := map[];
    var i := 0;
    EmptyMap();
    while i < |existing|
      invariant 0 <= i <= |existing| && byBucket == ToMap(existing[..i])
    {
      ToMapSnoc(existing[..i], existing[i]);
      assert existing[..i + 1] == existing[..i] + [existing[i]];
      byBucket := byBucket[existing[i].bucket := existing[i]];
      i := i + 1;
    }
    assert existing[..i] == existing;
    i := 0;
    while i < |incoming|
      invariant 0 <= i <= |incoming| && byBucket == ToMap(existing) + ToMap(incoming[..i])
    {
      ToMapSnoc(incoming[..i], incoming[i]);
      assert incoming[..i + 1] == incoming[..i] + [incoming[i]];
      byBucket := byBucket[incoming[i].bucket := incoming[i]];
      i := i + 1;
    }
    assert incoming[..i] == incoming;
    merged := FromMap(byBucket);
  }

  // ---------------------------------------------------------------- sorting

  /** After every row with the same or an earlier bucket, as a stable sort places it. */
  function Insert(rows: seq<Row>, r: Row): seq<Row> {
    if |rows| == 0 || rows[|rows| - 1].bucket <= r.bucket then rows + [r]
    else Insert(rows[..|rows| - 1], r) + [rows[|rows| - 1]]
  }

  function SortRows(rows: seq<Row>): (sorted: seq<Row>)
    ensures |sorted| == |rows|
    decreases |rows|
  {
    if |rows| == 0 then [] else Inserted(SortRows(rows[..|rows| - 1]), rows[|rows| - 1])
  }

  function Inserted(rows: seq<Row>, r: Row): (result: seq<Row>)
    ensures |result| == |rows| + 1
  {
    InsertLength(rows, r);
    Insert(rows, r)
  }

  lemma {:induction false} InsertLength(rows: seq<Row>, r: Row)
    ensures |Insert(rows, r)| == |rows| + 1
  {
    if !(|rows| == 0 || rows[|rows| - 1].bucket <= r.bucket) {
      InsertLength(rows[..|rows| - 1], r);
    }
  }

  lemma {:induction false} InsertMeaning(rows: seq<Row>, r: Row)
    requires Sorted(rows) && r.bucket !in ToMap(rows)
    ensures Sorted(Insert(rows, r)) && ToMap(Insert(rows, r)) == ToMap(rows)[r.bucket := r]
    decreases |rows|
  {
    hide ToMap;
    if |rows| == 0 {
      ToMapSnoc(rows, r);
    } else {
      var rest, last := rows[..|rows| - 1], rows[|rows| - 1];
      assert rows == rest + [last];
      ToMapSnoc(rest, last);
      EarlierKeys(rest, last);
      if last.bucket <= r.bucket {
        Append(rows, ToMap(rows), r);
      } else {
        InsertMeaning(rest, r);
        Append(Insert(rest, r), ToMap(rest)[r.bucket := r], last);
        assert ToMap(rest)[r.bucket := r][last.bucket := last] == ToMap(rest)[last.bucket := last][r.bucket := r];
      }
    }
  }

  lemma FreshBucket(rest: seq<Row>, last: Row)
    requires Distinct(rest + [last])
    ensures last.bucket !in ToMap(rest) && Distinct(rest)
    ensures forall r :: r in rest ==> r.bucket != last.bucket
  {
    hide ToMap;
    ToMapRows(rest);
    forall i | 0 <= i < |rest| ensures rest[i].bucket != last.bucket {
      assert (rest + [last])[i] == rest[i] && (rest + [last])[|rest|] == last;
    }
    forall i, j | 0 <= i < j < |rest| ensures rest[i].bucket != rest[j].bucket {
      assert (rest + [last])[i] == rest[i] && (rest + [last])[j] == rest[j];
    }
  }

  /** Sorting rows with distinct buckets gives the sorted form of their map, whatever their order was. */
  lemma {:induction false} SortRowsMeaning(rows: seq<Row>)
    requires Distinct(rows)
    ensures SortRows(rows) == FromMap(ToMap(rows)) && Sorted(SortRows(rows)) && ToMap(SortRows(rows)) == ToMap(rows)
    decreases |rows|
  {
    hide Insert, ToMap, FromMap;
    if |rows| > 0 {
      var rest, last := rows[..|rows| - 1], rows[|rows| - 1];
      assert rows == rest + [last];
      FreshBucket(rest, last);
      SortRowsMeaning(rest);
      InsertMeaning(SortRows(rest), last);
      ToMapSnoc(rest, last);
    }
    SortedIsFromMap(SortRows(rows));
  }

  // ---------------------------------------------------------------- one coarser row

  function High(rows: seq<Row>): (h: int)
    requires |rows| > 0
  {
    var last := rows[|rows| - 1].high;
    if |rows| == 1 then last
    else
      var before := High(rows[..|rows| - 1]);
      if last > before then last else before
  }

  function Low(rows: seq<Row>): (l: int)
    requires |rows| > 0
  {
    var last := rows[|rows| - 1].low;
    if |rows| == 1 then last
    else
      var before := Low(rows[..|rows| - 1]);
      if last < before then last else before
  }

  function Volume(rows: seq<Row>): int {
    if |rows| == 0 then 0 else Volume(rows[..|rows| - 1]) + rows[|rows| - 1].volume
  }

  function AggregateRows(rows: seq<Row>, bucket: int): Row
    requires |rows| > 0
  {
    var sorted := SortRows(rows);
    Row(bucket, sorted[0].open, High(sorted), Low(sorted), sorted[|sorted| - 1].close, Volume(sorted), None)
  }

  function Highs(m: map<int, Row>): set<int> {
    set k | k in m :: m[k].high
  }

  function Lows(m: map<int, Row>): set<int> {
    set k | k in m :: m[k].low
  }

  function TotalVolume(m: map<int, Row>): int
    decreases |m|
  {
    if |m.Keys| == 0 then 0
    else
      var top := MaxOf(m.Keys);
      assert |m - {top}| == |m| - 1 by { assert (m - {top}).Keys == m.Keys - {top}; }
      TotalVolume(m - {top}) + m[top].volume
  }

  /** The candle of a set of rows: first open, highest high, lowest low, last close, total volume. */
  function Summary(m: map<int, Row>, bucket: int): (r: Row)
    requires m.Keys != {}
    ensures r.bucket == bucket
  {
    SomeHigh(m);
    Row(bucket, m[MinOf(m.Keys)].open, MaxOf(Highs(m)), MinOf(Lows(m)), m[MaxOf(m.Keys)].close, TotalVolume(m), None)
  }

  lemma SomeHigh(m: map<int, Row>)
    requires m.Keys != {}
    ensures Highs(m) != {} && Lows(m) != {}
  {
    var k := Pick(m.Keys);
    assert m[k].high in Highs(m) && m[k].low in Lows(m);
  }

  lemma {:induction false} HighIsMax(rows: seq<Row>)
    requires |rows| > 0
    ensures forall r :: r in rows ==> r.high <= High(rows)
    ensures exists r :: r in rows && r.high == High(rows)
    decreases |rows|
  {
    var rest, last := rows[..|rows| - 1], rows[|rows| - 1];
    assert rows == rest + [last];
    assert last in rows;
    if |rest| > 0 {
      HighIsMax(rest);
      var best :| best in rest && best.high == High(rest);
      assert best in rows;
    }
  }

  lemma {:induction false} LowIsMin(rows: seq<Row>)
    requires |rows| > 0
    ensures forall r :: r in rows ==> Low(rows) <= r.low
    ensures exists r :: r in rows && r.low == Low(rows)
    decreases |rows|
  {
    var rest, last := rows[..|rows| - 1], rows[|rows| - 1];
    assert rows == rest + [last];
    assert last in rows;
    if |rest| > 0 {
      LowIsMin(rest);
      var best :| best in rest && best.low == Low(rest);
      assert best in rows;
    }
  }

  lemma {:induction false} VolumeIsTotal(m: map<int, Row>)
    ensures Volume(FromMap(m)) == TotalVolume(m)
    decreases |m|
  {
    if |m.Keys| > 0 {
      var top := MaxOf(m.Keys);
      assert (m - {top}).Keys == m.Keys - {top};
      VolumeIsTotal(m - {top});
      assert (FromMap(m - {top}) + [m[top]])[..|FromMap(m - {top})|] == FromMap(m - {top});
    }
  }

  lemma SortedExtremes(rows: seq<Row>)
    requires Sorted(rows) && |rows| > 0
    ensures ToMap(rows).Keys != {}
    ensures MinOf(ToMap(rows).Keys) == rows[0].bucket && MaxOf(ToMap(rows).Keys) == rows[|rows| - 1].bucket
    ensures ToMap(rows)[rows[0].bucket] == rows[0] && ToMap(rows)[rows[|rows| - 1].bucket] == rows[|rows| - 1]
  {
    hide ToMap;
    var m := ToMap(rows);
    ToMapRows(rows);
    assert rows[0] in rows && rows[|rows| - 1] in rows;
    assert rows[0].bucket in m.Keys && rows[|rows| - 1].bucket in m.Keys;
    forall k | k in m.Keys ensures rows[0].bucket <= k <= rows[|rows| - 1].bucket {
      assert m[k] in rows;
    }
  }

  lemma ExtremesOfMap(rows: seq<Row>)
    requires Sorted(rows) && |rows| > 0
    ensures ToMap(rows).Keys != {}
    ensures Highs(ToMap(rows)) != {} && MaxOf(Highs(ToMap(rows))) == High(rows)
    ensures Lows(ToMap(rows)) != {} && MinOf(Lows(ToMap(rows))) == Low(rows)
  {
    hide High, Low, ToMap;
    var m := ToMap(rows);
    ToMapRows(rows);
    SortedExtremes(rows);
    SomeHigh(m);
    HighIsMax(rows);
    LowIsMin(rows);
    forall r | r in rows ensures r.bucket in m && m[r.bucket] == r {
      assert m[r.bucket] in rows;
    }
    var h :| h in rows && h.high == High(rows);
    var l :| l in rows && l.low == Low(rows);
    assert h.high in Highs(m) by { assert m[h.bucket] == h; }
    assert l.low in Lows(m) by { assert m[l.bucket] == l; }
    assert forall x :: x in Highs(m) ==> x <= High(rows);
    assert forall x :: x in Lows(m) ==> Low(rows) <= x;
  }

  /** The aggregate does not depend on the order the rows were grouped in. */
  lemma AggregateIsSummary(rows: seq<Row>, bucket: int)
    requires Distinct(rows) && |rows| > 0
    ensures ToMap(rows).Keys != {}
    ensures AggregateRows(rows, bucket) == Summary(ToMap(rows), bucket)
  {
    hide High, Low, Volume, TotalVolume, SortRows, FromMap, ToMap;
    SortRowsMeaning(rows);
    SortedExtremes(SortRows(rows));
    ExtremesOfMap(SortRows(rows));
    VolumeIsTotal(ToMap(rows));
  }

  // ---------------------------------------------------------------- deriving a timeframe

  datatype Grain = Hour | Day

  /** The KST date of a bucket, as a day number: day 0 is 1970-01-01. */
  function TradeDay(bucket: int): int {
    (bucket + KST_OFFSET_MS) / DAY_MS
  }

  /** The bucket of the coarser row: the UTC hour, or midnight of the KST date. */
  function GroupOf(g: Grain, bucket: int): int {
    match g
    case Hour => bucket / HOUR_MS * HOUR_MS
    case Day => TradeDay(bucket) * DAY_MS - KST_OFFSET_MS
  }

  lemma GroupMonotone(g: Grain, a: int, b: int)
    requires a <= b
    ensures GroupOf(g, a) <= GroupOf(g, b)
  {
  }

  /** An hour of UTC lies in one KST date: the offset is a whole number of hours. */
  lemma HourInOneDay(bucket: int)
    ensures TradeDay(GroupOf(Hour, bucket)) == TradeDay(bucket)
    ensures GroupOf(Day, GroupOf(Hour, bucket)) == GroupOf(Day, bucket)
    ensures TradeDay(GroupOf(Day, bucket)) == TradeDay(bucket)
  {
    var hour := bucket / HOUR_MS;
    var day, rest := (hour + 9) / 24, (hour + 9) % 24;
    assert bucket == hour * HOUR_MS + bucket % HOUR_MS;
    assert hour + 9 == day * 24 + rest;
  }

  function Part(m: map<int, Row>, g: Grain, b: int): (p: map<int, Row>)
    ensures b in Groups(m, g) <==> p.Keys != {}
  {
    var p := map k | k in m && GroupOf(g, k) == b :: m[k];
    assert forall k :: k in m && GroupOf(g, k) == b ==> k in p.Keys;
    assert p.Keys != {} ==> exists k :: k in p.Keys;
    p
  }

  function Groups(m: map<int, Row>, g: Grain): set<int> {
    set k | k in m :: GroupOf(g, k)
  }

  function Derived(m: map<int, Row>, g: Grain): (d: map<int, Row>)
    ensures d.Keys == Groups(m, g)
  {
    map b | b in Groups(m, g) :: Summary(Part(m, g, b), b)
  }

  function Bucketed(rows: seq<Row>, g: Grain, b: int): seq<Row> {
    if |rows| == 0 then []
    else
      var rest := Bucketed(rows[..|rows| - 1], g, b);
      if GroupOf(g, rows[|rows| - 1].bucket) == b then rest + [rows[|rows| - 1]] else rest
  }

  lemma {:induction false} BucketedMeaning(rows: seq<Row>, g: Grain, b: int)
    requires Distinct(rows)
    ensures Distinct(Bucketed(rows, g, b)) && ToMap(Bucketed(rows, g, b)) == Part(ToMap(rows), g, b)
    ensures forall r :: r in Bucketed(rows, g, b) ==> r in rows
    decreases |rows|
  {
    hide GroupOf, ToMap;
    if |rows| > 0 {
      var rest, last := rows[..|rows| - 1], rows[|rows| - 1];
      assert rows == rest + [last];
      FreshBucket(rest, last);
      BucketedMeaning(rest, g, b);
      ToMapSnoc(rest, last);
      ToMapSnoc(Bucketed(rest, g, b), last);
      PartSnoc(ToMap(rest), last, g, b);
      assert forall i :: 0 <= i < |Bucketed(rest, g, b)| ==> Bucketed(rest, g, b)[i] in rest;
    } else {
      EmptyMap();
    }
  }

  lemma PartSnoc(m: map<int, Row>, last: Row, g: Grain, b: int)
    requires last.bucket !in m
    ensures Part(m[last.bucket := last], g, b)
            == if GroupOf(g, last.bucket) == b then Part(m, g, b)[last.bucket := last] else Part(m, g, b)
  {
    hide GroupOf;
  }

  lemma BucketedSnoc(rows: seq<Row>, last: Row, g: Grain, b: int)
    ensures Bucketed(rows + [last], g, b) == Bucketed(rows, g, b) + if GroupOf(g, last.bucket) == b then [last] else []
  {
    assert (rows + [last])[..|rows|] == rows;
  }

  ghost predicate Grouped(grouped: map<int, seq<Row>>, rows: seq<Row>, g: Grain) {
    forall b :: if b in grouped then grouped[b] == Bucketed(rows, g, b) && grouped[b] != [] else Bucketed(rows, g, b) == []
  }

  lemma GroupedSnoc(grouped: map<int, seq<Row>>, rows: seq<Row>, last: Row, g: Grain)
    requires Grouped(grouped, rows, g)
    ensures var key := GroupOf(g, last.bucket);
            Grouped(grouped[key := (if key in grouped then grouped[key] else []) + [last]], rows + [last], g)
  {
    hide GroupOf, Bucketed;
    var key := GroupOf(g, last.bucket);
    var after := grouped[key := (if key in grouped then grouped[key] else []) + [last]];
    forall b
      ensures if b in after then after[b] == Bucketed(rows + [last], g, b) && after[b] != [] else Bucketed(rows + [last], g, b) == []
    {
      BucketedSnoc(rows, last, g, b);
    }
  }

  /** Aggregating every list of the grouping gives the derived rows. */
  lemma GroupedDerives(grouped: map<int, seq<Row>>, rows: seq<Row>, g: Grain)
    requires Distinct(rows) && Grouped(grouped, rows, g)
    ensures forall b :: b in grouped ==> grouped[b] != []
    ensures (map b | b in grouped :: AggregateRows(grouped[b], b)) == Derived(ToMap(rows), g)
  {
    hide GroupOf, AggregateRows, Summary, ToMap, Bucketed;
    forall b
      ensures b in grouped <==> b in Groups(ToMap(rows), g)
      ensures b in grouped ==> AggregateRows(grouped[b], b) == Summary(Part(ToMap(rows), g, b), b)
    {
      BucketedMeaning(rows, g, b);
      if b in grouped {
        AggregateIsSummary(grouped[b], b);
      } else {
        EmptyMap();
        assert Part(ToMap(rows), g, b).Keys == {};
      }
    }
  }

  /** Groups the rows by coarser bucket in a map of lists, then aggregates each list in bucket order. */
  method DeriveRows(rows: seq<Row>, g: Grain) returns (derived: seq<Row>)
    requires Distinct(rows)
    ensures derived == FromMap(Derived(ToMap(rows), g))
  {
    hide GroupOf, AggregateRows, Summary, ToMap, FromMap, Derived;
    var grouped: map<int, seq<Row>> := map[];
    var i := 0;
    while i < |rows|
      invariant 0 <= i <= |rows| && Grouped(grouped, rows[..i], g)
    {
      GroupedSnoc(grouped, rows[..i], rows[i], g);
      assert rows[..i + 1] == rows[..i] + [rows[i]];
      var key := GroupOf(g, rows[i].bucket);
      grouped := grouped[key := (if key in grouped then grouped[key] else []) + [rows[i]]];
      i := i + 1;
    }
    assert rows[..i] == rows;
    GroupedDerives(grouped, rows, g);
    derived := FromMap(map b | b in grouped :: AggregateRows(grouped[b], b));
  }

  /** Rows of different groups do not meet: deriving a union is the union of what each part derives. */
  lemma DerivedUnion(a: map<int, Row>, b: map<int, Row>, g: Grain)
    requires Groups(a, g) !! Groups(b, g)
    ensures Derived(a + b, g) == Derived(a, g) + Derived(b, g)
  {
    hide GroupOf, Summary, Groups, Part;
    GroupsUnion(a, b, g);
    forall k | k in Groups(a + b, g)
      ensures Part(a + b, g, k) == if k in Groups(b, g) then Part(b, g, k) else Part(a, g, k)
    {
      PartUnion(a, b, g, k);
    }
  }

  lemma GroupsUnion(a: map<int, Row>, b: map<int, Row>, g: Grain)
    ensures Groups(a + b, g) == Groups(a, g) + Groups(b, g)
  {
    hide GroupOf;
    var both := a + b;
    forall k | k in a ensures GroupOf(g, k) in Groups(both, g) {
      assert k in both;
    }
    forall k | k in b ensures GroupOf(g, k) in Groups(both, g) {
      assert k in both;
    }
  }

  lemma PartUnion(a: map<int, Row>, b: map<int, Row>, g: Grain, k: int)
    requires Groups(a, g) !! Groups(b, g)
    ensures Part(a + b, g, k) == if k in Groups(b, g) then Part(b, g, k) else Part(a, g, k)
  {
    hide GroupOf;
    assert forall x :: x in a ==> GroupOf(g, x) in Groups(a, g);
    assert forall x :: x in b ==> GroupOf(g, x) in Groups(b, g);
  }

  lemma {:induction false} TotalVolumeUnion(a: map<int, Row>, b: map<int, Row>)
    requires a.Keys !! b.Keys
    ensures TotalVolume(a + b) == TotalVolume(a) + TotalVolume(b)
    decreases |a| + |b|
  {
    hide TotalVolume;
    var keys := a.Keys + b.Keys;
    if keys == {} {
      NoVolume(a);
      NoVolume(b);
      NoVolume(a + b);
    } else {
      var top := MaxOf(keys);
      if top in a {
        WithoutTop(a, b, top);
        TotalVolumeUnion(a - {top}, b);
      } else {
        WithoutTop(b, a, top);
        Commute(a, b);
        Commute(a, b - {top});
        TotalVolumeUnion(a, b - {top});
      }
    }
  }

  lemma Commute(a: map<int, Row>, b: map<int, Row>)
    requires a.Keys !! b.Keys
    ensures a + b == b + a
  {
  }

  lemma WithoutTop(a: map<int, Row>, b: map<int, Row>, top: int)
    requires a.Keys !! b.Keys && top in a && (forall k :: k in a ==> k <= top) && (forall k :: k in b ==> k <= top)
    ensures |a - {top}| < |a| && (a - {top}).Keys !! b.Keys
    ensures TotalVolume(a) == TotalVolume(a - {top}) + a[top].volume
    ensures TotalVolume(a + b) == TotalVolume((a - {top}) + b) + a[top].volume
  {
    hide TotalVolume;
    assert (a - {top}).Keys == a.Keys - {top};
    RemoveFromUnion(a, b, top);
    TopVolume(a, top);
    TopVolume(a + b, top);
  }

  lemma RemoveFromUnion(a: map<int, Row>, b: map<int, Row>, top: int)
    requires top in a && top !in b
    ensures (a + b) - {top} == (a - {top}) + b && top in a + b && (a + b)[top] == a[top]
  {
    var left, right := (a + b) - {top}, (a - {top}) + b;
    assert forall k :: k in left <==> k in right;
  }

  lemma NoVolume(m: map<int, Row>)
    requires m.Keys == {}
    ensures TotalVolume(m) == 0
  {
  }

  lemma TopVolume(m: map<int, Row>, top: int)
    requires top in m && forall k :: k in m ==> k <= top
    ensures TotalVolume(m) == TotalVolume(m - {top}) + m[top].volume
  {
    assert MaxOf(m.Keys) == top;
  }

  /** Volume is conserved by deriving a timeframe. */
  lemma {:induction false} VolumeConserved(m: map<int, Row>, g: Grain)
    ensures TotalVolume(Derived(m, g)) == TotalVolume(m)
    decreases |m|
  {
    hide GroupOf, TotalVolume;
    if m.Keys == {} {
      NothingDerived(m, g);
    } else {
      var any := Pick(m.Keys);
      var b := GroupOf(g, any);
      var part := Part(m, g, b);
      var rest := m - part.Keys;
      assert b in Groups(m, g);
      assert rest.Keys == m.Keys - part.Keys;
      RestIsSmaller(m, part);
      VolumeConserved(rest, g);
      assert m == rest + part;
      TotalVolumeUnion(rest, part);
      assert Groups(part, g) == {b} by {
        assert forall k :: k in part ==> GroupOf(g, k) == b;
        var k := Pick(part.Keys);
        assert GroupOf(g, k) in Groups(part, g);
      }
      assert Groups(rest, g) !! Groups(part, g);
      DerivedUnion(rest, part, g);
      TotalVolumeUnion(Derived(rest, g), Derived(part, g));
      assert Part(part, g, b) == part;
      OneGroupVolume(Derived(part, g), b);
    }
  }

  lemma RestIsSmaller(m: map<int, Row>, part: map<int, Row>)
    requires part.Keys <= m.Keys && part.Keys != {}
    ensures |m - part.Keys| < |m|
  {
    assert (m - part.Keys).Keys == m.Keys - part.Keys;
    SubsetSize(m.Keys - part.Keys, m.Keys);
  }

  lemma NothingDerived(m: map<int, Row>, g: Grain)
    requires m.Keys == {}
    ensures TotalVolume(Derived(m, g)) == TotalVolume(m)
  {
    assert Groups(m, g) == {};
  }

  lemma OneGroupVolume(d: map<int, Row>, b: int)
    requires d.Keys == {b}
    ensures TotalVolume(d) == d[b].volume
  {
    assert (d - {b}).Keys == {};
    assert MaxOf(d.Keys) == b;
  }

  // ---------------------------------------------------------------- agreement across timeframes

  lemma DerivedExtremes(m: map<int, Row>, g: Grain)
    requires m.Keys != {}
    ensures Derived(m, g).Keys != {}
    ensures Derived(m, g)[MinOf(Derived(m, g).Keys)].open == m[MinOf(m.Keys)].open
    ensures Derived(m, g)[MaxOf(Derived(m, g).Keys)].close == m[MaxOf(m.Keys)].close
  {
    hide GroupOf, TotalVolume;
    var d := Derived(m, g);
    var low, top := MinOf(m.Keys), MaxOf(m.Keys);
    assert GroupOf(g, low) in d.Keys && GroupOf(g, top) in d.Keys;
    forall k | k in m ensures GroupOf(g, low) <= GroupOf(g, k) <= GroupOf(g, top) {
      GroupMonotone(g, low, k);
      GroupMonotone(g, k, top);
    }
    assert MinOf(d.Keys) == GroupOf(g, low) && MaxOf(d.Keys) == GroupOf(g, top);
    assert low in Part(m, g, GroupOf(g, low)).Keys && top in Part(m, g, GroupOf(g, top)).Keys;
    assert MinOf(Part(m, g, GroupOf(g, low)).Keys) == low;
    assert MaxOf(Part(m, g, GroupOf(g, top)).Keys) == top;
  }

  lemma DerivedHigh(m: map<int, Row>, g: Grain)
    requires m.Keys != {}
    ensures Highs(m) != {} && Highs(Derived(m, g)) != {}
    ensures MaxOf(Highs(Derived(m, g))) == MaxOf(Highs(m))
  {
    hide GroupOf, TotalVolume;
    var d := Derived(m, g);
    SomeHigh(m);
    assert GroupOf(g, MinOf(m.Keys)) in d.Keys;
    SomeHigh(d);
    forall h | h in Highs(d) ensures h in Highs(m) {
      var b :| b in d && d[b].high == h;
      SomeHigh(Part(m, g, b));
      assert h in Highs(Part(m, g, b));
    }
    forall h | h in Highs(m) ensures h <= MaxOf(Highs(d)) {
      var k :| k in m && m[k].high == h;
      var b := GroupOf(g, k);
      assert k in Part(m, g, b).Keys;
      assert h in Highs(Part(m, g, b));
      assert b in d && d[b].high in Highs(d);
    }
  }

  lemma DerivedLow(m: map<int, Row>, g: Grain)
    requires m.Keys != {}
    ensures Lows(m) != {} && Lows(Derived(m, g)) != {}
    ensures MinOf(Lows(Derived(m, g))) == MinOf(Lows(m))
  {
    hide GroupOf, TotalVolume;
    var d := Derived(m, g);
    SomeHigh(m);
    assert GroupOf(g, MinOf(m.Keys)) in d.Keys;
    SomeHigh(d);
    forall h | h in Lows(d) ensures h in Lows(m) {
      var b :| b in d && d[b].low == h;
      SomeHigh(Part(m, g, b));
      assert h in Lows(Part(m, g, b));
    }
    forall h | h in Lows(m) ensures MinOf(Lows(d)) <= h {
      var k :| k in m && m[k].low == h;
      var b := GroupOf(g, k);
      assert k in Part(m, g, b).Keys;
      assert h in Lows(Part(m, g, b));
      assert b in d && d[b].low in Lows(d);
    }
  }

  /** A candle of derived candles is the candle of the rows they came from. */
  lemma SummaryOfDerived(m: map<int, Row>, g: Grain, bucket: int)
    requires m.Keys != {}
    ensures Derived(m, g).Keys != {}
    ensures Summary(Derived(m, g), bucket) == Summary(m, bucket)
  {
    hide GroupOf, TotalVolume, Derived, Highs, Lows;
    DerivedExtremes(m, g);
    DerivedHigh(m, g);
    DerivedLow(m, g);
    VolumeConserved(m, g);
  }

  lemma HoursOfADay(m: map<int, Row>, b: int)
    ensures Part(Derived(m, Hour), Day, b) == Derived(Part(m, Day, b), Hour)
  {
    hide GroupOf, Summary;
    var hours, part := Derived(m, Hour), Part(m, Day, b);
    forall h | h in hours ensures GroupOf(Day, h) == b <==> h in Groups(part, Hour) {
      var k :| k in m && GroupOf(Hour, k) == h;
      HourInOneDay(k);
      if GroupOf(Day, h) == b {
        assert k in part;
      } else if h in Groups(part, Hour) {
        var j :| j in part && GroupOf(Hour, j) == h;
        HourInOneDay(j);
      }
    }
    forall h | h in Groups(part, Hour) ensures h in hours && Part(part, Hour, h) == Part(m, Hour, h) {
      var k :| k in part && GroupOf(Hour, k) == h;
      assert k in m && GroupOf(Hour, k) in Groups(m, Hour);
      HourInOneDay(k);
      forall j | j in m && GroupOf(Hour, j) == h ensures GroupOf(Day, j) == b {
        HourInOneDay(j);
      }
    }
  }

  /** Deriving days from derived hours gives the days derived from the minutes. */
  lemma DaysAgreeAcrossTimeframes(m: map<int, Row>)
    ensures Derived(Derived(m, Hour), Day) == Derived(m, Day)
  {
    hide GroupOf, Summary;
    var hours := Derived(m, Hour);
    forall b
      ensures b in Groups(hours, Day) <==> b in Groups(m, Day)
      ensures b in Groups(m, Day) ==> Summary(Part(hours, Day, b), b) == Summary(Part(m, Day, b), b)
    {
      HoursOfADay(m, b);
      if b in Groups(m, Day) {
        SummaryOfDerived(Part(m, Day, b), Hour, b);
      } else {
        assert Part(m, Day, b).Keys == {};
        assert Groups(Part(m, Day, b), Hour) == {};
      }
    }
  }
}
