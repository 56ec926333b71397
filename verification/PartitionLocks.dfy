/** The partition lock of the archive: concurrent read-merge-write sections of one stored object. */
module PartitionLocks {
  import opened Wrappers
  import opened CandleRows
  import opened KstTime
  import opened LeasedUpdates

  /** What a section does to the rows it read: merge the incoming rows and write the result back. */
  const MERGE: Update<seq<Row>> := Update((existing: seq<Row>, incoming: seq<Row>) => Merge(existing, incoming), [])

  /** The writes of an object laid over each other in order, later writes winning. */
  function Overlay(writes: seq<seq<Row>>): map<int, Row> {
    if |writes| == 0 then map[] else Overlay(writes[..|writes| - 1]) + ToMap(writes[|writes| - 1])
  }

  lemma {:induction false} FoldIsOverlay(start: seq<Row>, writes: seq<seq<Row>>)
    ensures ToMap(Fold(MERGE, start, writes)) == ToMap(start) + Overlay(writes)
    ensures |writes| > 0 ==> Sorted(Fold(MERGE, start, writes))
    decreases |writes|
  {
    hide ToMap, Merge, Sorted, FromMap;
    if |writes| > 0 {
      var rest, last := writes[..|writes| - 1], writes[|writes| - 1];
      var before := Fold(MERGE, start, rest);
      FoldIsOverlay(start, rest);
      assert Fold(MERGE, start, writes) == Merge(before, last);
      MergeMeaning(before, last);
      OverlaidTwice(ToMap(start), Overlay(rest), ToMap(last));
    } else {
      assert ToMap(start) + map[] == ToMap(start);
    }
  }

  lemma OverlaidTwice(a: map<int, Row>, b: map<int, Row>, c: map<int, Row>)
    ensures (a + b) + c == a + (b + c)
  {
  }

  lemma {:induction false} OverlayHasAll(writes: seq<seq<Row>>, i: nat, bucket: int)
    requires i < |writes| && bucket in ToMap(writes[i])
    ensures bucket in Overlay(writes)
    decreases |writes|
  {
    hide ToMap;
    if i < |writes| - 1 {
      OverlayHasAll(writes[..|writes| - 1], i, bucket);
    }
  }

  /** The object holds the initial rows overlaid by every write in lock order. */
  ghost predicate WritesKept(w: World<seq<Row>>, objects: map<string, seq<Row>>, key: string) {
    ToMap(ObjectAt(MERGE, w.objects, key)) == ToMap(ObjectAt(MERGE, objects, key)) + Overlay(WritesTo(w.writes, key))
  }

  /**
   * No lost update: however many writers share an object, if every section ends within the time to
   * live of its lock, the object holds the initial rows overlaid by every write in lock order. So a
   * bucket that any writer wrote is there, with the row of the last writer that wrote it.
   */
  lemma EveryWriteKept(objects: map<string, seq<Row>>, now: int, steps: seq<Step<seq<Row>>>, ttl: int, d: nat, key: string)
    requires d < ttl && BoundedRun(MERGE, Start(objects, now), steps, ttl, d)
    ensures var w := Run(MERGE, Start(objects, now), steps, ttl);
            var writes := WritesTo(w.writes, key);
            && WritesKept(w, objects, key)
            && (writes != [] ==> Sorted(ObjectAt(MERGE, w.objects, key)))
            && (forall i, bucket :: 0 <= i < |writes| && bucket in ToMap(writes[i]) ==> bucket in ToMap(ObjectAt(MERGE, w.objects, key)))
  {
    hide Run, BoundedRun, ToMap, Overlay, ObjectAt, WritesTo, Sorted;
    var w := Run(MERGE, Start(objects, now), steps, ttl);
    var writes := WritesTo(w.writes, key);
    NoLostUpdate(MERGE, objects, now, steps, ttl, d, key);
    FoldIsOverlay(ObjectAt(MERGE, objects, key), writes);
    forall i, bucket | 0 <= i < |writes| && bucket in ToMap(writes[i]) ensures bucket in Overlay(writes) {
      OverlayHasAll(writes, i, bucket);
    }
  }

  /** Every run whose sections last at most `d` keeps every write. */
  ghost predicate KeepsWrites(ttl: int, d: nat) {
    forall objects, now, steps, key :: BoundedRun(MERGE, Start(objects, now), steps, ttl, d) ==>
      WritesKept(Run(MERGE, Start(objects, now), steps, ttl), objects, key)
  }

  /** Two writers of different minutes into an object nobody wrote. */
  lemma OverrunLosesRow(x: Row, y: Row, ttl: nat, d: nat)
    requires 0 < ttl <= d && x.bucket != y.bucket
    ensures var steps := Overlap(ttl) + Overwrite([x], [y]);
            var w := Run(MERGE, Start(Initially([]), 0), steps, ttl);
            && BoundedRun(MERGE, Start(Initially([]), 0), steps, ttl, d)
            && y.bucket in Overlay(WritesTo(w.writes, "k")) && y.bucket !in ToMap(ObjectAt(MERGE, w.objects, "k"))
  {
    hide Run, BoundedRun, Overlap, Overwrite, Merge, ToMap;
    OverrunLosesUpdate(MERGE, [], [x], [y], ttl, d);
    MergeMeaning([], [x]);
    OneRow(x);
    OneRow(y);
    OverlayHasAll([[y], [x]], 0, y.bucket);
    NoRow();
  }

  lemma OneRow(x: Row)
    ensures ToMap([x]) == map[x.bucket := x]
  {
    assert [x][..0] == [];
  }

  lemma NoRow()
    ensures ToMap([]) == map[]
  {
  }

  /** The writes of an object are all kept in every run exactly when sections are shorter than the time to live. */
  lemma WritesKeptExactlyWhen(ttl: nat, d: nat)
    requires ttl > 0
    ensures KeepsWrites(ttl, d) <==> d < ttl
  {
    hide Run, BoundedRun, Overlap, Overwrite, ToMap, Overlay, WritesTo, ObjectAt, Sorted;
    if d < ttl {
      forall objects, now, steps, key | BoundedRun(MERGE, Start(objects, now), steps, ttl, d)
        ensures WritesKept(Run(MERGE, Start(objects, now), steps, ttl), objects, key)
      {
        EveryWriteKept(objects, now, steps, ttl, d, key);
      }
    } else {
      var x, y := Row(0, 1, 1, 1, 1, 0, None), Row(MINUTE_MS, 1, 1, 1, 1, 0, None);
      OverrunLosesRow(x, y, ttl, d);
      var w := Run(MERGE, Start(Initially([]), 0), Overlap(ttl) + Overwrite([x], [y]), ttl);
      EmptyRows();
      assert !WritesKept(w, Initially([]), "k");
    }
  }

  lemma EmptyRows()
    ensures ToMap(ObjectAt(MERGE, Initially([]), "k")) == map[]
  {
  }

  /** The retry loop of the lock: it takes the first grant, and gives up after one try more than the retries. */
  method AcquireWithRetries(answers: seq<bool>, retryCount: nat) returns (acquired: bool, tries: nat)
    requires |answers| > retryCount
    ensures tries <= retryCount + 1
    ensures acquired <==> exists i :: 0 <= i <= retryCount && answers[i]
    ensures acquired ==> tries > 0 && answers[tries - 1] && forall i :: 0 <= i < tries - 1 ==> !answers[i]
    ensures !acquired ==> tries == retryCount + 1
  {
    acquired, tries := false, 0;
    while tries <= retryCount && !acquired
      invariant tries <= retryCount + 1
      invariant acquired ==> tries > 0 && answers[tries - 1]
      invariant forall i :: 0 <= i < tries - 1 ==> !answers[i]
      invariant !acquired ==> forall i :: 0 <= i < tries ==> !answers[i]
      decreases retryCount + 1 - tries, !acquired
    {
      acquired := answers[tries];
      tries := tries + 1;
    }
  }
}
