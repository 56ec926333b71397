/** The publish outbox of credited fills: claims, marks, failures with backoff, and the flush loop. */
module FillOutbox {
  import opened Wrappers
  import opened PositionBook
  import opened FillLedger

  datatype OutboxConfig = OutboxConfig(claimTtlMs: PositiveInt, baseBackoffMs: PositiveInt, maxBackoffMs: PositiveInt)

  datatype Channel = Live | Stream

  // ---------------------------------------------------------------- backoff

  function Pow2(n: nat): (p: nat)
    ensures p >= 1
  {
    if n == 0 then 1 else 2 * Pow2(n - 1)
  }

  function OutboxBackoffMs(cfg: OutboxConfig, attempts: int): int {
    Min(cfg.baseBackoffMs * Pow2(Min(Max(0, attempts - 1), 6)), cfg.maxBackoffMs)
  }

  lemma {:induction false} Pow2Monotone(a: nat, b: nat)
    requires a <= b
    ensures Pow2(a) <= Pow2(b)
  {
    if a < b {
      Pow2Monotone(a, b - 1);
    }
  }

  /** The delay after a failure never shrinks with further failures and never exceeds the cap. */
  lemma BackoffMonotone(cfg: OutboxConfig, a: int, b: int)
    requires a <= b
    ensures 0 < OutboxBackoffMs(cfg, a) <= OutboxBackoffMs(cfg, b) <= cfg.maxBackoffMs
    ensures a <= 1 ==> OutboxBackoffMs(cfg, a) == Min(cfg.baseBackoffMs, cfg.maxBackoffMs)
  {
    hide Pow2;
    var ea, eb := Min(Max(0, a - 1), 6), Min(Max(0, b - 1), 6);
    Pow2Monotone(ea, eb);
    ScaleMonotone(cfg.baseBackoffMs, Pow2(ea), Pow2(eb));
    if a <= 1 {
      assert Pow2(0) == 1 by { Pow2Zero(); }
    }
  }

  /** The first delay is the base, each of the next six failures doubles it until the cap, and later ones change nothing. */
  lemma BackoffDoubles(cfg: OutboxConfig, attempts: int)
    ensures attempts <= 1 ==> OutboxBackoffMs(cfg, attempts) == Min(cfg.baseBackoffMs, cfg.maxBackoffMs)
    ensures 1 <= attempts <= 6 ==> OutboxBackoffMs(cfg, attempts + 1) == Min(2 * OutboxBackoffMs(cfg, attempts), cfg.maxBackoffMs)
    ensures attempts >= 7 ==> OutboxBackoffMs(cfg, attempts) == Min(64 * cfg.baseBackoffMs, cfg.maxBackoffMs)
  {
    BackoffMonotone(cfg, attempts, attempts);
    if 1 <= attempts <= 6 {
      assert cfg.baseBackoffMs * Pow2(attempts) == 2 * (cfg.baseBackoffMs * Pow2(attempts - 1));
    } else if attempts >= 7 {
      assert Pow2(6) == 64 by { PowerSix(); }
    }
  }

  lemma PowerSix()
    ensures Pow2(6) == 64
  {
    assert Pow2(3) == 8;
  }

  lemma Pow2Zero()
    ensures Pow2(0) == 1
  {
  }

  lemma ScaleMonotone(k: int, a: nat, b: nat)
    requires k > 0 && 1 <= a <= b
    ensures 0 < k * a <= k * b
  {
  }

  // ---------------------------------------------------------------- one row

  predicate Published(row: OutboxRow, channel: Channel) {
    if channel.Live? then row.liveAt.Some? else row.streamAt.Some?
  }

  /** A row is in the outbox while one of its two channels is still to be published. */
  predicate InOutbox(row: OutboxRow) { !Published(row, Live) || !Published(row, Stream) }

  predicate Eligible(cfg: OutboxConfig, row: OutboxRow, now: int) {
    && InOutbox(row)
    && (row.nextAt.None? || row.nextAt.value <= now)
    && (row.claimedAt.None? || row.claimedAt.value < now - cfg.claimTtlMs)
  }

  function Mark(row: OutboxRow, channel: Channel, now: int): OutboxRow {
    if channel.Live? then row.(liveAt := Some(now)) else row.(streamAt := Some(now))
  }

  function Fail(cfg: OutboxConfig, row: OutboxRow, attemptsRead: nat, now: int): OutboxRow {
    row.(attempts := row.attempts + 1, claimedAt := None, nextAt := Some(now + OutboxBackoffMs(cfg, attemptsRead + 1)))
  }

  function Release(row: OutboxRow): OutboxRow { row.(claimedAt := None, nextAt := None) }

  // ---------------------------------------------------------------- interleaved publishers

  /**
   * Any number of publishers working on the table: `delivered` are the successful publishes, and
   * `unmarked` those whose publisher has not yet written its mark. Claims are not exclusive, so
   * nothing here depends on who holds one.
   */
  datatype World = World(rows: seq<OutboxRow>, delivered: set<(string, Channel)>, unmarked: set<(string, Channel)>)

  datatype Step =
    | Insert(row: OutboxRow)
    | Claim(i: nat, now: int)
    | Deliver(i: nat, channel: Channel)
    | WriteMark(i: nat, channel: Channel, now: int)
    | RecordFailure(i: nat, attemptsRead: nat, now: int)
    | ReleaseClaim(i: nat)

  predicate Enabled(cfg: OutboxConfig, w: World, s: Step) {
    match s
    case Insert(row) => row.liveAt.None? && row.streamAt.None?
    case Claim(i, now) => i < |w.rows| && Eligible(cfg, w.rows[i], now)
    case Deliver(i, _) => i < |w.rows|
    case WriteMark(i, channel, _) => i < |w.rows| && (w.rows[i].externalFillId, channel) in w.unmarked
    case RecordFailure(i, _, _) => i < |w.rows|
    case ReleaseClaim(i) => i < |w.rows|
  }

  function Next(cfg: OutboxConfig, w: World, s: Step): World {
    if !Enabled(cfg, w, s) then w
    else
      match s
      case Insert(row) => w.(rows := w.rows + [row])
      case Claim(i, now) => w.(rows := w.rows[i := w.rows[i].(claimedAt := Some(now))])
      case Deliver(i, channel) =>
        var key := (w.rows[i].externalFillId, channel);
        w.(delivered := w.delivered + {key}, unmarked := w.unmarked + {key})
      case WriteMark(i, channel, now) =>
        w.(rows := w.rows[i := Mark(w.rows[i], channel, now)],
           unmarked := w.unmarked - {(w.rows[i].externalFillId, channel)})
      case RecordFailure(i, attemptsRead, now) => w.(rows := w.rows[i := Fail(cfg, w.rows[i], attemptsRead, now)])
      case ReleaseClaim(i) => w.(rows := w.rows[i := Release(w.rows[i])])
  }

  function Run(cfg: OutboxConfig, w: World, steps: seq<Step>): World
    decreases |steps|
  {
    if |steps| == 0 then w else Run(cfg, Next(cfg, w, steps[0]), steps[1..])
  }

  /** Every mark stands for a publish that succeeded. */
  ghost predicate Honest(w: World) {
    && w.unmarked <= w.delivered
    && forall i, c :: 0 <= i < |w.rows| && Published(w.rows[i], c) ==> (w.rows[i].externalFillId, c) in w.delivered
  }

  /** What one step may do to an existing row: keep its marks and its identity. */
  ghost predicate RowsGrow(before: seq<OutboxRow>, after: seq<OutboxRow>) {
    && |before| <= |after|
    && forall i :: 0 <= i < |before| ==>
         && after[i].externalFillId == before[i].externalFillId
         && after[i].attempts >= before[i].attempts
         && forall c :: Published(before[i], c) ==> Published(after[i], c)
  }

  lemma NextHonest(cfg: OutboxConfig, w: World, s: Step)
    requires Honest(w)
    ensures Honest(Next(cfg, w, s)) && RowsGrow(w.rows, Next(cfg, w, s).rows)
    ensures w.delivered <= Next(cfg, w, s).delivered
  {
    hide OutboxBackoffMs;
  }

  /**
   * In every interleaving a row leaves the outbox only after a successful publish on each of its two
   * channels, and no mark, once written, is ever cleared.
   */
  lemma {:induction false} LeavesOnlyPublished(cfg: OutboxConfig, w: World, steps: seq<Step>)
    requires Honest(w)
    ensures var last := Run(cfg, w, steps);
            && Honest(last) && RowsGrow(w.rows, last.rows)
            && forall i :: 0 <= i < |last.rows| && !InOutbox(last.rows[i]) ==>
                 && (last.rows[i].externalFillId, Live) in last.delivered
                 && (last.rows[i].externalFillId, Stream) in last.delivered
    decreases |steps|
  {
    hide Next, Enabled;
    if |steps| > 0 {
      NextHonest(cfg, w, steps[0]);
      LeavesOnlyPublished(cfg, Next(cfg, w, steps[0]), steps[1..]);
    }
  }

  // ---------------------------------------------------------------- the flush loop

  /** How one claimed row comes out of a flush: each channel in turn, stopping at the first failure. */
  function FlushedRow(cfg: OutboxConfig, row: OutboxRow, deliver: (string, Channel) -> bool, now: int): OutboxRow {
    if !Published(row, Live) && !deliver(row.externalFillId, Live) then Fail(cfg, row, row.attempts, now)
    else
      var live := if Published(row, Live) then row else Mark(row, Live, now);
      if !Published(live, Stream) && !deliver(row.externalFillId, Stream) then Fail(cfg, live, live.attempts, now)
      else Release(if Published(live, Stream) then live else Mark(live, Stream, now))
  }

  /** A flushed row leaves the outbox exactly when the channels it still needed both delivered. */
  lemma FlushedRowLeaves(cfg: OutboxConfig, row: OutboxRow, deliver: (string, Channel) -> bool, now: int)
    ensures var next := FlushedRow(cfg, row, deliver, now);
            && (!InOutbox(next) <==>
                  && (Published(row, Live) || deliver(row.externalFillId, Live))
                  && (Published(row, Stream) || deliver(row.externalFillId, Stream)))
            && (InOutbox(next) ==> next.attempts == row.attempts + 1 && next.claimedAt.None? && next.nextAt.Some? && next.nextAt.value > now)
            && forall c :: Published(row, c) ==> Published(next, c)
  {
    BackoffMonotone(cfg, row.attempts + 1, row.attempts + 1);
  }

  // ---------------------------------------------------------------- when a row may be claimed

  /** A row whose channels are both marked is never claimed; one never claimed nor failed may be at any time. */
  lemma ClaimableFresh(cfg: OutboxConfig, row: OutboxRow, now: int)
    ensures row.liveAt.Some? && row.streamAt.Some? ==> !Eligible(cfg, row, now)
    ensures (row.liveAt.None? || row.streamAt.None?) && row.claimedAt.None? && row.nextAt.None? ==> Eligible(cfg, row, now)
  {
  }

  /** After a claim at t the row can be claimed again exactly when more than the time to live has passed. */
  lemma ClaimableAfterClaim(cfg: OutboxConfig, w: World, i: nat, t: int, now: int)
    requires Enabled(cfg, w, Claim(i, t)) && t <= now
    ensures var next := Next(cfg, w, Claim(i, t));
            && next == w.(rows := next.rows) && |next.rows| == |w.rows|
            && (forall j :: 0 <= j < |w.rows| && j != i ==> next.rows[j] == w.rows[j])
            && (Eligible(cfg, next.rows[i], now) <==> now > t + cfg.claimTtlMs)
  {
  }

  /** After a failure at t a row still to be published can be claimed exactly when the delay has passed, whoever held it. */
  lemma ClaimableAfterFailure(cfg: OutboxConfig, w: World, i: nat, attemptsRead: nat, t: int, now: int)
    requires i < |w.rows| && InOutbox(w.rows[i])
    ensures var next := Next(cfg, w, RecordFailure(i, attemptsRead, t));
            && |next.rows| == |w.rows| && next.rows[i].attempts == w.rows[i].attempts + 1
            && (forall j :: 0 <= j < |w.rows| && j != i ==> next.rows[j] == w.rows[j])
            && (Eligible(cfg, next.rows[i], now) <==> now >= t + OutboxBackoffMs(cfg, attemptsRead + 1))
  {
    hide OutboxBackoffMs;
  }

  /** A released row still to be published can be claimed at once. */
  lemma ClaimableAfterRelease(cfg: OutboxConfig, w: World, i: nat, now: int)
    requires i < |w.rows| && InOutbox(w.rows[i])
    ensures Eligible(cfg, Next(cfg, w, ReleaseClaim(i)).rows[i], now)
  {
  }

  /** A row inserted with a credited fill joins the others, and can be claimed at once. */
  lemma ClaimableAfterInsert(cfg: OutboxConfig, w: World, row: OutboxRow, now: int)
    requires row.liveAt.None? && row.streamAt.None? && row.claimedAt.None? && row.nextAt.None?
    ensures var next := Next(cfg, w, Insert(row));
            && |next.rows| == |w.rows| + 1 && next.rows[..|w.rows|] == w.rows && next.rows[|w.rows|] == row
            && Eligible(cfg, row, now)
  {
  }

  // ---------------------------------------------------------------- a flush as steps of the system

  /** What publishing one channel of a row amounts to. */
  function ChannelSteps(row: OutboxRow, i: nat, channel: Channel, delivers: bool, now: int): seq<Step> {
    if delivers then [Deliver(i, channel), WriteMark(i, channel, now)] else [RecordFailure(i, row.attempts, now)]
  }

  /** The steps of one flush of a row, channel by channel, up to the first failure. */
  function FlushSteps(row: OutboxRow, i: nat, deliver: (string, Channel) -> bool, now: int): seq<Step> {
    var live, stream := deliver(row.externalFillId, Live), deliver(row.externalFillId, Stream);
    (if Published(row, Live) then [] else ChannelSteps(row, i, Live, live, now))
    + if !Published(row, Live) && !live then []
      else
        (if Published(row, Stream) then [] else ChannelSteps(row, i, Stream, stream, now))
        + if Published(row, Stream) || stream then [ReleaseClaim(i)] else []
  }

  lemma {:induction false} RunSplit(cfg: OutboxConfig, w: World, a: seq<Step>, b: seq<Step>)
    ensures Run(cfg, w, a + b) == Run(cfg, Run(cfg, w, a), b)
    decreases |a|
  {
    hide Next;
    if |a| == 0 {
      assert a + b == b;
    } else {
      assert (a + b)[0] == a[0] && (a + b)[1..] == a[1..] + b;
      RunSplit(cfg, Next(cfg, w, a[0]), a[1..], b);
    }
  }

  lemma RunOne(cfg: OutboxConfig, w: World, s: Step)
    ensures Run(cfg, w, [s]) == Next(cfg, w, s)
  {
    hide Next;
    assert [s][1..] == [];
  }

  /** The publishes of a flush that went through. */
  function DeliveredBy(row: OutboxRow, deliver: (string, Channel) -> bool): set<(string, Channel)> {
    var id := row.externalFillId;
    (if !Published(row, Live) && deliver(id, Live) then {(id, Live)} else {})
    + if !Published(row, Stream) && deliver(id, Stream) && (Published(row, Live) || deliver(id, Live)) then {(id, Stream)} else {}
  }

  lemma ChannelRun(cfg: OutboxConfig, w: World, i: nat, channel: Channel, delivers: bool, now: int)
    requires i < |w.rows|
    ensures var row := w.rows[i];
            var key := (row.externalFillId, channel);
            Run(cfg, w, ChannelSteps(row, i, channel, delivers, now))
            == if delivers then World(w.rows[i := Mark(row, channel, now)], w.delivered + {key}, w.unmarked - {key})
               else w.(rows := w.rows[i := Fail(cfg, row, row.attempts, now)])
  {
    hide OutboxBackoffMs;
    var row := w.rows[i];
    var key := (row.externalFillId, channel);
    if delivers {
      RunSplit(cfg, w, [Deliver(i, channel)], [WriteMark(i, channel, now)]);
      assert [Deliver(i, channel)] + [WriteMark(i, channel, now)] == ChannelSteps(row, i, channel, true, now);
      RunOne(cfg, w, Deliver(i, channel));
      RunOne(cfg, Next(cfg, w, Deliver(i, channel)), WriteMark(i, channel, now));
      assert w.unmarked + {key} - {key} == w.unmarked - {key};
    } else {
      RunOne(cfg, w, RecordFailure(i, row.attempts, now));
    }
  }

  /**
   * The flush loop is a run of the system: one flush of a row takes the steps of its channels in turn,
   * so that the results over all interleavings are about it.
   */
  lemma FlushIsRun(cfg: OutboxConfig, w: World, i: nat, deliver: (string, Channel) -> bool, now: int)
    requires i < |w.rows|
    ensures var row := w.rows[i];
            var after := Run(cfg, w, FlushSteps(row, i, deliver, now));
            && after.rows == w.rows[i := FlushedRow(cfg, row, deliver, now)]
            && after.delivered == w.delivered + DeliveredBy(row, deliver)
            && after.unmarked == w.unmarked - DeliveredBy(row, deliver)
  {
    hide Run, Fail, ChannelSteps;
    var row := w.rows[i];
    var live, stream := deliver(row.externalFillId, Live), deliver(row.externalFillId, Stream);
    var mid := w;
    if !Published(row, Live) {
      ChannelRun(cfg, w, i, Live, live, now);
      mid := Run(cfg, w, ChannelSteps(row, i, Live, live, now));
    }
    if !Published(row, Live) && !live {
      assert FlushSteps(row, i, deliver, now) == ChannelSteps(row, i, Live, live, now);
    } else {
      var first := if Published(row, Live) then [] else ChannelSteps(row, i, Live, live, now);
      var second := if Published(row, Stream) then [] else ChannelSteps(mid.rows[i], i, Stream, stream, now);
      var third := if Published(row, Stream) || stream then [ReleaseClaim(i)] else [];
      assert ChannelSteps(mid.rows[i], i, Stream, stream, now) == ChannelSteps(row, i, Stream, stream, now) by { StepsOfRow(row, mid.rows[i], i, stream, now); }
      assert FlushSteps(row, i, deliver, now) == first + (second + third);
      RunSplit(cfg, w, first, second + third);
      RunSplit(cfg, mid, second, third);
      RunNone(cfg, w);
      RunNone(cfg, mid);
      assert Run(cfg, w, first) == mid;
      if !Published(row, Stream) {
        ChannelRun(cfg, mid, i, Stream, stream, now);
      }
      var last := Run(cfg, mid, second);
      RunNone(cfg, last);
      RunOne(cfg, last, ReleaseClaim(i));
      SameSets(w, row, deliver);
    }
  }

  lemma RunNone(cfg: OutboxConfig, w: World)
    ensures Run(cfg, w, []) == w
  {
  }

  lemma StepsOfRow(row: OutboxRow, other: OutboxRow, i: nat, delivers: bool, now: int)
    requires other.attempts == row.attempts
    ensures ChannelSteps(other, i, Stream, delivers, now) == ChannelSteps(row, i, Stream, delivers, now)
  {
  }

  lemma SameSets(w: World, row: OutboxRow, deliver: (string, Channel) -> bool)
    ensures var a, b := {(row.externalFillId, Live)}, {(row.externalFillId, Stream)};
            w.delivered + a + b == w.delivered + (a + b) && w.unmarked - a - b == w.unmarked - (a + b)
  {
  }

  class FillOutboxService {
    const cfg: OutboxConfig
    var rows: seq<OutboxRow>

    constructor (cfg: OutboxConfig, rows: seq<OutboxRow>)
      ensures this.cfg == cfg && this.rows == rows
    {
      this.cfg := cfg;
      this.rows := rows;
    }

    /** Claims the eligible rows, oldest first, up to the limit. */
    method FindPendingOutbox(limit: nat, now: int) returns (picked: seq<nat>)
      modifies this
      ensures |picked| <= limit && |rows| == |old(rows)|
      ensures forall k :: 0 <= k < |picked| ==> picked[k] < |rows| && Eligible(cfg, old(rows)[picked[k]], now)
      ensures forall j, k :: 0 <= j < k < |picked| ==> picked[j] < picked[k]
      ensures forall i :: 0 <= i < |rows| ==>
                rows[i] == if i in picked then old(rows)[i].(claimedAt := Some(now)) else old(rows)[i]
      ensures |picked| < limit ==> forall i :: 0 <= i < |rows| && Eligible(cfg, old(rows)[i], now) ==> i in picked
      ensures forall i, k :: 0 <= k < |picked| && 0 <= i < picked[k] && Eligible(cfg, old(rows)[i], now) ==> i in picked
    {
      picked := [];
      var i := 0;
      while i < |rows| && |picked| < limit
        invariant 0 <= i <= |rows| == |old(rows)|
        invariant |picked| <= limit
        invariant forall k :: 0 <= k < |picked| ==> picked[k] < i && Eligible(cfg, old(rows)[picked[k]], now)
        invariant forall j, k :: 0 <= j < k < |picked| ==> picked[j] < picked[k]
        invariant forall k :: 0 <= k < i && Eligible(cfg, old(rows)[k], now) ==> k in picked
        invariant forall k :: 0 <= k < |rows| ==>
                    rows[k] == if k in picked then old(rows)[k].(claimedAt := Some(now)) else old(rows)[k]
      {
        if Eligible(cfg, rows[i], now) {
          rows := rows[i := rows[i].(claimedAt := Some(now))];
          picked := picked + [i];
        }
        i := i + 1;
      }
    }

    /** Publishes one channel of a row: a mark on success, an attempt and a backoff on failure. */
    method PublishChannel(i: nat, channel: Channel, deliver: (string, Channel) -> bool, now: int) returns (ok: bool)
      requires i < |rows|
      modifies this
      ensures ok == deliver(old(rows)[i].externalFillId, channel)
      ensures rows == old(rows)[i := if ok then Mark(old(rows)[i], channel, now) else Fail(cfg, old(rows)[i], old(rows)[i].attempts, now)]
    {
      ok := deliver(rows[i].externalFillId, channel);
      if ok {
        rows := rows[i := Mark(rows[i], channel, now)];
      } else {
        var attemptsRead := rows[i].attempts;
        rows := rows[i := Fail(cfg, rows[i], attemptsRead, now)];
      }
    }

    /** The channels a claimed row still needs, in turn; the claim is released when both went through. */
    method FlushOne(i: nat, deliver: (string, Channel) -> bool, now: int) returns (ok: bool)
      requires i < |rows|
      modifies this
      ensures rows == old(rows)[i := FlushedRow(cfg, old(rows)[i], deliver, now)]
      ensures ok <==> !InOutbox(rows[i])
    {
      hide Fail, OutboxBackoffMs;
      FlushedRowLeaves(cfg, rows[i], deliver, now);
      var item := rows[i];
      ok := true;
      if !Published(item, Live) {
        ok := PublishChannel(i, Live, deliver, now);
      }
      if ok && !Published(item, Stream) {
        ok := PublishChannel(i, Stream, deliver, now);
      }
      if ok {
        rows := rows[i := Release(rows[i])];
      }
    }

    /** One flush of the claimed rows; `deliver` is what the bus answers for each publish. */
    method FlushFillOutbox(picked: seq<nat>, deliver: (string, Channel) -> bool, now: int) returns (published: nat, failed: nat)
      requires forall k :: 0 <= k < |picked| ==> picked[k] < |rows|
      requires forall j, k :: 0 <= j < k < |picked| ==> picked[j] != picked[k]
      modifies this
      ensures |rows| == |old(rows)|
      ensures forall i :: 0 <= i < |rows| ==>
                rows[i] == if i in picked then FlushedRow(cfg, old(rows)[i], deliver, now) else old(rows)[i]
      ensures published == CountPicked(rows, picked, false) && failed == CountPicked(rows, picked, true)
    {
      hide FlushedRow, CountPicked;
      published, failed := 0, 0;
      var n := 0;
      NothingPicked(rows);
      assert picked[..0] == [];
      while n < |picked|
        invariant 0 <= n <= |picked| && |rows| == |old(rows)|
        invariant forall i :: 0 <= i < |rows| ==>
                    rows[i] == if i in picked[..n] then FlushedRow(cfg, old(rows)[i], deliver, now) else old(rows)[i]
        invariant published == CountPicked(rows, picked[..n], false) && failed == CountPicked(rows, picked[..n], true)
      {
        var i := picked[n];
        assert i !in picked[..n] && picked[..n + 1] == picked[..n] + [i];
        ghost var before := rows;
        var ok := FlushOne(i, deliver, now);
        PickOne(before, rows, picked[..n], i);
        if ok {
          published := published + 1;
        } else {
          failed := failed + 1;
        }
        n := n + 1;
      }
      assert picked[..n] == picked;
    }
  }

  /** How many of the picked rows are still in the outbox, or no longer are. */
  function CountPicked(rows: seq<OutboxRow>, picked: seq<nat>, remaining: bool): nat {
    if picked == [] then 0
    else
      var i := picked[|picked| - 1];
      CountPicked(rows, picked[..|picked| - 1], remaining) + if i < |rows| && InOutbox(rows[i]) == remaining then 1 else 0
  }

  lemma NothingPicked(rows: seq<OutboxRow>)
    ensures CountPicked(rows, [], true) == 0 && CountPicked(rows, [], false) == 0
  {
  }

  lemma {:induction false} CountElsewhere(rows: seq<OutboxRow>, i: nat, row: OutboxRow, picked: seq<nat>, remaining: bool)
    requires i < |rows| && i !in picked
    ensures CountPicked(rows[i := row], picked, remaining) == CountPicked(rows, picked, remaining)
  {
    if picked != [] {
      CountElsewhere(rows, i, row, picked[..|picked| - 1], remaining);
    }
  }

  lemma PickOne(before: seq<OutboxRow>, rows: seq<OutboxRow>, picked: seq<nat>, i: nat)
    requires i < |before| == |rows| && i !in picked && rows == before[i := rows[i]]
    ensures CountPicked(rows, picked + [i], true) == CountPicked(before, picked, true) + if InOutbox(rows[i]) then 1 else 0
    ensures CountPicked(rows, picked + [i], false) == CountPicked(before, picked, false) + if InOutbox(rows[i]) then 0 else 1
  {
    assert (picked + [i])[..|picked|] == picked;
    CountElsewhere(before, i, rows[i], picked, true);
    CountElsewhere(before, i, rows[i], picked, false);
  }
}
