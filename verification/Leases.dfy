/**
 * The lease idiom shared by the executor, the chart archive and the tracker: SET NX with a time to
 * live, compare-and-delete and compare-and-renew, over a store whose entries expire.
 */
module Leases {
  import opened Wrappers

  datatype Lease = Lease(owner: string, expiresAt: int)

  type Store = map<string, Lease>

  /** The owner the store answers with at an instant; an expired entry is as good as absent. */
  function LiveOwner(s: Store, key: string, now: int): Option<string> {
    if key in s && now < s[key].expiresAt then Some(s[key].owner) else None
  }

  function SetNx(s: Store, key: string, owner: string, ttl: int, now: int): (Store, bool) {
    if LiveOwner(s, key, now).Some? then (s, false) else (s[key := Lease(owner, now + ttl)], true)
  }

  function CompareDelete(s: Store, key: string, owner: string, now: int): (Store, bool) {
    if LiveOwner(s, key, now) == Some(owner) then (s - {key}, true) else (s, false)
  }

  function CompareRenew(s: Store, key: string, owner: string, ttl: int, now: int): (Store, bool) {
    if LiveOwner(s, key, now) == Some(owner) then (s[key := Lease(owner, now + ttl)], true) else (s, false)
  }

  class LeaseStore {
    var leases: Store

    constructor ()
      ensures leases == map[]
    {
      leases := map[];
    }

    method TrySet(key: string, owner: string, ttl: int, now: int) returns (acquired: bool)
      modifies this
      ensures (leases, acquired) == SetNx(old(leases), key, owner, ttl, now)
      ensures acquired <==> key !in old(leases) || old(leases)[key].expiresAt <= now
      ensures leases == if acquired then old(leases)[key := Lease(owner, now + ttl)] else old(leases)
    {
      acquired := !(key in leases && now < leases[key].expiresAt);
      if acquired {
        leases := leases[key := Lease(owner, now + ttl)];
      }
    }

    method Release(key: string, owner: string, now: int) returns (deleted: bool)
      modifies this
      ensures (leases, deleted) == CompareDelete(old(leases), key, owner, now)
      ensures deleted <==> key in old(leases) && now < old(leases)[key].expiresAt && old(leases)[key].owner == owner
      ensures leases == if deleted then old(leases) - {key} else old(leases)
    {
      deleted := LiveOwner(leases, key, now) == Some(owner);
      if deleted {
        leases := leases - {key};
      }
    }

    method Renew(key: string, owner: string, ttl: int, now: int) returns (renewed: bool)
      modifies this
      ensures (leases, renewed) == CompareRenew(old(leases), key, owner, ttl, now)
      ensures renewed <==> key in old(leases) && now < old(leases)[key].expiresAt && old(leases)[key].owner == owner
      ensures leases == if renewed then old(leases)[key := Lease(owner, now + ttl)] else old(leases)
    {
      renewed := LiveOwner(leases, key, now) == Some(owner);
      if renewed {
        leases := leases[key := Lease(owner, now + ttl)];
      }
    }
  }

  /**
   * The waiting loop of a lock: `answers` are the SET NX answers and the clock readings after them.
   * It acquires at the first granted attempt, and gives up only at a refused one past the deadline.
   */
  method AcquireBefore(deadline: int, answers: seq<(bool, int)>) returns (acquired: bool, attempts: nat)
    ensures attempts <= |answers|
    ensures acquired ==> attempts > 0 && answers[attempts - 1].0
    ensures forall k :: 0 <= k < attempts - 1 ==> !answers[k].0 && answers[k].1 < deadline
    ensures !acquired && attempts < |answers| ==> attempts > 0 && !answers[attempts - 1].0 && answers[attempts - 1].1 >= deadline
    ensures !acquired ==> forall k :: 0 <= k < attempts ==> !answers[k].0
  {
    attempts := 0;
    while attempts < |answers|
      invariant attempts <= |answers|
      invariant forall k :: 0 <= k < attempts ==> !answers[k].0 && answers[k].1 < deadline
    {
      var answer := answers[attempts];
      attempts := attempts + 1;
      if answer.0 {
        return true, attempts;
      }
      if answer.1 >= deadline {
        return false, attempts;
      }
    }
    acquired := false;
  }

  // ---------------------------------------------------------------- ownership by renewal

  /** The next command a refresh sends for one key: SET NX, GET, the renewing script, and GET again. */
  datatype Command = AskSet | AskGet | AskRenew | AskAgain

  /**
   * The commands of all refreshes interleave. `refreshing` has the refreshes in flight by process and key,
   * and `confirmed` when each process was last told, for each key, that it owns it.
   */
  datatype Owners = Owners(
    store: Store,
    now: int,
    refreshing: map<(string, string), seq<Command>>,
    confirmed: map<(string, string), int>)

  datatype OwnerStep =
    | Tick(ms: nat)
    | Begin(owner: string, key: string)
    | Send(owner: string, key: string, i: nat)
    | Shutdown(owner: string, key: string)

  function InFlight(o: Owners, who: (string, string)): seq<Command> {
    if who in o.refreshing then o.refreshing[who] else []
  }

  function Answered(o: Owners, who: (string, string), i: nat, next: Command): Owners
    requires i < |InFlight(o, who)|
  {
    o.(refreshing := o.refreshing[who := InFlight(o, who)[i := next]])
  }

  /** The refresh of the key ends, and remembers whether it is ours. */
  function Finished(o: Owners, who: (string, string), i: nat, owned: bool): Owners
    requires i < |InFlight(o, who)|
  {
    o.(refreshing := o.refreshing[who := InFlight(o, who)[..i] + InFlight(o, who)[i + 1..]],
       confirmed := if owned then o.confirmed[who := o.now] else o.confirmed - {who})
  }

  function SendCommand(o: Owners, owner: string, key: string, i: nat, ttl: int): Owners
    requires i < |InFlight(o, (owner, key))|
  {
    var who := (owner, key);
    match InFlight(o, who)[i]
    case AskSet =>
      var (store, ok) := SetNx(o.store, key, owner, ttl, o.now);
      Answered(o, who, i, if ok then AskRenew else AskGet).(store := store)
    case AskGet =>
      if LiveOwner(o.store, key, o.now) == Some(owner) then Answered(o, who, i, AskRenew) else Finished(o, who, i, false)
    case AskRenew =>
      var (store, ok) := CompareRenew(o.store, key, owner, ttl, o.now);
      if ok then Finished(o, who, i, true).(store := store) else Answered(o, who, i, AskAgain)
    case AskAgain => Finished(o, who, i, LiveOwner(o.store, key, o.now) == Some(owner))
  }

  /** At most `n` refreshes of one key by one process are in flight at once. */
  function NextOwners(o: Owners, s: OwnerStep, ttl: int, n: nat): Owners {
    match s
    case Tick(ms) => o.(now := o.now + ms)
    case Begin(owner, key) =>
      if |InFlight(o, (owner, key))| < n
      then o.(refreshing := o.refreshing[(owner, key) := InFlight(o, (owner, key)) + [AskSet]])
      else o
    case Send(owner, key, i) => if i < |InFlight(o, (owner, key))| then SendCommand(o, owner, key, i, ttl) else o
    case Shutdown(owner, key) =>
      o.(store := CompareDelete(o.store, key, owner, o.now).0, confirmed := o.confirmed - {(owner, key)})
  }

  function RunOwners(o: Owners, steps: seq<OwnerStep>, ttl: int, n: nat): Owners
    decreases |steps|
  {
    if |steps| == 0 then o else RunOwners(NextOwners(o, steps[0], ttl, n), steps[1..], ttl, n)
  }

  /** The lease of a key is another owner's, and has not run out. */
  predicate TakenByOther(s: Store, owner: string, key: string, now: int) {
    key in s && s[key].owner != owner && now < s[key].expiresAt
  }

  /**
   * A refresh that no other process interrupts takes a free key and renews its own, and is told so; it
   * leaves the lease of another owner alone, and forgets an older confirmation.
   */
  lemma RefreshAlone(o: Owners, owner: string, key: string, ttl: int, n: nat)
    requires InFlight(o, (owner, key)) == [] && n > 0 && ttl > 0
    ensures var send := Send(owner, key, 0);
            var after := RunOwners(o, [Begin(owner, key), send, send, send], ttl, n);
            && InFlight(after, (owner, key)) == [] && after.now == o.now
            && if TakenByOther(o.store, owner, key, o.now)
               then after.store == o.store && after.confirmed == o.confirmed - {(owner, key)}
               else after.store == o.store[key := Lease(owner, o.now + ttl)] && after.confirmed == o.confirmed[(owner, key) := o.now]
  {
    var who, send := (owner, key), Send(owner, key, 0);
    var steps := [Begin(owner, key), send, send, send];
    assert steps[1..] == [send, send, send] && [send, send, send][1..] == [send, send] && [send, send][1..] == [send] && [send][1..] == [];
    var a := NextOwners(o, steps[0], ttl, n);
    assert InFlight(a, who) == [AskSet];
    var b := NextOwners(a, send, ttl, n);
    var c := NextOwners(b, send, ttl, n);
    var d := NextOwners(c, send, ttl, n);
    assert RunOwners(a, [send, send, send], ttl, n) == RunOwners(b, [send, send], ttl, n);
    assert RunOwners(b, [send, send], ttl, n) == RunOwners(c, [send], ttl, n);
    assert RunOwners(c, [send], ttl, n) == RunOwners(d, [], ttl, n);
  }

  /** A shutdown gives the own lease back, so that any other process can take the key at once, and no other one. */
  lemma ShutdownGivesBack(o: Owners, owner: string, key: string, ttl: int, n: nat)
    ensures var after := NextOwners(o, Shutdown(owner, key), ttl, n);
            && after.confirmed == o.confirmed - {(owner, key)} && after.refreshing == o.refreshing && after.now == o.now
            && if TakenByOther(o.store, owner, key, o.now) then after.store == o.store
               else forall other, t: int :: SetNx(after.store, key, other, t, o.now) == (after.store[key := Lease(other, o.now + t)], true)
  {
  }

  function StartOwners(now: int): Owners { Owners(map[], now, map[], map[]) }

  predicate Fresh(o: Owners, who: (string, string), ttl: int) {
    who in o.confirmed && o.now < o.confirmed[who] + ttl
  }

  /** A confirmation younger than the time to live is backed by the store, as long as refreshes do not overlap. */
  ghost predicate Backed(o: Owners, ttl: int) {
    && (forall owner, key :: Fresh(o, (owner, key), ttl) ==>
          key in o.store && o.store[key] == Lease(owner, o.confirmed[(owner, key)] + ttl))
    && (forall owner, key :: |InFlight(o, (owner, key))| <= 1)
    && (forall owner, key :: |InFlight(o, (owner, key))| == 1 && InFlight(o, (owner, key))[0] == AskAgain ==>
          LiveOwner(o.store, key, o.now) != Some(owner))
  }

  lemma NextBacked(o: Owners, s: OwnerStep, ttl: int, n: nat)
    requires Backed(o, ttl) && ttl > 0 && n <= 1
    ensures Backed(NextOwners(o, s, ttl, n), ttl)
  {
    if s.Send? && s.i < |InFlight(o, (s.owner, s.key))| {
      SendBacked(o, s.owner, s.key, ttl);
    }
  }

  lemma SendBacked(o: Owners, owner: string, key: string, ttl: int)
    requires Backed(o, ttl) && ttl > 0 && |InFlight(o, (owner, key))| == 1
    ensures Backed(SendCommand(o, owner, key, 0, ttl), ttl)
  {
    var next := SendCommand(o, owner, key, 0, ttl);
    forall p, k
      ensures Fresh(next, (p, k), ttl) ==> k in next.store && next.store[k] == Lease(p, next.confirmed[(p, k)] + ttl)
      ensures |InFlight(next, (p, k))| <= 1
      ensures |InFlight(next, (p, k))| == 1 && InFlight(next, (p, k))[0] == AskAgain ==> LiveOwner(next.store, k, next.now) != Some(p)
    {
      assert |InFlight(o, (p, k))| <= 1;
    }
  }

  lemma {:induction false} RunBacked(o: Owners, steps: seq<OwnerStep>, ttl: int, n: nat)
    requires Backed(o, ttl) && ttl > 0 && n <= 1
    ensures Backed(RunOwners(o, steps, ttl, n), ttl)
    decreases |steps|
  {
    hide Backed, NextOwners;
    if |steps| > 0 {
      NextBacked(o, steps[0], ttl, n);
      RunBacked(NextOwners(o, steps[0], ttl, n), steps[1..], ttl, n);
    }
  }

  /**
   * However the commands of the processes interleave, two processes never both hold a confirmation of the
   * same key that is younger than the time to live, as long as no process overlaps its own refreshes
   * of the key.
   */
  lemma OneFreshOwner(steps: seq<OwnerStep>, start: int, ttl: int, n: nat, a: string, b: string, key: string)
    requires ttl > 0 && n <= 1
    ensures var o := RunOwners(StartOwners(start), steps, ttl, n);
            Fresh(o, (a, key), ttl) && Fresh(o, (b, key), ttl) ==> a == b && LiveOwner(o.store, key, o.now) == Some(a)
  {
    hide RunOwners, NextOwners;
    RunBacked(StartOwners(start), steps, ttl, n);
  }

  // ---------------------------------------------------------------- overlapping refreshes

  /** In every run with at most `n` refreshes of a key in flight per process, fresh confirmations are of one process. */
  ghost predicate OneOwner(ttl: int, n: nat) {
    forall steps, start, a, b, key ::
      var o := RunOwners(StartOwners(start), steps, ttl, n);
      Fresh(o, (a, key), ttl) && Fresh(o, (b, key), ttl) ==> a == b
  }

  /** The lease of a first refresh runs out before it is renewed, and a second refresh takes it again. */
  const OVERLAPPED: seq<OwnerStep> := [Begin("a", "k"), Begin("a", "k"), Send("a", "k", 0)]

  function Retaken(ttl: nat): seq<OwnerStep> { [OwnerStep.Tick(ttl), Send("a", "k", 0), Send("a", "k", 1)] }

  /** The first refresh then finds the lease of the second, and counts its own confirmation from then. */
  function Misread(ttl: nat): seq<OwnerStep>
    requires ttl > 0
  {
    [OwnerStep.Tick(1), Send("a", "k", 0), OwnerStep.Tick(ttl - 1)]
  }

  const TAKEN_OVER: seq<OwnerStep> := [Begin("b", "k"), Send("b", "k", 0), Send("b", "k", 0)]

  lemma RunThreeOwners(o: Owners, steps: seq<OwnerStep>, ttl: int, n: nat)
    requires |steps| >= 3
    ensures RunOwners(o, steps, ttl, n)
            == RunOwners(NextOwners(NextOwners(NextOwners(o, steps[0], ttl, n), steps[1], ttl, n), steps[2], ttl, n), steps[3..], ttl, n)
  {
    hide NextOwners;
    var o1 := NextOwners(o, steps[0], ttl, n);
    var o2 := NextOwners(o1, steps[1], ttl, n);
    assert steps[1..][0] == steps[1] && steps[1..][1..] == steps[2..];
    assert steps[2..][0] == steps[2] && steps[2..][1..] == steps[3..];
    assert RunOwners(o1, steps[1..], ttl, n) == RunOwners(o2, steps[2..], ttl, n);
  }

  lemma FirstOverlap(ttl: nat, n: nat)
    requires ttl > 0 && n >= 2
    ensures RunOwners(StartOwners(0), OVERLAPPED, ttl, n)
            == Owners(map["k" := Lease("a", ttl)], 0, map[("a", "k") := [AskRenew, AskSet]], map[])
  {
    hide RunOwners;
    var o0 := StartOwners(0);
    var o1 := NextOwners(o0, OVERLAPPED[0], ttl, n);
    assert InFlight(o1, ("a", "k")) == [AskSet];
    var o2 := NextOwners(o1, OVERLAPPED[1], ttl, n);
    assert InFlight(o2, ("a", "k")) == [AskSet, AskSet];
    var o3 := NextOwners(o2, OVERLAPPED[2], ttl, n);
    assert InFlight(o3, ("a", "k")) == [AskRenew, AskSet];
    assert o3 == Owners(map["k" := Lease("a", ttl)], 0, map[("a", "k") := [AskRenew, AskSet]], map[]);
    RunThreeOwners(o0, OVERLAPPED, ttl, n);
    NothingMore(o3, OVERLAPPED[3..], ttl, n);
  }

  lemma NothingMore(o: Owners, steps: seq<OwnerStep>, ttl: int, n: nat)
    requires steps == []
    ensures RunOwners(o, steps, ttl, n) == o
  {
  }

  lemma LeaseRetaken(ttl: nat, n: nat)
    requires ttl > 0
    ensures RunOwners(Owners(map["k" := Lease("a", ttl)], 0, map[("a", "k") := [AskRenew, AskSet]], map[]), Retaken(ttl), ttl, n)
            == Owners(map["k" := Lease("a", ttl + ttl)], ttl, map[("a", "k") := [AskAgain, AskRenew]], map[])
  {
    hide RunOwners;
    var steps := Retaken(ttl);
    var o0 := Owners(map["k" := Lease("a", ttl)], 0, map[("a", "k") := [AskRenew, AskSet]], map[]);
    var o1 := NextOwners(o0, steps[0], ttl, n);
    var o2 := NextOwners(o1, steps[1], ttl, n);
    assert InFlight(o2, ("a", "k")) == [AskAgain, AskSet];
    var o3 := NextOwners(o2, steps[2], ttl, n);
    assert InFlight(o3, ("a", "k")) == [AskAgain, AskRenew];
    assert o3 == Owners(map["k" := Lease("a", ttl + ttl)], ttl, map[("a", "k") := [AskAgain, AskRenew]], map[]);
    RunThreeOwners(o0, steps, ttl, n);
    NothingMore(o3, steps[3..], ttl, n);
  }

  lemma LeaseMisread(ttl: nat, n: nat)
    requires ttl >= 2
    ensures RunOwners(Owners(map["k" := Lease("a", ttl + ttl)], ttl, map[("a", "k") := [AskAgain, AskRenew]], map[]), Misread(ttl), ttl, n)
            == Owners(map["k" := Lease("a", ttl + ttl)], ttl + ttl, map[("a", "k") := [AskRenew]], map[("a", "k") := ttl + 1])
  {
    hide RunOwners;
    var steps := Misread(ttl);
    var o0 := Owners(map["k" := Lease("a", ttl + ttl)], ttl, map[("a", "k") := [AskAgain, AskRenew]], map[]);
    var o1 := NextOwners(o0, steps[0], ttl, n);
    var o2 := NextOwners(o1, steps[1], ttl, n);
    assert InFlight(o2, ("a", "k")) == [AskRenew];
    var o3 := NextOwners(o2, steps[2], ttl, n);
    assert o3 == Owners(map["k" := Lease("a", ttl + ttl)], ttl + ttl, map[("a", "k") := [AskRenew]], map[("a", "k") := ttl + 1]);
    RunThreeOwners(o0, steps, ttl, n);
    NothingMore(o3, steps[3..], ttl, n);
  }

  lemma LeaseTakenOver(ttl: nat, n: nat)
    requires ttl >= 2 && n >= 2
    ensures var o := RunOwners(Owners(map["k" := Lease("a", ttl + ttl)], ttl + ttl, map[("a", "k") := [AskRenew]], map[("a", "k") := ttl + 1]),
                       TAKEN_OVER, ttl, n);
            Fresh(o, ("a", "k"), ttl) && Fresh(o, ("b", "k"), ttl)
  {
    hide RunOwners;
    var o0 := Owners(map["k" := Lease("a", ttl + ttl)], ttl + ttl, map[("a", "k") := [AskRenew]], map[("a", "k") := ttl + 1]);
    var o1 := NextOwners(o0, TAKEN_OVER[0], ttl, n);
    assert InFlight(o1, ("b", "k")) == [AskSet];
    var o2 := NextOwners(o1, TAKEN_OVER[1], ttl, n);
    assert InFlight(o2, ("b", "k")) == [AskRenew] && o2.store["k"] == Lease("b", ttl + ttl + ttl);
    var o3 := NextOwners(o2, TAKEN_OVER[2], ttl, n);
    assert o3.confirmed == map[("a", "k") := ttl + 1, ("b", "k") := ttl + ttl] && o3.now == ttl + ttl;
    RunThreeOwners(o0, TAKEN_OVER, ttl, n);
    NothingMore(o3, TAKEN_OVER[3..], ttl, n);
  }

  lemma {:induction false} RunMoreOwners(o: Owners, some: seq<OwnerStep>, more: seq<OwnerStep>, ttl: int, n: nat)
    ensures RunOwners(o, some + more, ttl, n) == RunOwners(RunOwners(o, some, ttl, n), more, ttl, n)
    decreases |some|
  {
    hide NextOwners;
    if |some| == 0 {
      assert some + more == more;
    } else {
      assert (some + more)[1..] == some[1..] + more;
      RunMoreOwners(NextOwners(o, some[0], ttl, n), some[1..], more, ttl, n);
    }
  }

  /** Two fresh confirmations of two processes, out of two overlapping refreshes of one of them. */
  lemma OverlapBreaks(ttl: nat, n: nat)
    requires ttl >= 2 && n >= 2
    ensures var o := RunOwners(StartOwners(0), ((OVERLAPPED + Retaken(ttl)) + Misread(ttl)) + TAKEN_OVER, ttl, n);
            Fresh(o, ("a", "k"), ttl) && Fresh(o, ("b", "k"), ttl)
  {
    hide RunOwners, Fresh, Retaken, Misread;
    FirstOverlap(ttl, n);
    LeaseRetaken(ttl, n);
    LeaseMisread(ttl, n);
    LeaseTakenOver(ttl, n);
    RunMoreOwners(StartOwners(0), OVERLAPPED, Retaken(ttl), ttl, n);
    RunMoreOwners(StartOwners(0), OVERLAPPED + Retaken(ttl), Misread(ttl), ttl, n);
    RunMoreOwners(StartOwners(0), (OVERLAPPED + Retaken(ttl)) + Misread(ttl), TAKEN_OVER, ttl, n);
  }

  /**
   * Fresh confirmations are of one process in every run exactly when no process has two refreshes of a
   * key in flight. Nothing in the service keeps a slow refresh from overlapping the next one.
   */
  lemma OneOwnerExactlyWhen(ttl: nat, n: nat)
    requires ttl >= 2
    ensures OneOwner(ttl, n) <==> n <= 1
  {
    hide RunOwners, Fresh, Retaken, Misread;
    if n <= 1 {
      forall steps, start, a, b, key
        ensures var o := RunOwners(StartOwners(start), steps, ttl, n);
                Fresh(o, (a, key), ttl) && Fresh(o, (b, key), ttl) ==> a == b
      {
        OneFreshOwner(steps, start, ttl, n, a, b, key);
      }
    } else {
      OverlapBreaks(ttl, n);
    }
  }

  datatype Snapshot = Snapshot(key: string, ownerId: Option<string>)

  class TrackerWsOwnership {
    const ownerId: string
    const ttl: int
    var snapshots: seq<Snapshot>

    constructor (ownerId: string, ttl: int)
      ensures this.ownerId == ownerId && this.ttl == ttl && snapshots == []
    {
      this.ownerId := ownerId;
      this.ttl := ttl;
      snapshots := [];
    }

    /**
     * Refreshes every target in order and replaces the snapshots. A snapshot names this process
     * exactly when the store holds its lease, renewed now; leases of other processes are untouched.
     */
    method Refresh(store: LeaseStore, targets: seq<string>, now: int)
      requires ttl > 0
      modifies this, store
      ensures |snapshots| == |targets|
      ensures forall i :: 0 <= i < |targets| ==>
                && snapshots[i].key == targets[i]
                && snapshots[i].ownerId == LiveOwner(store.leases, targets[i], now) && snapshots[i].ownerId.Some?
                && (snapshots[i].ownerId == Some(ownerId) <==>
                      targets[i] in store.leases && store.leases[targets[i]] == Lease(ownerId, now + ttl))
      ensures forall key :: LiveOwner(old(store.leases), key, now).Some? && LiveOwner(old(store.leases), key, now) != Some(ownerId) ==>
                LiveOwner(store.leases, key, now) == LiveOwner(old(store.leases), key, now)
    {
      var next: seq<Snapshot> := [];
      var i := 0;
      while i < |targets|
        invariant 0 <= i <= |targets| && |next| == i
        invariant forall k :: 0 <= k < i ==> SnapshotOf(store.leases, next[k], targets[k], ownerId, ttl, now)
        invariant forall key :: LiveOwner(old(store.leases), key, now).Some? && LiveOwner(old(store.leases), key, now) != Some(ownerId) ==>
                    LiveOwner(store.leases, key, now) == LiveOwner(old(store.leases), key, now)
      {
        var key := targets[i];
        ghost var before := store.leases;
        var acquired := store.TrySet(key, ownerId, ttl, now);
        var owner := if acquired then Some(ownerId) else LiveOwner(store.leases, key, now);
        if owner == Some(ownerId) {
          var renewed := store.Renew(key, ownerId, ttl, now);
          var seen := LiveOwner(store.leases, key, now);
          owner := if renewed then Some(ownerId) else seen;
        }
        forall k | 0 <= k < i ensures SnapshotOf(store.leases, next[k], targets[k], ownerId, ttl, now) {
          SnapshotKept(before, store.leases, next[k], targets[k], ownerId, key, ttl, now);
        }
        next := next + [Snapshot(key, owner)];
        i := i + 1;
      }
      snapshots := next;
    }
  }

  ghost predicate SnapshotOf(s: Store, snapshot: Snapshot, key: string, owner: string, ttl: int, now: int) {
    && snapshot.key == key
    && snapshot.ownerId == LiveOwner(s, key, now) && snapshot.ownerId.Some?
    && (snapshot.ownerId == Some(owner) <==> key in s && s[key] == Lease(owner, now + ttl))
  }

  lemma SnapshotKept(before: Store, after: Store, snapshot: Snapshot, key: string, owner: string, changed: string, ttl: int, now: int)
    requires SnapshotOf(before, snapshot, key, owner, ttl, now) && ttl > 0
    requires after == before || (after == before[changed := Lease(owner, now + ttl)]
               && (LiveOwner(before, changed, now).None? || LiveOwner(before, changed, now) == Some(owner)))
    ensures SnapshotOf(after, snapshot, key, owner, ttl, now)
  {
  }
}
