/**
 * The in-process promise chain that serialises the calls of one account inside one usecase instance.
 * A call chains itself behind the tail stored for its account, waits for that tail, runs, resolves
 * its own promise and removes the stored tail if it is still its own.
 */
module AccountChains {
  import opened Wrappers

  /**
   * Calls are numbered in arrival order. `previous` is the tail a call found stored when it arrived,
   * `released` the calls that resolved their promise, `running` those past their wait.
   */
  datatype Chains = Chains(
    entries: map<int, nat>,
    account: seq<int>,
    previous: seq<Option<nat>>,
    released: set<nat>,
    running: set<nat>)

  const EMPTY := Chains(map[], [], [], {}, {})

  /** A tail resolves once the call it belongs to is released and the tail before it has resolved. */
  predicate Resolved(c: Chains, t: nat) {
    && t in c.released && t < |c.previous|
    && (c.previous[t].Some? ==> c.previous[t].value < t && Resolved(c, c.previous[t].value))
  }

  predicate MayEnter(c: Chains, t: nat)
    requires t < |c.previous|
  {
    c.previous[t].Some? ==> Resolved(c, c.previous[t].value)
  }

  datatype Step = Arrive(account: int) | Enter(call: nat) | Finish(call: nat)

  predicate Enabled(c: Chains, s: Step) {
    match s
    case Arrive(_) => true
    case Enter(t) => t < |c.previous| && t !in c.running && t !in c.released && MayEnter(c, t)
    case Finish(t) => t in c.running && t < |c.account|
  }

  function Next(c: Chains, s: Step): Chains {
    if !Enabled(c, s) then c
    else
      match s
      case Arrive(a) =>
        c.(entries := c.entries[a := |c.account|],
           account := c.account + [a],
           previous := c.previous + [if a in c.entries then Some(c.entries[a]) else None])
      case Enter(t) => c.(running := c.running + {t})
      case Finish(t) =>
        var a := c.account[t];
        c.(released := c.released + {t},
           running := c.running - {t},
           entries := if a in c.entries && c.entries[a] == t then c.entries - {a} else c.entries)
  }

  function Run(c: Chains, steps: seq<Step>): Chains
    decreases |steps|
  {
    if |steps| == 0 then c else Run(Next(c, steps[0]), steps[1..])
  }

  /** The calls of an account among the first n that have not finished, in arrival order. */
  function Unfinished(c: Chains, a: int, n: nat): (q: seq<nat>)
    requires n <= |c.account|
    ensures forall t :: t in q ==> t < n && c.account[t] == a && t !in c.released
    ensures forall t: nat :: t < n && c.account[t] == a && t !in c.released ==> t in q
  {
    if n == 0 then []
    else
      var before := Unfinished(c, a, n - 1);
      if c.account[n - 1] == a && n - 1 !in c.released then before + [n - 1] else before
  }

  // ---------------------------------------------------------------- invariant

  /** The stored tail is the last unfinished call's, and nothing is stored when there is none. */
  ghost predicate EntryIsLast(c: Chains, a: int) {
    var q := Unfinished(c, a, |c.account|);
    (a in c.entries <==> q != []) && (q != [] ==> c.entries[a] == q[|q| - 1])
  }

  /** A call waits for the unfinished call just before it, or for a tail that has already resolved. */
  ghost predicate WaitsForPrior(c: Chains, t: nat)
    requires t < |c.account| == |c.previous|
  {
    var q := Unfinished(c, c.account[t], t);
    if q != [] then c.previous[t] == Some(q[|q| - 1])
    else c.previous[t].Some? ==> c.previous[t].value < t && Resolved(c, c.previous[t].value)
  }

  ghost predicate Inv(c: Chains) {
    && |c.account| == |c.previous|
    && (forall a :: EntryIsLast(c, a))
    && (forall t: nat :: t < |c.account| && t !in c.released ==> WaitsForPrior(c, t))
    && (forall t :: t in c.released ==> t < |c.account|)
    && (forall t :: t in c.running ==> t < |c.account| && t !in c.released && Unfinished(c, c.account[t], t) == [])
  }

  /** A call may pass its wait exactly when it is the oldest unfinished call of its account. */
  lemma EntersExactlyAtHead(c: Chains, t: nat)
    requires Inv(c) && t < |c.account| && t !in c.released
    ensures MayEnter(c, t) <==> Unfinished(c, c.account[t], |c.account|)[0] == t
  {
    UnfinishedSplit(c, c.account[t], t, |c.account|);
    assert WaitsForPrior(c, t);
    var q := Unfinished(c, c.account[t], t);
    if q != [] {
      assert q[|q| - 1] in q && q[0] in q;
    }
  }

  /** The unfinished calls before t are a prefix of all of them, and t comes next if it is one. */
  lemma {:induction false} UnfinishedSplit(c: Chains, a: int, t: nat, n: nat)
    requires t < n <= |c.account| && c.account[t] == a && t !in c.released
    ensures Unfinished(c, a, t) + [t] <= Unfinished(c, a, n)
    decreases n
  {
    if t < n - 1 {
      UnfinishedSplit(c, a, t, n - 1);
    }
  }

  // ---------------------------------------------------------------- steps

  lemma {:induction false} ResolvedMonotone(c: Chains, d: Chains, t: nat)
    requires c.released <= d.released && c.previous <= d.previous && Resolved(c, t)
    ensures Resolved(d, t)
    decreases t
  {
    if c.previous[t].Some? {
      ResolvedMonotone(c, d, c.previous[t].value);
    }
  }

  lemma {:induction false} UnfinishedExtended(c: Chains, d: Chains, a: int, n: nat)
    requires n <= |c.account| && c.account <= d.account && c.released == d.released
    ensures Unfinished(c, a, n) == Unfinished(d, a, n)
  {
    if n > 0 {
      UnfinishedExtended(c, d, a, n - 1);
    }
  }

  /** Releasing the oldest unfinished call of an account takes the head off its queue and no other. */
  lemma {:induction false} UnfinishedReleased(c: Chains, d: Chains, t: nat, a: int, n: nat)
    requires n <= |c.account| && t < |c.account| && d.account == c.account && d.released == c.released + {t}
    requires t !in c.released && Unfinished(c, c.account[t], t) == []
    ensures Unfinished(c, a, n) == (if t < n && a == c.account[t] then [t] else []) + Unfinished(d, a, n)
    decreases n
  {
    if n <= t || a != c.account[t] {
      UnfinishedElsewhere(c, d, t, a, n);
    } else if n - 1 == t {
      UnfinishedElsewhere(c, d, t, a, t);
    } else {
      UnfinishedReleased(c, d, t, a, n - 1);
      var rest := Unfinished(d, a, n - 1);
      assert ([t] + rest) + [n - 1] == [t] + (rest + [n - 1]);
    }
  }

  /** The release of a call is not seen before it, nor in the queue of another account. */
  lemma {:induction false} UnfinishedElsewhere(c: Chains, d: Chains, t: nat, a: int, n: nat)
    requires n <= |c.account| && t < |c.account| && d.account == c.account && d.released == c.released + {t}
    requires n <= t || a != c.account[t]
    ensures Unfinished(c, a, n) == Unfinished(d, a, n)
  {
    if n > 0 {
      UnfinishedElsewhere(c, d, t, a, n - 1);
    }
  }

  lemma ArriveKeepsEntry(c: Chains, a: int, b: int)
    requires Inv(c)
    ensures EntryIsLast(Next(c, Arrive(a)), b)
  {
    hide Resolved, WaitsForPrior, MayEnter;
    var d := Next(c, Arrive(a));
    assert EntryIsLast(c, b);
    UnfinishedExtended(c, d, b, |c.account|);
  }

  lemma ArriveKeepsWait(c: Chains, a: int, t: nat)
    requires Inv(c) && t <= |c.account| && t !in c.released
    ensures WaitsForPrior(Next(c, Arrive(a)), t)
  {
    hide Resolved, MayEnter, Unfinished, EntryIsLast, WaitsForPrior;
    if t < |c.account| {
      assert WaitsForPrior(c, t);
      EarlierKeepsWait(c, a, t);
    } else {
      assert EntryIsLast(c, a);
      ArrivalWaits(c, a);
    }
  }

  lemma EarlierKeepsWait(c: Chains, a: int, t: nat)
    requires |c.account| == |c.previous| && t < |c.account| && WaitsForPrior(c, t)
    ensures WaitsForPrior(Next(c, Arrive(a)), t)
  {
    hide Resolved, MayEnter, Unfinished;
    var d := Next(c, Arrive(a));
    UnfinishedExtended(c, d, d.account[t], t);
    PriorKept(c, d, t);
  }

  lemma ArrivalWaits(c: Chains, a: int)
    requires |c.account| == |c.previous| && EntryIsLast(c, a)
    ensures WaitsForPrior(Next(c, Arrive(a)), |c.account|)
  {
    hide Resolved, MayEnter, Unfinished;
    UnfinishedExtended(c, Next(c, Arrive(a)), a, |c.account|);
  }

  lemma ArriveKeeps(c: Chains, a: int)
    requires Inv(c)
    ensures Inv(Next(c, Arrive(a)))
  {
    hide Resolved, MayEnter, WaitsForPrior, EntryIsLast, Unfinished;
    var d := Next(c, Arrive(a));
    forall b ensures EntryIsLast(d, b) {
      ArriveKeepsEntry(c, a, b);
    }
    forall t: nat | t < |d.account| && t !in d.released ensures WaitsForPrior(d, t) {
      ArriveKeepsWait(c, a, t);
    }
    forall t | t in d.running ensures t < |d.account| && t !in d.released && Unfinished(d, d.account[t], t) == [] {
      UnfinishedExtended(c, d, c.account[t], t);
    }
  }

  lemma PriorKept(c: Chains, d: Chains, t: nat)
    requires c.released <= d.released && c.previous <= d.previous && t < |c.previous|
    ensures c.previous[t].Some? && Resolved(c, c.previous[t].value) ==> Resolved(d, d.previous[t].value)
  {
    if c.previous[t].Some? && Resolved(c, c.previous[t].value) {
      ResolvedMonotone(c, d, c.previous[t].value);
    }
  }

  lemma EnterKeeps(c: Chains, t: nat)
    requires Inv(c)
    ensures Inv(Next(c, Enter(t)))
  {
    hide Resolved, MayEnter;
    if Enabled(c, Enter(t)) {
      var d := Next(c, Enter(t));
      EntersExactlyAtHead(c, t);
      HeadHasNonePrior(c, t);
      SameQueues(c, d);
    }
  }

  lemma HeadHasNonePrior(c: Chains, t: nat)
    requires t < |c.account| && t !in c.released && Unfinished(c, c.account[t], |c.account|)[0] == t
    ensures Unfinished(c, c.account[t], t) == []
  {
    UnfinishedSplit(c, c.account[t], t, |c.account|);
  }

  /** Nothing but the running set differs. */
  lemma SameQueues(c: Chains, d: Chains)
    requires Inv(c) && d == c.(running := d.running)
    requires forall t :: t in d.running ==> t < |c.account| && t !in c.released && Unfinished(c, c.account[t], t) == []
    ensures Inv(d)
  {
    hide Resolved;
    forall a, k: nat | k <= |c.account| ensures Unfinished(d, a, k) == Unfinished(c, a, k) {
      UnfinishedExtended(c, d, a, k);
    }
    forall a ensures EntryIsLast(d, a) {
      assert EntryIsLast(c, a);
    }
    forall t: nat | t < |c.account| && t !in d.released ensures WaitsForPrior(d, t) {
      assert WaitsForPrior(c, t);
      PriorKept(c, d, t);
    }
  }

  lemma FinishKeepsEntry(c: Chains, t: nat, b: int)
    requires Inv(c) && t in c.running
    ensures EntryIsLast(Next(c, Finish(t)), b)
  {
    hide Resolved, WaitsForPrior;
    var d := Next(c, Finish(t));
    assert EntryIsLast(c, b);
    UnfinishedReleased(c, d, t, b, |c.account|);
    var q, r := Unfinished(c, b, |c.account|), Unfinished(d, b, |c.account|);
    if b == c.account[t] && r != [] {
      assert q[|q| - 1] == r[|r| - 1] && r[|r| - 1] in r;
    }
  }

  lemma FinishKeepsWait(c: Chains, t: nat, s: nat)
    requires Inv(c) && t in c.running && s < |c.account| && s !in c.released && s != t
    ensures WaitsForPrior(Next(c, Finish(t)), s)
  {
    hide Resolved;
    var d := Next(c, Finish(t));
    assert WaitsForPrior(c, s) && WaitsForPrior(c, t);
    UnfinishedReleased(c, d, t, c.account[s], s);
    PriorKept(c, d, s);
    PriorKept(c, d, t);
    var q, r := Unfinished(c, c.account[s], s), Unfinished(d, c.account[s], s);
    if q != [] && r == [] {
      assert q == [t] && c.previous[s] == Some(t);
      ReleasedResolves(d, t);
    } else if r != [] {
      assert q[|q| - 1] == r[|r| - 1];
    }
  }

  lemma ReleasedResolves(d: Chains, t: nat)
    requires t in d.released && t < |d.previous|
    requires d.previous[t].Some? ==> d.previous[t].value < t && Resolved(d, d.previous[t].value)
    ensures Resolved(d, t)
  {
  }

  lemma FinishKeeps(c: Chains, t: nat)
    requires Inv(c)
    ensures Inv(Next(c, Finish(t)))
  {
    hide Resolved, WaitsForPrior, EntryIsLast;
    if Enabled(c, Finish(t)) {
      var d := Next(c, Finish(t));
      forall b ensures EntryIsLast(d, b) {
        FinishKeepsEntry(c, t, b);
      }
      forall s: nat | s < |d.account| && s !in d.released ensures WaitsForPrior(d, s) {
        FinishKeepsWait(c, t, s);
      }
      forall s | s in d.running ensures Unfinished(d, d.account[s], s) == [] {
        UnfinishedReleased(c, d, t, c.account[s], s);
      }
    }
  }

  lemma {:induction false} RunKeepsInv(c: Chains, steps: seq<Step>)
    requires Inv(c)
    ensures Inv(Run(c, steps))
    decreases |steps|
  {
    hide Inv, Next;
    if |steps| > 0 {
      match steps[0] {
        case Arrive(a) => ArriveKeeps(c, a);
        case Enter(t) => EnterKeeps(c, t);
        case Finish(t) => FinishKeeps(c, t);
      }
      RunKeepsInv(Next(c, steps[0]), steps[1..]);
    }
  }

  lemma EmptyInv()
    ensures Inv(EMPTY)
  {
  }

  // ---------------------------------------------------------------- what every run guarantees

  /**
   * In every run: calls of one account run one at a time and in arrival order (a running call has no
   * unfinished call before it), and a call may start exactly when it is the oldest unfinished one.
   */
  lemma OneAtATimeInOrder(steps: seq<Step>, t: nat, s: nat)
    ensures var c := Run(EMPTY, steps);
            && |c.account| == |c.previous|
            && (t in c.running ==> t < |c.account|)
            && (t in c.running && s < t && c.account[s] == c.account[t] ==> s in c.released && s !in c.running)
            && (t < |c.account| && t !in c.released ==>
                  (MayEnter(c, t) <==> Unfinished(c, c.account[t], |c.account|)[0] == t))
  {
    hide Run, Resolved, MayEnter, WaitsForPrior, EntryIsLast;
    var c := Run(EMPTY, steps);
    EmptyInv();
    RunKeepsInv(EMPTY, steps);
    if t < |c.account| && t !in c.released {
      EntersExactlyAtHead(c, t);
    }
  }

  /** In every run: an account's map entry is present exactly while some call of it is unfinished. */
  lemma EntryKeptWhileAwaited(steps: seq<Step>, a: int)
    ensures var c := Run(EMPTY, steps);
            a in c.entries <==> exists t: nat :: t < |c.account| && c.account[t] == a && t !in c.released
  {
    hide Run, Resolved, WaitsForPrior;
    var c := Run(EMPTY, steps);
    EmptyInv();
    RunKeepsInv(EMPTY, steps);
    assert EntryIsLast(c, a);
    var q := Unfinished(c, a, |c.account|);
    if q != [] {
      assert q[0] in q;
    }
  }

  /** A waiting call never starves once its turn comes: the oldest unfinished call runs or may enter. */
  lemma HeadCanProceed(steps: seq<Step>, a: int)
    ensures var c := Run(EMPTY, steps);
            var q := Unfinished(c, a, |c.account|);
            q != [] ==> q[0] in c.running || Enabled(c, Enter(q[0]))
  {
    hide Run, Resolved, WaitsForPrior, EntryIsLast, MayEnter;
    var c := Run(EMPTY, steps);
    EmptyInv();
    RunKeepsInv(EMPTY, steps);
    var q := Unfinished(c, a, |c.account|);
    if q != [] {
      assert q[0] in q;
      EntersExactlyAtHead(c, q[0]);
    }
  }

  // ---------------------------------------------------------------- the mutable map

  class AccountLock {
    var accountChains: map<int, nat>
    var account: seq<int>
    var previous: seq<Option<nat>>
    var released: set<nat>
    var running: set<nat>

    function State(): Chains
      reads this
    {
      Chains(accountChains, account, previous, released, running)
    }

    constructor ()
      ensures State() == EMPTY
    {
      accountChains := map[];
      account := [];
      previous := [];
      released := {};
      running := {};
    }

    /** The synchronous part of a call, up to its first await. */
    method Chain(accountId: int) returns (call: nat)
      modifies this
      ensures call == |old(account)|
      ensures State() == Next(old(State()), Arrive(accountId))
    {
      var found := if accountId in accountChains then Some(accountChains[accountId]) else None;
      call := |account|;
      account := account + [accountId];
      previous := previous + [found];
      accountChains := accountChains[accountId := call];
    }

    /** The await of the previous tail: it lets the call through once that tail has resolved. */
    method AwaitPrevious(call: nat) returns (entered: bool)
      requires Inv(State()) && call < |account| && call !in released && call !in running
      modifies this
      ensures State() == Next(old(State()), Enter(call)) && Inv(State())
      ensures entered <==> Unfinished(old(State()), account[call], |account|)[0] == call
      ensures entered <==> call in running
    {
      EntersExactlyAtHead(State(), call);
      EnterKeeps(State(), call);
      entered := MayEnter(State(), call);
      if entered {
        running := running + {call};
      }
    }

    /** The finally block. The entry goes exactly when no later call of the account is chained behind. */
    method Release(call: nat)
      requires Inv(State()) && call in running
      modifies this
      ensures State() == Next(old(State()), Finish(call)) && Inv(State())
      ensures account == old(account) && call < |account|
      ensures account[call] in accountChains <==> Unfinished(old(State()), account[call], |account|) != [call]
    {
      FinishKeeps(State(), call);
      FinishKeepsEntry(State(), call, account[call]);
      UnfinishedReleased(State(), Next(State(), Finish(call)), call, account[call], |account|);
      released := released + {call};
      running := running - {call};
      if account[call] in accountChains && accountChains[account[call]] == call {
        accountChains := accountChains - {account[call]};
      }
    }
  }
}
