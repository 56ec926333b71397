/**
 * Critical sections guarded by a lease. Any number of processes take the lease of a key, work on the
 * object it guards and release it, possibly late. The object is abstract: the chart archive reads,
 * merges and writes a stored partition; the executor's account lock guards broker calls.
 */
module LeasedUpdates {
  import opened Wrappers
  import opened Leases

  /** The update a section performs on what it read, and the value of an object nobody wrote. */
  datatype Update<!V> = Update(merge: (V, V) -> V, empty: V)

  datatype Section<V> = Section(key: string, acquiredAt: int, read: Option<V>)

  /** `sections` are the open ones by owner token; `writes` is what each key was merged with, in order. */
  datatype World<V> = World(
    store: Store,
    now: int,
    objects: map<string, V>,
    sections: map<string, Section<V>>,
    used: set<string>,
    initial: map<string, V>,
    writes: map<string, seq<V>>)

  datatype Step<V> =
    | Tick(ms: nat)
    | Acquire(owner: string, key: string)
    | Read(owner: string)
    | Write(owner: string, incoming: V)
    | Exit(owner: string)
    | Release(owner: string, key: string)

  function ObjectAt<V>(u: Update<V>, objects: map<string, V>, key: string): V {
    if key in objects then objects[key] else u.empty
  }

  function WritesTo<V>(writes: map<string, seq<V>>, key: string): seq<V> {
    if key in writes then writes[key] else []
  }

  function Fold<V>(u: Update<V>, start: V, incoming: seq<V>): V {
    if |incoming| == 0 then start
    else u.merge(Fold(u, start, incoming[..|incoming| - 1]), incoming[|incoming| - 1])
  }

  predicate Enabled<V>(w: World<V>, s: Step<V>, ttl: int) {
    match s
    case Tick(_) => true
    case Acquire(owner, key) => owner !in w.used && LiveOwner(w.store, key, w.now).None?
    case Read(owner) => owner in w.sections
    case Write(owner, _) => owner in w.sections && w.sections[owner].read.Some?
    case Exit(owner) => owner in w.sections
    case Release(owner, _) => owner !in w.sections
  }

  /** No section is open longer than `d`: time does not pass an open section's bound. */
  predicate Within<V>(w: World<V>, s: Step<V>, d: nat) {
    s.Tick? ==> forall owner :: owner in w.sections ==> w.now + s.ms <= w.sections[owner].acquiredAt + d
  }

  function Next<V>(u: Update<V>, w: World<V>, s: Step<V>, ttl: int): World<V> {
    if !Enabled(w, s, ttl) then w
    else
      match s
      case Tick(ms) => w.(now := w.now + ms)
      case Acquire(owner, key) =>
        w.(store := SetNx(w.store, key, owner, ttl, w.now).0,
           sections := w.sections[owner := Section(key, w.now, None)],
           used := w.used + {owner})
      case Read(owner) =>
        var section := w.sections[owner];
        w.(sections := w.sections[owner := section.(read := Some(ObjectAt(u, w.objects, section.key)))])
      case Write(owner, incoming) =>
        var section := w.sections[owner];
        w.(objects := w.objects[section.key := u.merge(section.read.value, incoming)],
           writes := w.writes[section.key := WritesTo(w.writes, section.key) + [incoming]],
           sections := w.sections[owner := section.(read := None)])
      case Exit(owner) => w.(sections := w.sections - {owner})
      case Release(owner, key) => w.(store := CompareDelete(w.store, key, owner, w.now).0)
  }

  function Run<V>(u: Update<V>, w: World<V>, steps: seq<Step<V>>, ttl: int): World<V>
    decreases |steps|
  {
    if |steps| == 0 then w else Run(u, Next(u, w, steps[0], ttl), steps[1..], ttl)
  }

  predicate BoundedRun<V>(u: Update<V>, w: World<V>, steps: seq<Step<V>>, ttl: int, d: nat)
    decreases |steps|
  {
    |steps| == 0 || (Within(w, steps[0], d) && BoundedRun(u, Next(u, w, steps[0], ttl), steps[1..], ttl, d))
  }

  function Start<V>(objects: map<string, V>, now: int): World<V> {
    World(map[], now, objects, map[], {}, objects, map[])
  }

  // ---------------------------------------------------------------- invariant

  /** The lease of an open section is in the store, under the section's own token, and has not expired. */
  ghost predicate Held<V>(w: World<V>, ttl: int) {
    && (forall owner :: owner in w.sections ==>
          && owner in w.used
          && w.sections[owner].key in w.store
          && w.store[w.sections[owner].key] == Lease(owner, w.sections[owner].acquiredAt + ttl)
          && w.now < w.sections[owner].acquiredAt + ttl)
    && (forall key :: key in w.store ==> w.store[key].owner in w.used)
  }

  /** What an open section has read is still what the object holds. */
  ghost predicate ReadsCurrent<V>(u: Update<V>, w: World<V>) {
    forall owner :: owner in w.sections && w.sections[owner].read.Some? ==>
      w.sections[owner].read.value == ObjectAt(u, w.objects, w.sections[owner].key)
  }

  ghost predicate NothingLost<V>(u: Update<V>, w: World<V>) {
    forall key :: ObjectAt(u, w.objects, key) == Fold(u, ObjectAt(u, w.initial, key), WritesTo(w.writes, key))
  }

  lemma NextHeld<V>(u: Update<V>, w: World<V>, s: Step<V>, ttl: int, d: nat)
    requires Held(w, ttl) && Within(w, s, d) && d < ttl
    ensures Held(Next(u, w, s, ttl), ttl)
  {
    hide ObjectAt, WritesTo;
  }

  /** Two open sections of one key would be one section. */
  lemma SectionsExclude<V>(w: World<V>, a: string, b: string, ttl: int)
    requires Held(w, ttl) && a in w.sections && b in w.sections && w.sections[a].key == w.sections[b].key
    ensures a == b
  {
  }

  lemma NextReads<V>(u: Update<V>, w: World<V>, s: Step<V>, ttl: int)
    requires Held(w, ttl) && ReadsCurrent(u, w)
    ensures ReadsCurrent(u, Next(u, w, s, ttl))
  {
    hide WritesTo, Held;
    var next := Next(u, w, s, ttl);
    forall owner | owner in next.sections && next.sections[owner].read.Some?
      ensures next.sections[owner].read.value == ObjectAt(u, next.objects, next.sections[owner].key)
    {
      if s.Write? && Enabled(w, s, ttl) && owner != s.owner && w.sections[owner].key == w.sections[s.owner].key {
        SectionsExclude(w, owner, s.owner, ttl);
      }
    }
  }

  lemma FoldSnoc<V>(u: Update<V>, start: V, incoming: seq<V>, last: V)
    ensures Fold(u, start, incoming + [last]) == u.merge(Fold(u, start, incoming), last)
  {
    assert (incoming + [last])[..|incoming|] == incoming;
  }

  lemma NextNothingLost<V>(u: Update<V>, w: World<V>, s: Step<V>, ttl: int)
    requires ReadsCurrent(u, w) && NothingLost(u, w)
    ensures NothingLost(u, Next(u, w, s, ttl))
  {
    hide Fold;
    if s.Write? && Enabled(w, s, ttl) {
      var key := w.sections[s.owner].key;
      FoldSnoc(u, ObjectAt(u, w.initial, key), WritesTo(w.writes, key), s.incoming);
    }
  }

  lemma {:induction false} RunSafe<V>(u: Update<V>, w: World<V>, steps: seq<Step<V>>, ttl: int, d: nat)
    requires Held(w, ttl) && ReadsCurrent(u, w) && NothingLost(u, w) && BoundedRun(u, w, steps, ttl, d) && d < ttl
    ensures var last := Run(u, w, steps, ttl); Held(last, ttl) && ReadsCurrent(u, last) && NothingLost(u, last)
    decreases |steps|
  {
    hide Held, ReadsCurrent, NothingLost, Next, Within;
    if |steps| > 0 {
      NextHeld(u, w, steps[0], ttl, d);
      NextReads(u, w, steps[0], ttl);
      NextNothingLost(u, w, steps[0], ttl);
      RunSafe(u, Next(u, w, steps[0], ttl), steps[1..], ttl, d);
    }
  }

  lemma RunKeepsInitial<V>(u: Update<V>, w: World<V>, steps: seq<Step<V>>, ttl: int)
    ensures Run(u, w, steps, ttl).initial == w.initial
    decreases |steps|
  {
    if |steps| > 0 {
      RunKeepsInitial(u, Next(u, w, steps[0], ttl), steps[1..], ttl);
    }
  }

  /**
   * When every critical section is shorter than the time to live, sections of one key exclude each
   * other in every run, with any number of processes and releases arriving arbitrarily late.
   */
  lemma MutualExclusion<V>(u: Update<V>, objects: map<string, V>, start: int, steps: seq<Step<V>>, ttl: int, d: nat, a: string, b: string)
    requires d < ttl && BoundedRun(u, Start(objects, start), steps, ttl, d)
    ensures var w := Run(u, Start(objects, start), steps, ttl);
            a in w.sections && b in w.sections && w.sections[a].key == w.sections[b].key ==> a == b
  {
    hide Run, BoundedRun;
    StartSafe(u, objects, start, ttl);
    RunSafe(u, Start(objects, start), steps, ttl, d);
  }

  lemma StartSafe<V>(u: Update<V>, objects: map<string, V>, start: int, ttl: int)
    ensures var w := Start(objects, start); Held(w, ttl) && ReadsCurrent(u, w) && NothingLost(u, w)
  {
  }

  /** No lost update: the object is what merging every incoming value, in lock order, makes of its first value. */
  lemma NoLostUpdate<V>(u: Update<V>, objects: map<string, V>, start: int, steps: seq<Step<V>>, ttl: int, d: nat, key: string)
    requires d < ttl && BoundedRun(u, Start(objects, start), steps, ttl, d)
    ensures var w := Run(u, Start(objects, start), steps, ttl);
            ObjectAt(u, w.objects, key) == Fold(u, ObjectAt(u, objects, key), WritesTo(w.writes, key))
  {
    hide Run, BoundedRun, ObjectAt, WritesTo, Fold;
    StartSafe(u, objects, start, ttl);
    RunSafe(u, Start(objects, start), steps, ttl, d);
    RunKeepsInitial(u, Start(objects, start), steps, ttl);
  }

  /** A release that comes after its own section ended never touches the lease of an open section. */
  lemma LateReleaseHarmless<V>(u: Update<V>, w: World<V>, owner: string, key: string, ttl: int, other: string)
    requires Held(w, ttl) && owner !in w.sections && other in w.sections
    ensures var next := Next(u, w, Release(owner, key), ttl);
            && w.sections[other].key in next.store
            && next.store[w.sections[other].key] == w.store[w.sections[other].key]
  {
  }

  /** One whole section of a process. */
  function Cycle<V>(owner: string, key: string, incoming: V): seq<Step<V>> {
    [Acquire(owner, key), Read(owner), Write(owner, incoming), Exit(owner), Release(owner, key)]
  }

  /** A process alone with a free key merges its value into the object, and leaves the key free and no section open. */
  lemma CycleAlone<V>(u: Update<V>, w: World<V>, owner: string, key: string, incoming: V, ttl: int)
    requires owner !in w.used && owner !in w.sections && key !in w.store && ttl > 0
    ensures Run(u, w, Cycle(owner, key, incoming), ttl)
         == w.(objects := w.objects[key := u.merge(ObjectAt(u, w.objects, key), incoming)],
               writes := w.writes[key := WritesTo(w.writes, key) + [incoming]],
               used := w.used + {owner})
  {
    hide Next, Run;
    var steps := Cycle(owner, key, incoming);
    FiveSteps(u, w, steps, ttl);
    var value := ObjectAt(u, w.objects, key);
    var a := w.(store := w.store[key := Lease(owner, w.now + ttl)], sections := w.sections[owner := Section(key, w.now, None)], used := w.used + {owner});
    var b := a.(sections := w.sections[owner := Section(key, w.now, Some(value))]);
    var c := a.(objects := w.objects[key := u.merge(value, incoming)], writes := w.writes[key := WritesTo(w.writes, key) + [incoming]]);
    var d := c.(sections := w.sections);
    AcquireAlone(u, w, owner, key, ttl);
    ReadAlone(u, w, a, owner, key, ttl);
    WriteAlone(u, w, b, owner, key, incoming, ttl);
    ExitAlone(u, w, c, owner, key, ttl);
    ReleaseAlone(u, w, d, owner, key, ttl);
    RunNothing(u, d.(store := w.store), ttl);
  }

  lemma RunNothing<V>(u: Update<V>, w: World<V>, ttl: int)
    ensures Run(u, w, [], ttl) == w
  {
  }

  lemma AcquireAlone<V>(u: Update<V>, w: World<V>, owner: string, key: string, ttl: int)
    requires owner !in w.used && key !in w.store
    ensures Next(u, w, Acquire(owner, key), ttl)
         == w.(store := w.store[key := Lease(owner, w.now + ttl)],
               sections := w.sections[owner := Section(key, w.now, None)], used := w.used + {owner})
  {
  }

  lemma ReadAlone<V>(u: Update<V>, w: World<V>, a: World<V>, owner: string, key: string, ttl: int)
    requires a.sections == w.sections[owner := Section(key, w.now, None)] && a.objects == w.objects
    ensures Next(u, a, Read(owner), ttl) == a.(sections := w.sections[owner := Section(key, w.now, Some(ObjectAt(u, w.objects, key)))])
  {
  }

  lemma WriteAlone<V>(u: Update<V>, w: World<V>, b: World<V>, owner: string, key: string, incoming: V, ttl: int)
    requires b.sections == w.sections[owner := Section(key, w.now, Some(ObjectAt(u, w.objects, key)))]
    requires b.objects == w.objects && b.writes == w.writes
    ensures Next(u, b, Write(owner, incoming), ttl)
         == b.(objects := w.objects[key := u.merge(ObjectAt(u, w.objects, key), incoming)],
               writes := w.writes[key := WritesTo(w.writes, key) + [incoming]],
               sections := w.sections[owner := Section(key, w.now, None)])
  {
  }

  lemma ExitAlone<V>(u: Update<V>, w: World<V>, c: World<V>, owner: string, key: string, ttl: int)
    requires c.sections == w.sections[owner := Section(key, w.now, None)] && owner !in w.sections
    ensures Next(u, c, Exit(owner), ttl) == c.(sections := w.sections)
  {
    assert w.sections[owner := Section(key, w.now, None)] - {owner} == w.sections;
  }

  lemma ReleaseAlone<V>(u: Update<V>, w: World<V>, d: World<V>, owner: string, key: string, ttl: int)
    requires d.store == w.store[key := Lease(owner, w.now + ttl)] && d.now == w.now && key !in w.store && ttl > 0
    requires owner !in d.sections
    ensures Next(u, d, Release(owner, key), ttl) == d.(store := w.store)
  {
    assert w.store[key := Lease(owner, w.now + ttl)] - {key} == w.store;
  }

  lemma FiveSteps<V>(u: Update<V>, w: World<V>, steps: seq<Step<V>>, ttl: int)
    requires |steps| == 5
    ensures var a := Next(u, w, steps[0], ttl);
            var b := Next(u, a, steps[1], ttl);
            var c := Next(u, b, steps[2], ttl);
            var d := Next(u, c, steps[3], ttl);
            Run(u, w, steps, ttl) == Run(u, Next(u, d, steps[4], ttl), [], ttl)
  {
    hide Next;
    var a := Next(u, w, steps[0], ttl);
    var b := Next(u, a, steps[1], ttl);
    var c := Next(u, b, steps[2], ttl);
    var d := Next(u, c, steps[3], ttl);
    assert Run(u, w, steps, ttl) == Run(u, a, steps[1..], ttl);
    assert Run(u, a, steps[1..], ttl) == Run(u, b, steps[1..][1..], ttl);
    assert Run(u, b, steps[1..][1..], ttl) == Run(u, c, steps[1..][1..][1..], ttl);
    assert Run(u, c, steps[1..][1..][1..], ttl) == Run(u, d, steps[1..][1..][1..][1..], ttl);
    assert steps[1..][1..][1..][1..][1..] == [];
  }

  // ---------------------------------------------------------------- when a section outlives its lease

  /** In every run whose sections last at most `d`, open sections of one key are one section. */
  ghost predicate Excludes<V(!new)>(u: Update<V>, ttl: int, d: nat) {
    forall objects, start, steps, a, b :: BoundedRun(u, Start(objects, start), steps, ttl, d) ==>
      var w := Run(u, Start(objects, start), steps, ttl);
      a in w.sections && b in w.sections && w.sections[a].key == w.sections[b].key ==> a == b
  }

  /** In every run whose sections last at most `d`, each object is the fold of its writes. */
  ghost predicate LosesNothing<V(!new)>(u: Update<V>, ttl: int, d: nat) {
    forall objects, start, steps, key :: BoundedRun(u, Start(objects, start), steps, ttl, d) ==>
      var w := Run(u, Start(objects, start), steps, ttl);
      ObjectAt(u, w.objects, key) == Fold(u, ObjectAt(u, objects, key), WritesTo(w.writes, key))
  }

  /** One process reads, its lease runs out, and a second process enters and reads the same object. */
  function Overlap<V>(ttl: nat): seq<Step<V>> {
    [Acquire("a", "k"), Read("a"), Step.Tick(ttl), Acquire("b", "k"), Read("b")]
  }

  /** Then the second one writes, and the first one writes over it. */
  function Overwrite<V>(x: V, y: V): seq<Step<V>> { [Write("b", y), Write("a", x)] }

  function Initially<V>(e: V): map<string, V> { map["k" := e] }

  function Overlapped<V>(e: V, ttl: nat): World<V> {
    World(map["k" := Lease("b", ttl + ttl)], ttl, Initially(e),
      map["a" := Section("k", 0, Some(e)), "b" := Section("k", ttl, Some(e))], {"a", "b"}, Initially(e), map[])
  }

  lemma {:induction false} RunMore<V>(u: Update<V>, w: World<V>, some: seq<Step<V>>, more: seq<Step<V>>, ttl: int, d: nat)
    ensures Run(u, w, some + more, ttl) == Run(u, Run(u, w, some, ttl), more, ttl)
    ensures BoundedRun(u, w, some + more, ttl, d) <==> BoundedRun(u, w, some, ttl, d) && BoundedRun(u, Run(u, w, some, ttl), more, ttl, d)
    decreases |some|
  {
    hide Next, Within;
    if |some| == 0 {
      assert some + more == more;
    } else {
      assert (some + more)[1..] == some[1..] + more;
      RunMore(u, Next(u, w, some[0], ttl), some[1..], more, ttl, d);
    }
  }

  lemma RunOne<V>(u: Update<V>, w: World<V>, s: Step<V>, ttl: int, d: nat)
    ensures Run(u, w, [s], ttl) == Next(u, w, s, ttl)
    ensures BoundedRun(u, w, [s], ttl, d) <==> Within(w, s, d)
  {
    hide Next, Within;
    assert Run(u, Next(u, w, s, ttl), [][..], ttl) == Next(u, w, s, ttl);
  }

  lemma FirstEnters<V>(u: Update<V>, e: V, ttl: nat, d: nat)
    requires 0 < ttl <= d
    ensures var w := Start(Initially(e), 0);
            && Run(u, w, Overlap(ttl)[..3], ttl)
               == World(map["k" := Lease("a", ttl)], ttl, Initially(e), map["a" := Section("k", 0, Some(e))], {"a"}, Initially(e), map[])
            && BoundedRun(u, w, Overlap(ttl)[..3], ttl, d)
  {
    hide Run, BoundedRun;
    var steps := Overlap<V>(ttl);
    var w0 := Start(Initially(e), 0);
    var w1 := Next(u, w0, steps[0], ttl);
    assert w1.sections == map["a" := Section("k", 0, None)] && w1.store == map["k" := Lease("a", ttl)];
    var w2 := Next(u, w1, steps[1], ttl);
    assert w2.sections == map["a" := Section("k", 0, Some(e))];
    RunOne(u, w0, steps[0], ttl, d);
    RunOne(u, w1, steps[1], ttl, d);
    RunOne(u, w2, steps[2], ttl, d);
    RunMore(u, w0, [steps[0]], [steps[1]], ttl, d);
    RunMore(u, w0, [steps[0]] + [steps[1]], [steps[2]], ttl, d);
    assert steps[..3] == ([steps[0]] + [steps[1]]) + [steps[2]];
  }

  lemma SecondEnters<V>(u: Update<V>, e: V, ttl: nat, d: nat)
    requires 0 < ttl <= d
    ensures var w := Start(Initially(e), 0);
            Run(u, w, Overlap(ttl), ttl) == Overlapped(e, ttl) && BoundedRun(u, w, Overlap(ttl), ttl, d)
  {
    hide Run, BoundedRun;
    var steps := Overlap<V>(ttl);
    var w0 := Start(Initially(e), 0);
    FirstEnters(u, e, ttl, d);
    var w3 := Run(u, w0, steps[..3], ttl);
    var w4 := Next(u, w3, steps[3], ttl);
    assert w4.sections == map["a" := Section("k", 0, Some(e)), "b" := Section("k", ttl, None)];
    assert w4.store == map["k" := Lease("b", ttl + ttl)];
    var w5 := Next(u, w4, steps[4], ttl);
    assert w5.sections == Overlapped(e, ttl).sections;
    RunOne(u, w3, steps[3], ttl, d);
    RunOne(u, w4, steps[4], ttl, d);
    RunMore(u, w3, [steps[3]], [steps[4]], ttl, d);
    RunMore(u, w0, steps[..3], [steps[3]] + [steps[4]], ttl, d);
    assert steps == steps[..3] + ([steps[3]] + [steps[4]]);
  }

  /** The first process writes what it read before the second one wrote. */
  lemma BothWrite<V>(u: Update<V>, e: V, x: V, y: V, ttl: nat, d: nat)
    requires ttl > 0
    ensures var w := Run(u, Overlapped(e, ttl), Overwrite(x, y), ttl);
            && w.objects == map["k" := u.merge(e, x)] && w.writes == map["k" := [y, x]]
            && BoundedRun(u, Overlapped(e, ttl), Overwrite(x, y), ttl, d)
  {
    hide Run, BoundedRun;
    var w0 := Overlapped(e, ttl);
    assert [] + [y] == [y] && [y] + [x] == [y, x];
    var w1 := Next(u, w0, Write("b", y), ttl);
    assert w1.objects == map["k" := u.merge(e, y)] && w1.writes == map["k" := [y]];
    assert w1.sections["a"] == Section("k", 0, Some(e));
    var w2 := Next(u, w1, Write("a", x), ttl);
    assert w2.objects == map["k" := u.merge(e, x)] && w2.writes == map["k" := [y, x]];
    RunOne(u, w0, Write("b", y), ttl, d);
    RunOne(u, w1, Write("a", x), ttl, d);
    RunMore(u, w0, [Write("b", y)], [Write("a", x)], ttl, d);
    assert Overwrite(x, y) == [Write("b", y)] + [Write("a", x)];
  }

  /** A run in which one write replaces another instead of adding to it, when sections may last as long as the lease. */
  lemma OverrunLosesUpdate<V>(u: Update<V>, e: V, x: V, y: V, ttl: nat, d: nat)
    requires 0 < ttl <= d
    ensures var steps := Overlap(ttl) + Overwrite(x, y);
            var w := Run(u, Start(Initially(e), 0), steps, ttl);
            && BoundedRun(u, Start(Initially(e), 0), steps, ttl, d)
            && w.objects == map["k" := u.merge(e, x)] && w.writes == map["k" := [y, x]]
            && Fold(u, e, [y, x]) == u.merge(u.merge(e, y), x)
  {
    hide Run, BoundedRun, Overlap, Overwrite;
    SecondEnters(u, e, ttl, d);
    BothWrite(u, e, x, y, ttl, d);
    RunMore(u, Start(Initially(e), 0), Overlap(ttl), Overwrite(x, y), ttl, d);
    FoldSnoc(u, e, [y], x);
    FoldSnoc(u, e, [], y);
    assert [] + [y] == [y] && [y] + [x] == [y, x];
  }

  /** Sections of at most `d` exclude each other in every run exactly when `d` is less than the time to live. */
  lemma ExcludesExactlyWhen<V(!new)>(u: Update<V>, ttl: nat, d: nat)
    requires ttl > 0
    ensures Excludes(u, ttl, d) <==> d < ttl
  {
    hide Run, BoundedRun, Overlap;
    if d < ttl {
      forall objects, start, steps, a, b | BoundedRun(u, Start(objects, start), steps, ttl, d)
        ensures var w := Run(u, Start(objects, start), steps, ttl);
                a in w.sections && b in w.sections && w.sections[a].key == w.sections[b].key ==> a == b
      {
        MutualExclusion(u, objects, start, steps, ttl, d, a, b);
      }
    } else {
      SecondEnters(u, u.empty, ttl, d);
      var w := Run(u, Start(Initially(u.empty), 0), Overlap(ttl), ttl);
      assert "a" in w.sections && "b" in w.sections && w.sections["a"].key == w.sections["b"].key;
    }
  }

  /**
   * They lose no update in any run exactly when `d` is less than the time to live, for every update
   * under which a write can tell whether another came before it.
   */
  lemma LosesNothingExactlyWhen<V(!new)>(u: Update<V>, e: V, x: V, y: V, ttl: nat, d: nat)
    requires ttl > 0 && u.merge(e, x) != u.merge(u.merge(e, y), x)
    ensures LosesNothing(u, ttl, d) <==> d < ttl
  {
    hide Run, BoundedRun, Overlap, Overwrite, Fold;
    if d < ttl {
      forall objects, start, steps, key | BoundedRun(u, Start(objects, start), steps, ttl, d)
        ensures var w := Run(u, Start(objects, start), steps, ttl);
                ObjectAt(u, w.objects, key) == Fold(u, ObjectAt(u, objects, key), WritesTo(w.writes, key))
      {
        NoLostUpdate(u, objects, start, steps, ttl, d, key);
      }
    } else {
      OverrunLosesUpdate(u, e, x, y, ttl, d);
      var w := Run(u, Start(Initially(e), 0), Overlap(ttl) + Overwrite(x, y), ttl);
      assert ObjectAt(u, w.objects, "k") != Fold(u, ObjectAt(u, Initially(e), "k"), WritesTo(w.writes, "k"));
    }
  }
}
