/**
 * Rendezvous sharding of symbols over collectors: every symbol belongs to the member with the highest
 * score for it, the first one in member order when scores tie. Scores are 32-bit FNV-1a hashes.
 */
module Sharding {
  import opened Wrappers
  import opened CodeUnits

  // ---------------------------------------------------------------- the hash

  const TWO32 := 0x1_0000_0000
  const FNV_PRIME := 16777619
  const FNV_OFFSET := 0x811c9dc5

  /** The signed 32-bit value the bit operators of the source's language work on. */
  function ToInt32(x: int): int {
    var m := x % TWO32;
    if m >= 0x8000_0000 then m - TWO32 else m
  }

  function ToUint32(x: int): (r: int)
    ensures 0 <= r < TWO32
  {
    x % TWO32
  }

  function ShiftLeft(x: int, factor: int): int {
    ToInt32(x * factor)
  }

  function Pow2(n: nat): (p: nat)
    ensures p > 0
  {
    if n == 0 then 1 else 2 * Pow2(n - 1)
  }

  /** The exclusive or of the lowest bits of two numbers. */
  function XorBits(a: nat, b: nat, bits: nat): (r: nat)
    ensures r < Pow2(bits)
    decreases bits
  {
    if bits == 0 then 0 else (a + b) % 2 + 2 * XorBits(a / 2, b / 2, bits - 1)
  }

  lemma Pow2Of32()
    ensures Pow2(32) == TWO32
  {
    assert Pow2(8) == 256;
    assert Pow2(16) == 65536;
    assert Pow2(24) == 16777216;
  }

  function Xor32(hash: int, unit: Unit): (r: int)
    requires 0 <= hash < TWO32
    ensures 0 <= r < TWO32
  {
    Pow2Of32();
    XorBits(hash, unit, 32)
  }

  /** One unit of the hash, as the source computes it: shifts of the signed value, added and made unsigned. */
  function HashStep(hash: int, unit: Unit): (r: int)
    requires 0 <= hash < TWO32
    ensures 0 <= r < TWO32
  {
    var x := ToInt32(Xor32(hash, unit));
    ToUint32(x + (ShiftLeft(x, 2) + ShiftLeft(x, 16) + ShiftLeft(x, 128) + ShiftLeft(x, 256) + ShiftLeft(x, 16777216)))
  }

  lemma Int32Congruent(x: int) returns (q: int)
    ensures ToInt32(x) == x + q * TWO32
  {
    assert x == x / TWO32 * TWO32 + x % TWO32;
    q := if x % TWO32 >= 0x8000_0000 then -(x / TWO32) - 1 else -(x / TWO32);
  }

  lemma Uint32Congruent(x: int, y: int, q: int)
    requires x == y + q * TWO32
    ensures ToUint32(x) == ToUint32(y)
  {
    assert y == y / TWO32 * TWO32 + y % TWO32;
    assert x == (y / TWO32 + q) * TWO32 + y % TWO32;
  }

  /** The shift-and-add step is multiplication by the FNV prime modulo 2^32. */
  lemma HashStepIsMultiplication(hash: int, unit: Unit)
    requires 0 <= hash < TWO32
    ensures HashStep(hash, unit) == Xor32(hash, unit) * FNV_PRIME % TWO32
  {
    hide ToInt32, ToUint32, Xor32;
    var v := Xor32(hash, unit);
    var q := Int32Congruent(v);
    var x := ToInt32(v);
    var a := Int32Congruent(x * 2);
    var b := Int32Congruent(x * 16);
    var c := Int32Congruent(x * 128);
    var d := Int32Congruent(x * 256);
    var e := Int32Congruent(x * 16777216);
    var sum := x + (ShiftLeft(x, 2) + ShiftLeft(x, 16) + ShiftLeft(x, 128) + ShiftLeft(x, 256) + ShiftLeft(x, 16777216));
    assert sum == x * FNV_PRIME + (a + b + c + d + e) * TWO32;
    Uint32Congruent(sum, v * FNV_PRIME, q * FNV_PRIME + a + b + c + d + e);
    assert ToUint32(v * FNV_PRIME) == v * FNV_PRIME % TWO32 by { UintValue(v * FNV_PRIME); }
  }

  lemma UintValue(x: int)
    ensures ToUint32(x) == x % TWO32
  {
  }

  function Fnv1a32(input: Text): (h: int)
    ensures 0 <= h < TWO32
  {
    if |input| == 0 then FNV_OFFSET else HashStep(Fnv1a32(input[..|input| - 1]), input[|input| - 1])
  }

  // ---------------------------------------------------------------- the hash, written another way

  /** One step of FNV-1a from its definition: the unit is xored in and the result multiplied by the 32-bit prime. */
  function Fnv1aStep(hash: int, unit: Unit): (r: int)
    requires 0 <= hash < TWO32
    ensures 0 <= r < TWO32
  {
    Xor32(hash, unit) * 16777619 % 4294967296
  }

  function Continue(hash: int, input: Text): (h: int)
    requires 0 <= hash < TWO32
    ensures 0 <= h < TWO32
    decreases |input|
  {
    if |input| == 0 then hash else Continue(Fnv1aStep(hash, input[0]), input[1..])
  }

  lemma {:induction false} ContinueAppend(hash: int, a: Text, b: Text)
    requires 0 <= hash < TWO32
    ensures Continue(hash, a + b) == Continue(Continue(hash, a), b)
    decreases |a|
  {
    hide Fnv1aStep;
    if |a| == 0 {
      assert a + b == b;
    } else {
      assert (a + b)[0] == a[0] && (a + b)[1..] == a[1..] + b;
      ContinueAppend(Fnv1aStep(hash, a[0]), a[1..], b);
    }
  }

  lemma ContinueOne(hash: int, unit: Unit)
    requires 0 <= hash < TWO32
    ensures Continue(hash, [unit]) == HashStep(hash, unit)
  {
    hide HashStep, Xor32;
    HashStepIsMultiplication(hash, unit);
    assert [unit][1..] == [];
    ContinueNothing(Fnv1aStep(hash, unit));
  }

  lemma {:induction false} HashIsFnv1a(input: Text)
    ensures Fnv1a32(input) == Continue(2166136261, input)
    decreases |input|
  {
    hide HashStep, Continue, Fnv1aStep;
    if |input| == 0 {
      ContinueNothing(2166136261);
    } else {
      var rest, last := input[..|input| - 1], input[|input| - 1];
      HashIsFnv1a(rest);
      ContinueAppend(2166136261, rest, [last]);
      ContinueOne(Fnv1a32(rest), last);
      assert input == rest + [last];
    }
  }

  lemma {:induction false} XorNothing(a: nat, bits: nat)
    requires a < Pow2(bits)
    ensures XorBits(a, 0, bits) == a
    decreases bits
  {
    if bits > 0 {
      XorNothing(a / 2, bits - 1);
    }
  }

  lemma XorOne(a: nat, b: nat, bits: nat, r: nat)
    requires bits > 0 && XorBits(a / 2, b / 2, bits - 1) == r
    ensures XorBits(a, b, bits) == (a + b) % 2 + 2 * r
  {
  }

  lemma XorOfA()
    ensures Xor32(2166136261, 97) == 2166136228
  {
    hide XorBits, Pow2;
    assert Pow2(25) == 33554432 by { Pow2Of25(); }
    XorNothing(16922939, 25);
    XorOne(33845879, 1, 26, 16922939);
    XorOne(67691758, 3, 27, 33845878);
    XorOne(135383516, 6, 28, 67691757);
    XorOne(270767032, 12, 29, 135383514);
    XorOne(541534065, 24, 30, 270767028);
    XorOne(1083068130, 48, 31, 541534057);
    XorOne(2166136261, 97, 32, 1083068114);
  }

  lemma Pow2Of25()
    ensures Pow2(25) == 33554432
  {
    assert Pow2(8) == 256;
    assert Pow2(16) == 65536;
    assert Pow2(24) == 16777216;
  }

  /** The published hash of the text "a". */
  lemma HashOfA()
    ensures Fnv1a32([97]) == 0xe40c292c
  {
    hide HashStep, Xor32, Continue;
    HashIsFnv1a([97]);
    ContinueOne(2166136261, 97);
    HashStepIsMultiplication(2166136261, 97);
    XorOfA();
  }

  lemma ContinueNothing(hash: int)
    requires 0 <= hash < TWO32
    ensures Continue(hash, []) == hash
  {
  }

  lemma {:induction false} XorInjective(a: nat, b: nat, u: nat, bits: nat)
    requires a < Pow2(bits) && b < Pow2(bits) && XorBits(a, u, bits) == XorBits(b, u, bits)
    ensures a == b
    decreases bits
  {
    if bits > 0 {
      var x, y := XorBits(a / 2, u / 2, bits - 1), XorBits(b / 2, u / 2, bits - 1);
      assert (a + u) % 2 + 2 * x == (b + u) % 2 + 2 * y;
      SameParity(a + u, b + u, x, y);
      XorInjective(a / 2, b / 2, u / 2, bits - 1);
      SameHalves(a, b, u);
    }
  }

  lemma SameParity(m: nat, n: nat, x: nat, y: nat)
    requires m % 2 + 2 * x == n % 2 + 2 * y
    ensures m % 2 == n % 2 && x == y
  {
  }

  lemma SameHalves(a: nat, b: nat, u: nat)
    requires (a + u) % 2 == (b + u) % 2 && a / 2 == b / 2
    ensures a == b
  {
  }

  /** Multiplying by the prime can be undone modulo 2^32, by its inverse. */
  lemma PrimeInjective(x: int, y: int)
    requires 0 <= x < TWO32 && 0 <= y < TWO32 && x * 16777619 % 4294967296 == y * 16777619 % 4294967296
    ensures x == y
  {
    var d := x - y;
    var q := x * 16777619 / 4294967296 - y * 16777619 / 4294967296;
    assert d * 16777619 == q * 4294967296;
    var inverse := 899433627;
    var k := (16777619 * inverse - 1) / 4294967296;
    assert 16777619 * inverse == 1 + k * 4294967296;
    SmallMultiple(d, q * inverse - d * k);
  }

  lemma SmallMultiple(d: int, m: int)
    requires d == m * 4294967296 && -4294967296 < d < 4294967296
    ensures d == 0
  {
  }

  lemma {:induction false} ContinueInjective(a: int, b: int, input: Text)
    requires 0 <= a < TWO32 && 0 <= b < TWO32
    ensures Continue(a, input) == Continue(b, input) <==> a == b
    decreases |input|
  {
    hide Fnv1aStep;
    if |input| > 0 {
      if a != b && Fnv1aStep(a, input[0]) == Fnv1aStep(b, input[0]) {
        StepInjective(a, b, input[0]);
      }
      ContinueInjective(Fnv1aStep(a, input[0]), Fnv1aStep(b, input[0]), input[1..]);
    }
  }

  lemma StepInjective(a: int, b: int, unit: Unit)
    requires 0 <= a < TWO32 && 0 <= b < TWO32 && Fnv1aStep(a, unit) == Fnv1aStep(b, unit)
    ensures a == b
  {
    hide Pow2, XorBits;
    PrimeInjective(Xor32(a, unit), Xor32(b, unit));
    Pow2Of32();
    XorInjective(a, b, unit, 32);
  }

  method ComputeFnv1a32(input: Text) returns (hash: int)
    ensures hash == Fnv1a32(input)
  {
    hide HashStep;
    hash := FNV_OFFSET;
    var i := 0;
    while i < |input|
      invariant 0 <= i <= |input| && hash == Fnv1a32(input[..i])
    {
      assert input[..i + 1][..i] == input[..i];
      hash := HashStep(hash, input[i]);
      i := i + 1;
    }
    assert input[..i] == input;
  }

  // ---------------------------------------------------------------- the owner of a symbol

  const COLON: Unit := 58

  function Score(symbol: Text, member: Text): int {
    Fnv1a32(symbol + [COLON] + member)
  }

  /** The score goes on from the hash of the symbol over a colon and the member. */
  lemma ScoreContinues(symbol: Text, member: Text)
    ensures Score(symbol, member) == Continue(Fnv1a32(symbol), [58] + member)
  {
    hide Continue, Fnv1a32;
    HashIsFnv1a(symbol + [COLON] + member);
    HashIsFnv1a(symbol);
    ContinueAppend(2166136261, symbol, [58] + member);
    assert symbol + [COLON] + member == symbol + ([58] + member);
  }

  /** A member scores two symbols the same exactly when the symbols have the same hash, whoever the member is. */
  lemma ScoresTellSymbolsApart(a: Text, b: Text, member: Text)
    ensures Score(a, member) == Score(b, member) <==> Fnv1a32(a) == Fnv1a32(b)
  {
    hide Continue, Score;
    ScoreContinues(a, member);
    ScoreContinues(b, member);
    ContinueInjective(Fnv1a32(a), Fnv1a32(b), [58] + member);
  }

  /** Members in the order the service holds them: sorted, each once. */
  predicate Members(members: seq<Text>) {
    |members| > 0 && forall i, j :: 0 <= i < j < |members| ==> Less(members[i], members[j])
  }

  /** The first member with the highest score. */
  function Owner(symbol: Text, members: seq<Text>): (owner: Text)
    requires |members| > 0
    ensures owner in members
  {
    if |members| == 1 then members[0]
    else
      var before, last := Owner(symbol, members[..|members| - 1]), members[|members| - 1];
      if Score(symbol, last) > Score(symbol, before) then last else before
  }

  method OwnerFor(symbol: Text, activeCollectors: seq<Text>) returns (best: Text)
    requires |activeCollectors| > 0
    ensures best == Owner(symbol, activeCollectors)
  {
    hide Fnv1a32;
    best := activeCollectors[0];
    var bestScore := -1;
    var i := 0;
    while i < |activeCollectors|
      invariant 0 <= i <= |activeCollectors|
      invariant if i == 0 then bestScore == -1 else best == Owner(symbol, activeCollectors[..i]) && bestScore == Score(symbol, best)
    {
      assert activeCollectors[..i + 1][..i] == activeCollectors[..i];
      var score := ComputeFnv1a32(symbol + [COLON] + activeCollectors[i]);
      if score > bestScore {
        best := activeCollectors[i];
        bestScore := score;
      }
      i := i + 1;
    }
    assert activeCollectors[..i] == activeCollectors;
  }

  /** A member is preferred for its higher score, and on a tie for coming first in member order. */
  predicate Preferred(symbol: Text, a: Text, b: Text) {
    Score(symbol, a) > Score(symbol, b) || (Score(symbol, a) == Score(symbol, b) && (a == b || Less(a, b)))
  }

  lemma {:induction false} OwnerIsPreferred(symbol: Text, members: seq<Text>)
    requires Members(members)
    ensures forall m :: m in members ==> Preferred(symbol, Owner(symbol, members), m)
    decreases |members|
  {
    hide Score, Less;
    if |members| > 1 {
      var rest, last := members[..|members| - 1], members[|members| - 1];
      assert members == rest + [last];
      OwnerIsPreferred(symbol, rest);
      var before := Owner(symbol, rest);
      var i :| 0 <= i < |rest| && rest[i] == before;
      assert members[i] == before && Less(before, last);
    }
  }

  lemma PreferredAntisymmetric(symbol: Text, a: Text, b: Text)
    requires Preferred(symbol, a, b) && Preferred(symbol, b, a)
    ensures a == b
  {
    hide Score, Less;
    if a != b {
      LessTransitive(a, b, a);
      LessIrreflexive(a);
    }
  }

  /**
   * Adding a member moves symbols only to it, and removing one moves only its own symbols: with members
   * `more` being `fewer` and x, the owner among `more` is x or the owner among `fewer`.
   */
  lemma OneMemberMoves(symbol: Text, fewer: seq<Text>, more: seq<Text>, x: Text)
    requires Members(fewer) && Members(more) && forall m :: m in more <==> m in fewer || m == x
    ensures Owner(symbol, more) == x || Owner(symbol, more) == Owner(symbol, fewer)
  {
    hide Preferred;
    OwnerIsPreferred(symbol, fewer);
    OwnerIsPreferred(symbol, more);
    var o, p := Owner(symbol, more), Owner(symbol, fewer);
    if o != x {
      assert Preferred(symbol, p, o) && Preferred(symbol, o, p);
      PreferredAntisymmetric(symbol, o, p);
    }
  }

  // ---------------------------------------------------------------- assignments

  function Assigned(symbols: seq<Text>, members: seq<Text>, self: Text): seq<Text>
    requires |members| > 0
  {
    if |symbols| == 0 then []
    else
      var rest, last := Assigned(symbols[..|symbols| - 1], members, self), symbols[|symbols| - 1];
      if Owner(last, members) == self then rest + [last] else rest
  }

  lemma {:induction false} AssignedMembers(symbols: seq<Text>, members: seq<Text>, self: Text)
    requires |members| > 0
    ensures forall s :: s in Assigned(symbols, members, self) <==> s in symbols && Owner(s, members) == self
    decreases |symbols|
  {
    hide Owner;
    if |symbols| > 0 {
      AssignedMembers(symbols[..|symbols| - 1], members, self);
      assert symbols == symbols[..|symbols| - 1] + [symbols[|symbols| - 1]];
    }
  }

  /** Workers that see the same members share the symbols out: every symbol to one member and no other. */
  lemma AssignmentsPartition(symbols: seq<Text>, members: seq<Text>, symbol: Text)
    requires Members(members) && symbol in symbols
    ensures exists self :: self in members && symbol in Assigned(symbols, members, self)
    ensures forall a, b :: symbol in Assigned(symbols, members, a) && symbol in Assigned(symbols, members, b) ==> a == b
  {
    hide Owner;
    var self := Owner(symbol, members);
    AssignedMembers(symbols, members, self);
    forall a, b | symbol in Assigned(symbols, members, a) && symbol in Assigned(symbols, members, b) ensures a == b {
      AssignedMembers(symbols, members, a);
      AssignedMembers(symbols, members, b);
    }
  }

  /** When a member leaves, a worker loses no symbol; when one joins, the others gain none. */
  lemma OthersKeepOrShrink(symbols: seq<Text>, fewer: seq<Text>, more: seq<Text>, x: Text, self: Text)
    requires Members(fewer) && Members(more) && (forall m :: m in more <==> m in fewer || m == x) && self != x
    ensures forall s :: s in Assigned(symbols, more, self) ==> s in Assigned(symbols, fewer, self)
  {
    hide Owner;
    AssignedMembers(symbols, more, self);
    AssignedMembers(symbols, fewer, self);
    forall s | s in Assigned(symbols, more, self) ensures s in Assigned(symbols, fewer, self) {
      OneMemberMoves(s, fewer, more, x);
    }
  }

  // ---------------------------------------------------------------- the service

  datatype Takeover = Takeover(symbol: Text, previous: Text, owner: Text)

  function Owners(symbols: seq<Text>, members: seq<Text>): (owners: map<Text, Text>)
    requires |members| > 0
    ensures forall s :: s in owners <==> s in symbols
    ensures forall s :: s in owners ==> owners[s] == Owner(s, members)
  {
    map s | s in symbols :: Owner(s, members)
  }

  /** The symbols whose remembered owner, when there is one, is another than the new one. */
  function Takeovers(last: map<Text, Text>, symbols: seq<Text>, members: seq<Text>): seq<Takeover>
    requires |members| > 0
  {
    if |symbols| == 0 then []
    else
      var rest, s := Takeovers(last, symbols[..|symbols| - 1], members), symbols[|symbols| - 1];
      if s in last && last[s] != [] && last[s] != Owner(s, members) then rest + [Takeover(s, last[s], Owner(s, members))] else rest
  }

  lemma {:induction false} TakeoverMeaning(last: map<Text, Text>, symbols: seq<Text>, members: seq<Text>)
    requires |members| > 0
    ensures forall t :: t in Takeovers(last, symbols, members) <==>
              t.symbol in symbols && t.symbol in last && t.previous == last[t.symbol] && t.previous != []
              && t.owner == Owner(t.symbol, members) && t.previous != t.owner
    decreases |symbols|
  {
    hide Owner;
    if |symbols| > 0 {
      TakeoverMeaning(last, symbols[..|symbols| - 1], members);
      assert symbols == symbols[..|symbols| - 1] + [symbols[|symbols| - 1]];
    }
  }

  /** Takeovers reported after one member left come from it; after one joined they go to it. */
  lemma TakeoversNameTheMember(earlier: seq<Text>, symbols: seq<Text>, fewer: seq<Text>, more: seq<Text>, x: Text)
    requires Members(fewer) && Members(more) && forall m :: m in more <==> m in fewer || m == x
    ensures forall t :: t in Takeovers(Owners(earlier, more), symbols, fewer) ==> t.previous == x
    ensures forall t :: t in Takeovers(Owners(earlier, fewer), symbols, more) ==> t.owner == x
  {
    hide Owner, Takeovers, Owners;
    TakeoverMeaning(Owners(earlier, more), symbols, fewer);
    TakeoverMeaning(Owners(earlier, fewer), symbols, more);
    forall t | t in Takeovers(Owners(earlier, more), symbols, fewer) ensures t.previous == x {
      OneMemberMoves(t.symbol, fewer, more, x);
    }
    forall t | t in Takeovers(Owners(earlier, fewer), symbols, more) ensures t.owner == x {
      OneMemberMoves(t.symbol, fewer, more, x);
    }
  }

  function FirstTen<T>(s: seq<T>): seq<T> {
    if |s| > 10 then s[..10] else s
  }

  class CollectorShardAssignmentService {
    const instanceId: Text
    var lastOwnerBySymbol: map<Text, Text>

    constructor (instanceId: Text)
      ensures this.instanceId == instanceId && lastOwnerBySymbol == map[]
    {
      this.instanceId := instanceId;
      lastOwnerBySymbol := map[];
    }

    /** Assigns the normalised symbols over the active collectors and remembers the owners. */
    method Assign(symbols: seq<Text>, activeCollectors: seq<Text>) returns (assignedSymbols: seq<Text>, events: seq<Takeover>)
      requires |activeCollectors| > 0
      modifies this
      ensures assignedSymbols == Assigned(symbols, activeCollectors, instanceId)
      ensures events == FirstTen(Takeovers(old(lastOwnerBySymbol), symbols, activeCollectors))
      ensures events <= Takeovers(old(lastOwnerBySymbol), symbols, activeCollectors) && |events| <= 10
      ensures |events| == 10 || events == Takeovers(old(lastOwnerBySymbol), symbols, activeCollectors)
      ensures lastOwnerBySymbol == Owners(symbols, activeCollectors)
    {
      hide Owner;
      var ownerBySymbol: map<Text, Text> := map[];
      var i := 0;
      while i < |symbols|
        invariant 0 <= i <= |symbols| && lastOwnerBySymbol == old(lastOwnerBySymbol)
        invariant ownerBySymbol == Owners(symbols[..i], activeCollectors)
      {
        var owner := OwnerFor(symbols[i], activeCollectors);
        ownerBySymbol := ownerBySymbol[symbols[i] := owner];
        assert symbols[..i + 1] == symbols[..i] + [symbols[i]];
        i := i + 1;
      }
      assert symbols[..i] == symbols;
      assignedSymbols := [];
      var takeovers: seq<Takeover> := [];
      i := 0;
      while i < |symbols|
        invariant 0 <= i <= |symbols| && lastOwnerBySymbol == old(lastOwnerBySymbol)
        invariant assignedSymbols == Assigned(symbols[..i], activeCollectors, instanceId)
        invariant takeovers == Takeovers(lastOwnerBySymbol, symbols[..i], activeCollectors)
      {
        assert symbols[..i + 1][..i] == symbols[..i] && symbols[..i + 1][i] == symbols[i];
        var s := symbols[i];
        if ownerBySymbol[s] == instanceId {
          assignedSymbols := assignedSymbols + [s];
        }
        if s in lastOwnerBySymbol && lastOwnerBySymbol[s] != [] && lastOwnerBySymbol[s] != ownerBySymbol[s] {
          takeovers := takeovers + [Takeover(s, lastOwnerBySymbol[s], ownerBySymbol[s])];
        }
        i := i + 1;
      }
      assert symbols[..i] == symbols;
      lastOwnerBySymbol := ownerBySymbol;
      events := FirstTen(takeovers);
    }
  }
}
