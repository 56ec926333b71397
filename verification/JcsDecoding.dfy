/**
 * Canonical texts can be read back in one way only. Two values have the same canonical text exactly
 * when they are equal up to member order, undefined members and the sign of zero.
 */
module JcsDecoding {
  import opened Wrappers
  import opened Jcs
  import opened CodeUnits
  import opened JsonNumbers

  // ---------------------------------------------------------------- strings

  lemma HexDigitInjective(c: int, d: int)
    requires 0 <= c < 16 && 0 <= d < 16 && HexDigit(c) == HexDigit(d)
    ensures c == d
  {
  }

  lemma HexValue(u: int)
    requires 0 <= u < 0x10000
    ensures 0 <= u / 4096 < 16
    ensures u == 4096 * (u / 4096) + 256 * (u / 256 % 16) + 16 * (u / 16 % 16) + u % 16
  {
    var q, r := u / 16, u / 256;
    assert u == 16 * q + u % 16 && q == 16 * r + q % 16 && r == 16 * (u / 4096) + r % 16;
  }

  lemma HexInjective(u: Unit, v: Unit)
    requires Hex4(u) == Hex4(v)
    ensures u == v
  {
    hide HexDigit;
    HexValue(u);
    HexValue(v);
    assert Hex4(u)[0] == Hex4(v)[0] && Hex4(u)[1] == Hex4(v)[1] && Hex4(u)[2] == Hex4(v)[2] && Hex4(u)[3] == Hex4(v)[3];
    HexDigitInjective(u / 4096, v / 4096);
    HexDigitInjective(u / 256 % 16, v / 256 % 16);
    HexDigitInjective(u / 16 % 16, v / 16 % 16);
    HexDigitInjective(u % 16, v % 16);
  }

  /** The length of the piece a text starts with, read from its first two units. */
  function PieceLength(first: Unit, second: Unit): int {
    if first == BACKSLASH then if second == LOWER_U then 6 else 2
    else if IsHigh(first) then 2
    else 1
  }

  lemma PieceShape(s: Text, second: Unit)
    requires |s| > 0
    ensures Piece(s)[0] != QUOTE
    ensures |Piece(s)| == PieceLength(Piece(s)[0], if |Piece(s)| > 1 then Piece(s)[1] else second)
  {
    if !Paired(s) {
      UnitShape(s[0], second);
    }
  }

  lemma UnitShape(u: Unit, second: Unit)
    ensures EscapeUnit(u)[0] != QUOTE
    ensures |EscapeUnit(u)| == PieceLength(EscapeUnit(u)[0], if |EscapeUnit(u)| > 1 then EscapeUnit(u)[1] else second)
  {
    hide HexDigit;
    if u < 32 || IsHigh(u) || IsLow(u) {
      assert |Hex4(u)| == 4;
    }
  }

  predicate Coded(u: Unit) {
    (u < 32 || IsHigh(u) || IsLow(u)) && u !in {8, 9, 10, 12, 13}
  }

  lemma CodedUnit(u: Unit)
    ensures Coded(u) <==> |EscapeUnit(u)| == 6
    ensures Coded(u) ==> EscapeUnit(u)[2..] == Hex4(u)
    ensures !IsHigh(EscapeUnit(u)[0])
  {
    hide HexDigit;
  }

  lemma UnitInjective(u: Unit, v: Unit)
    requires EscapeUnit(u) == EscapeUnit(v)
    ensures u == v
  {
    hide Hex4;
    CodedUnit(u);
    CodedUnit(v);
    if Coded(u) {
      HexInjective(u, v);
    } else {
      assert EscapeUnit(u)[0] == EscapeUnit(v)[0];
      assert |EscapeUnit(u)| > 1 ==> EscapeUnit(u)[1] == EscapeUnit(v)[1];
    }
  }

  lemma PieceDecodes(a: Text, b: Text)
    requires |a| > 0 && |b| > 0 && Piece(a) == Piece(b)
    ensures Taken(a) == Taken(b) && a[..Taken(a)] == b[..Taken(b)]
  {
    hide EscapeUnit;
    CodedUnit(a[0]);
    CodedUnit(b[0]);
    assert Piece(a)[0] == Piece(b)[0];
    if Paired(a) {
      assert Piece(a)[1] == Piece(b)[1];
    } else {
      UnitInjective(a[0], b[0]);
    }
  }

  /** An escaped string followed by a quote can be read in one way. */
  lemma {:induction false} EscapedDecodes(a: Text, b: Text, s: Text, t: Text)
    requires Escaped(a) + [QUOTE] + s == Escaped(b) + [QUOTE] + t
    ensures a == b && s == t
    decreases |a|
  {
    hide Piece, Taken;
    var x, y := Escaped(a) + [QUOTE] + s, Escaped(b) + [QUOTE] + t;
    if |a| == 0 || |b| == 0 {
      EmptyString(a, b, s, t);
    } else {
      var ra, rb := Escaped(a[Taken(a)..]) + [QUOTE] + s, Escaped(b[Taken(b)..]) + [QUOTE] + t;
      assert x == Piece(a) + ra && y == Piece(b) + rb;
      SamePiece(a, b, ra, rb);
      PieceDecodes(a, b);
      EscapedDecodes(a[Taken(a)..], b[Taken(b)..], s, t);
      assert a == a[..Taken(a)] + a[Taken(a)..] && b == b[..Taken(b)] + b[Taken(b)..];
    }
  }

  lemma EmptyString(a: Text, b: Text, s: Text, t: Text)
    requires Escaped(a) + [QUOTE] + s == Escaped(b) + [QUOTE] + t && (|a| == 0 || |b| == 0)
    ensures a == b && s == t
  {
    hide Piece, Taken;
    var x, y := Escaped(a) + [QUOTE] + s, Escaped(b) + [QUOTE] + t;
    assert x[0] == y[0];
    if |a| > 0 {
      PieceShape(a, QUOTE);
    }
    if |b| > 0 {
      PieceShape(b, QUOTE);
    }
    assert x[1..] == s && y[1..] == t;
  }

  lemma SamePiece(a: Text, b: Text, ra: Text, rb: Text)
    requires |a| > 0 && |b| > 0 && |ra| > 0 && |rb| > 0 && Piece(a) + ra == Piece(b) + rb
    ensures Piece(a) == Piece(b) && ra == rb
  {
    hide Piece;
    var x := Piece(a) + ra;
    assert x == Piece(b) + rb;
    PieceShape(a, x[1]);
    PieceShape(b, x[1]);
    assert x[0] == Piece(a)[0] == Piece(b)[0];
    assert |Piece(a)| > 1 ==> x[1] == Piece(a)[1];
    assert |Piece(b)| > 1 ==> x[1] == Piece(b)[1];
    SplitEqual(Piece(a), Piece(b), ra, rb);
  }

  /** Equal texts with first parts of one length have equal parts. */
  lemma SplitEqual(a: Text, b: Text, s: Text, t: Text)
    requires a + s == b + t && |a| == |b|
    ensures a == b && s == t
  {
    assert a == (a + s)[..|a|] && b == (b + t)[..|b|];
    assert s == (a + s)[|a|..] && t == (b + t)[|b|..];
  }

  lemma StringDecodes(a: Text, b: Text, s: Text, t: Text)
    requires CanonicalString(a) + s == CanonicalString(b) + t
    ensures a == b && s == t
  {
    hide Escaped;
    assert CanonicalString(a) + s == [QUOTE] + (Escaped(a) + [QUOTE] + s);
    assert CanonicalString(b) + t == [QUOTE] + (Escaped(b) + [QUOTE] + t);
    SplitEqual([QUOTE], [QUOTE], Escaped(a) + [QUOTE] + s, Escaped(b) + [QUOTE] + t);
    EscapedDecodes(a, b, s, t);
  }

  // ---------------------------------------------------------------- numbers

  /** Nothing follows, or something that cannot continue a number. */
  predicate Ends(s: Text) {
    |s| > 0 ==> !NumberUnit(s[0])
  }

  lemma TokenFirst(token: Text, rest: Text)
    requires forall i :: 0 <= i < |token| ==> NumberUnit(token[i])
    ensures if |token| > 0 then |token + rest| > 0 && NumberUnit((token + rest)[0]) else token + rest == rest
  {
  }

  lemma {:induction false} TokenDecodes(a: Text, b: Text, s: Text, t: Text)
    requires (forall i :: 0 <= i < |a| ==> NumberUnit(a[i])) && (forall i :: 0 <= i < |b| ==> NumberUnit(b[i]))
    requires Ends(s) && Ends(t) && a + s == b + t
    ensures a == b && s == t
  {
    if |a| == 0 || |b| == 0 {
      TokenFirst(a, s);
      TokenFirst(b, t);
    } else {
      assert a[0] == (a + s)[0] == b[0];
      assert (a + s)[1..] == a[1..] + s && (b + t)[1..] == b[1..] + t;
      TokenDecodes(a[1..], b[1..], s, t);
      assert a == [a[0]] + a[1..] && b == [b[0]] + b[1..];
    }
  }

  // ---------------------------------------------------------------- the first unit tells the kind

  datatype Kind = KNull | KTrue | KFalse | KNumber | KString | KArray | KObject

  function KindOf(v: Json): Kind
    requires Canonical(v).Some?
  {
    match v
    case Null => KNull
    case Bool(b) => if b then KTrue else KFalse
    case Num(_) => KNumber
    case Str(_) => KString
    case Arr(_) => KArray
    case Obj(_) => KObject
  }

  function KindAt(u: Unit): Kind {
    if u == 110 then KNull
    else if u == 116 then KTrue
    else if u == 102 then KFalse
    else if u == QUOTE then KString
    else if u == OPEN_ARRAY then KArray
    else if u == OPEN_OBJECT then KObject
    else KNumber
  }

  /** A number is written in number units. */
  lemma WrittenNumber(n: Number)
    requires Valid(Num(n)) && CanonicalNumber(n).Some?
    ensures |CanonicalNumber(n).value| > 0 && AllNumberUnits(CanonicalNumber(n).value)
  {
    hide JsonNumber;
    if n.Finite? {
      NumberUnits(n.token);
    }
  }

  lemma FirstUnit(v: Json)
    requires Valid(v) && Canonical(v).Some?
    ensures |Canonical(v).value| > 0 && KindAt(Canonical(v).value[0]) == KindOf(v)
    ensures Canonical(v).value[0] !in {COMMA, CLOSE_ARRAY, CLOSE_OBJECT}
  {
    hide Escaped, Join, SortPairs, PairTexts, ItemTexts, MemberPairs, JsonNumber, Valid, CanonicalNumber;
    match v {
      case Num(n) =>
        WrittenNumber(n);
        assert NumberUnit(Canonical(v).value[0]);
      case _ =>
    }
  }

  lemma SameKind(a: Json, b: Json, s: Text, t: Text)
    requires Valid(a) && Valid(b) && Canonical(a).Some? && Canonical(b).Some?
    requires Canonical(a).value + s == Canonical(b).value + t
    ensures KindOf(a) == KindOf(b)
  {
    hide Canonical, KindOf, KindAt, Valid;
    FirstUnit(a);
    FirstUnit(b);
    assert (Canonical(a).value + s)[0] == Canonical(a).value[0];
    assert (Canonical(b).value + t)[0] == Canonical(b).value[0];
  }

  // ---------------------------------------------------------------- lists

  lemma {:induction false} ItemTextsAt(items: seq<Json>, i: nat)
    requires ItemTexts(items).Some? && i < |items|
    ensures |ItemTexts(items).value| == |items|
    ensures Canonical(items[i]) == Some(ItemTexts(items).value[i])
    decreases |items|
  {
    hide Canonical;
    if i == 0 {
      ItemTextsLength(items);
    } else {
      ItemTextsAt(items[1..], i - 1);
    }
  }

  lemma {:induction false} ItemTextsLength(items: seq<Json>)
    requires ItemTexts(items).Some?
    ensures |ItemTexts(items).value| == |items|
    decreases |items|
  {
    hide Canonical;
    if |items| > 0 {
      ItemTextsLength(items[1..]);
    }
  }

  /** A comma-separated tail, closed by a unit that is not a comma: it is empty exactly when the closing unit comes first. */
  lemma TailShape(texts: seq<Text>, close: Unit, s: Text)
    requires close != COMMA
    ensures var x := JoinTail(texts) + [close] + s;
            && |x| > 0 && x[0] == (if |texts| == 0 then close else COMMA)
            && (|texts| > 0 ==> x == [COMMA] + (texts[0] + (JoinTail(texts[1..]) + [close] + s)))
            && (|texts| == 0 ==> x == [close] + s)
  {
    if |texts| > 0 {
      var rest := JoinTail(texts[1..]);
      assert JoinTail(texts) == [COMMA] + texts[0] + rest;
      Regroup([COMMA], texts[0], rest, [close], s);
    }
  }

  lemma Regroup(a: Text, b: Text, c: Text, d: Text, e: Text)
    ensures a + b + c + d + e == a + (b + (c + d + e))
  {
  }

  lemma JoinShape(texts: seq<Text>, close: Unit, s: Text)
    ensures |texts| > 0 ==> Join(texts) + [close] + s == texts[0] + (JoinTail(texts[1..]) + [close] + s)
    ensures |texts| == 0 ==> Join(texts) + [close] + s == [close] + s
  {
  }

  lemma TailEnds(texts: seq<Text>, close: Unit, s: Text)
    requires close == CLOSE_ARRAY || close == CLOSE_OBJECT
    ensures Ends(JoinTail(texts) + [close] + s)
  {
    TailShape(texts, close, s);
  }

  // ---------------------------------------------------------------- objects as sorted pairs

  /** Keys strictly ascending. */
  ghost predicate Ascending(pairs: seq<(Text, Text)>) {
    forall i, j :: 0 <= i < j < |pairs| ==> Less(pairs[i].0, pairs[j].0)
  }

  predicate DistinctKeys(pairs: seq<(Text, Text)>) {
    forall i, j :: 0 <= i < j < |pairs| ==> pairs[i].0 != pairs[j].0
  }

  lemma {:induction false} InsertMember(sorted: seq<(Text, Text)>, p: (Text, Text), q: (Text, Text))
    ensures q in Insert(sorted, p) <==> q == p || q in sorted
  {
    if |sorted| > 0 && !Less(p.0, sorted[0].0) {
      InsertMember(sorted[1..], p, q);
      assert sorted == [sorted[0]] + sorted[1..];
    }
  }

  lemma {:induction false} InsertAscending(sorted: seq<(Text, Text)>, p: (Text, Text))
    requires Ascending(sorted) && forall q :: q in sorted ==> q.0 != p.0
    ensures Ascending(Insert(sorted, p))
  {
    hide Less;
    if |sorted| > 0 {
      var first, rest := sorted[0], sorted[1..];
      assert sorted == [first] + rest && first in sorted;
      if Less(p.0, first.0) {
        forall q | q in sorted ensures Less(p.0, q.0) {
          if q != first {
            var i :| 0 < i < |sorted| && sorted[i] == q;
            LessTransitive(p.0, first.0, q.0);
          }
        }
        AscendingCons(p, sorted);
      } else {
        LessTotal(p.0, first.0);
        InsertAscending(rest, p);
        forall q | q in Insert(rest, p) ensures Less(first.0, q.0) {
          InsertMember(rest, p, q);
          if q != p {
            var i :| 0 <= i < |rest| && rest[i] == q;
            assert sorted[i + 1] == q;
          }
        }
        AscendingCons(first, Insert(rest, p));
      }
    }
  }

  lemma AscendingCons(p: (Text, Text), rest: seq<(Text, Text)>)
    requires Ascending(rest) && forall q :: q in rest ==> Less(p.0, q.0)
    ensures Ascending([p] + rest)
  {
    hide Less;
    var all := [p] + rest;
    forall i, j | 0 <= i < j < |all| ensures Less(all[i].0, all[j].0) {
      assert all[j] == rest[j - 1] && rest[j - 1] in rest;
      if i > 0 {
        assert all[i] == rest[i - 1];
      }
    }
  }

  /** Sorting keeps the pairs and puts their keys in strictly ascending order. */
  lemma {:induction false} SortPairsMeaning(pairs: seq<(Text, Text)>)
    requires DistinctKeys(pairs)
    ensures Ascending(SortPairs(pairs)) && forall q :: q in SortPairs(pairs) <==> q in pairs
    decreases |pairs|
  {
    hide Less, Insert;
    if |pairs| > 0 {
      var first, rest := pairs[0], pairs[1..];
      assert pairs == [first] + rest;
      SortPairsMeaning(rest);
      forall q | q in rest ensures q.0 != first.0 {
        var i :| 0 <= i < |rest| && rest[i] == q;
        assert pairs[i + 1] == q;
      }
      InsertAscending(SortPairs(rest), first);
      forall q ensures q in Insert(SortPairs(rest), first) <==> q in pairs {
        InsertMember(SortPairs(rest), first, q);
      }
    }
  }

  /** Pairs in ascending key order are determined by which pairs they are. */
  lemma {:induction false} AscendingUnique(x: seq<(Text, Text)>, y: seq<(Text, Text)>)
    requires Ascending(x) && Ascending(y) && forall q :: q in x <==> q in y
    ensures x == y
    decreases |x|
  {
    hide Less;
    if |x| == 0 || |y| == 0 {
      FirstMember(x);
      FirstMember(y);
    } else {
      SameHead(x, y);
      forall q ensures q in x[1..] <==> q in y[1..] {
        TailMember(x, q);
        TailMember(y, q);
      }
      AscendingUnique(x[1..], y[1..]);
      assert x == [x[0]] + x[1..] && y == [y[0]] + y[1..];
    }
  }

  lemma FirstMember(x: seq<(Text, Text)>)
    ensures |x| > 0 ==> x[0] in x
  {
  }

  lemma TailMember(x: seq<(Text, Text)>, q: (Text, Text))
    requires Ascending(x) && |x| > 0
    ensures q in x[1..] <==> q in x && q != x[0]
  {
    hide Less;
    assert x == [x[0]] + x[1..];
    if q in x[1..] {
      var i :| 0 < i < |x| && x[i] == q;
      LessIrreflexive(q.0);
    }
  }

  lemma SameHead(x: seq<(Text, Text)>, y: seq<(Text, Text)>)
    requires Ascending(x) && Ascending(y) && |x| > 0 && |y| > 0 && forall q :: q in x <==> q in y
    ensures x[0] == y[0]
  {
    hide Less;
    assert x[0] in y && y[0] in x;
    if x[0] != y[0] {
      var i :| 0 < i < |y| && y[i] == x[0];
      var j :| 0 < j < |x| && x[j] == y[0];
      LessTransitive(x[0].0, y[0].0, x[0].0);
      LessIrreflexive(x[0].0);
    }
  }

  // ---------------------------------------------------------------- members and pairs

  predicate UniqueKeys(members: seq<Member>) {
    forall i, j :: 0 <= i < j < |members| ==> members[i].key != members[j].key
  }

  lemma {:induction false} HasTail(members: seq<Member>, key: Text)
    requires |members| > 0
    ensures Has(members, key) <==> (members[0].key == key && members[0].value != Undefined) || Has(members[1..], key)
  {
    if Has(members[1..], key) {
      var i :| 0 <= i < |members[1..]| && members[1..][i].key == key && members[1..][i].value != Undefined;
      assert members[i + 1].key == key;
    }
    if Has(members, key) && !(members[0].key == key && members[0].value != Undefined) {
      var i :| 0 <= i < |members| && members[i].key == key && members[i].value != Undefined;
      assert members[1..][i - 1].key == key;
    }
  }

  /** The pairs of an object are its defined members, each with the text of its value. */
  lemma {:induction false} PairsOfMembers(members: seq<Member>)
    requires MemberPairs(members).Some? && UniqueKeys(members)
    ensures DistinctKeys(MemberPairs(members).value)
    ensures forall p :: p in MemberPairs(members).value <==> Has(members, p.0) && Canonical(Get(members, p.0)) == Some(p.1)
    decreases |members|
  {
    hide Canonical, Has;
    if |members| == 0 {
      assert forall key :: !Has(members, key) by { NoMember(members); }
    } else {
      var first, rest := members[0], members[1..];
      PairsOfMembers(rest);
      forall p ensures p in MemberPairs(members).value <==> Has(members, p.0) && Canonical(Get(members, p.0)) == Some(p.1) {
        HasTail(members, p.0);
        KeyOnce(members, p.0);
      }
      KeyOnce(members, first.key);
      DistinctAfter(members);
    }
  }

  lemma DistinctAfter(members: seq<Member>)
    requires MemberPairs(members).Some? && |members| > 0 && UniqueKeys(members)
    requires MemberPairs(members[1..]).Some? && DistinctKeys(MemberPairs(members[1..]).value)
    requires forall p :: p in MemberPairs(members[1..]).value ==> Has(members[1..], p.0)
    ensures DistinctKeys(MemberPairs(members).value)
  {
    hide Canonical, Has;
    KeyOnce(members, members[0].key);
    var rest := MemberPairs(members[1..]).value;
    forall i | 0 <= i < |rest| ensures rest[i].0 != members[0].key {
      assert rest[i] in rest;
    }
  }

  lemma NoMember(members: seq<Member>)
    requires |members| == 0
    ensures forall key :: !Has(members, key)
  {
  }

  lemma KeyOnce(members: seq<Member>, key: Text)
    requires |members| > 0 && UniqueKeys(members)
    ensures members[0].key == key ==> !Has(members[1..], key)
  {
    forall i | 0 <= i < |members[1..]| ensures members[1..][i].key != members[0].key {
      assert members[1..][i] == members[i + 1];
    }
  }

  lemma {:induction false} PairsDefined(members: seq<Member>)
    ensures MemberPairs(members).Some? <==>
              forall i :: 0 <= i < |members| && members[i].value != Undefined ==> Canonical(members[i].value).Some?
    decreases |members|
  {
    hide Canonical;
    if |members| > 0 {
      PairsDefined(members[1..]);
      assert forall i :: 0 < i < |members| ==> members[i] == members[1..][i - 1];
      assert forall i :: 0 <= i < |members[1..]| ==> members[1..][i] == members[i + 1];
    }
  }

  lemma {:induction false} GetOfMember(members: seq<Member>, i: nat)
    requires UniqueKeys(members) && i < |members| && members[i].value != Undefined
    ensures Has(members, members[i].key) && Get(members, members[i].key) == members[i].value
    decreases |members|
  {
    if i > 0 {
      assert members[1..][i - 1] == members[i];
      GetOfMember(members[1..], i - 1);
    }
  }

  lemma GetValid(members: seq<Member>, key: Text)
    requires Valid(Obj(members)) && Has(members, key)
    ensures Valid(Get(members, key)) && UniqueKeys(members)
  {
  }

  /** The pairs an object writes, in the order it writes them. */
  function Written(members: seq<Member>): seq<(Text, Text)>
    requires MemberPairs(members).Some?
  {
    SortPairs(MemberPairs(members).value)
  }

  lemma WrittenMeaning(members: seq<Member>)
    requires Valid(Obj(members)) && MemberPairs(members).Some?
    ensures Ascending(Written(members))
    ensures forall p :: p in Written(members) <==> Has(members, p.0) && Canonical(Get(members, p.0)) == Some(p.1)
  {
    hide Canonical, Has, SortPairs, MemberPairs;
    assert UniqueKeys(members);
    PairsOfMembers(members);
    SortPairsMeaning(MemberPairs(members).value);
  }

  // ---------------------------------------------------------------- reading a text back

  /** A canonical text, followed by something that cannot continue a number, determines the value and where it ends. */
  lemma {:induction false} Decodes(a: Json, b: Json, s: Text, t: Text)
    requires Valid(a) && Valid(b) && Canonical(a).Some? && Canonical(b).Some? && Ends(s) && Ends(t)
    requires Canonical(a).value + s == Canonical(b).value + t
    ensures Equiv(a, b) && s == t
    decreases a, 2
  {
    SameKind(a, b, s, t);
    match a {
      case Null => SplitEqual(Canonical(a).value, Canonical(b).value, s, t);
      case Bool(_) => SplitEqual(Canonical(a).value, Canonical(b).value, s, t);
      case Num(m) => NumberDecodes(m, b.n, s, t);
      case Str(x) => StringDecodes(x, b.s, s, t);
      case Arr(x) => ArrayDecodes(a, b, s, t);
      case Obj(x) => ObjectDecodes(a, b, s, t);
    }
  }

  lemma NumberDecodes(m: Number, n: Number, s: Text, t: Text)
    requires Valid(Num(m)) && Valid(Num(n)) && CanonicalNumber(m).Some? && CanonicalNumber(n).Some? && Ends(s) && Ends(t)
    requires CanonicalNumber(m).value + s == CanonicalNumber(n).value + t
    ensures Equiv(Num(m), Num(n)) && s == t
  {
    WrittenNumber(m);
    WrittenNumber(n);
    TokenDecodes(CanonicalNumber(m).value, CanonicalNumber(n).value, s, t);
  }

  lemma {:induction false} ArrayDecodes(a: Json, b: Json, s: Text, t: Text)
    requires a.Arr? && b.Arr? && Valid(a) && Valid(b) && Canonical(a).Some? && Canonical(b).Some? && Ends(s) && Ends(t)
    requires Canonical(a).value + s == Canonical(b).value + t
    ensures Equiv(a, b) && s == t
    decreases a, 1
  {
    hide Join, JoinTail, ItemTexts, Valid;
    var x, y := ItemTexts(a.items).value, ItemTexts(b.items).value;
    assert Canonical(a).value + s == [OPEN_ARRAY] + (Join(x) + [CLOSE_ARRAY] + s);
    assert Canonical(b).value + t == [OPEN_ARRAY] + (Join(y) + [CLOSE_ARRAY] + t);
    SplitEqual([OPEN_ARRAY], [OPEN_ARRAY], Join(x) + [CLOSE_ARRAY] + s, Join(y) + [CLOSE_ARRAY] + t);
    ItemTextsLength(a.items);
    ItemTextsLength(b.items);
    ListDecodes(a, b, 0, s, t);
  }

  /** What the list writes from an index on, up to its end. */
  function Rest(texts: seq<Text>, i: nat, close: Unit, s: Text): Text
    requires i <= |texts|
  {
    (if i == 0 then Join(texts) else JoinTail(texts[i..])) + [close] + s
  }

  lemma {:induction false} ListDecodes(a: Json, b: Json, i: nat, s: Text, t: Text)
    requires a.Arr? && b.Arr? && Valid(a) && Valid(b) && ItemTexts(a.items).Some? && ItemTexts(b.items).Some? && Ends(s) && Ends(t)
    requires |ItemTexts(a.items).value| == |a.items| && |ItemTexts(b.items).value| == |b.items|
    requires i <= |a.items| && i <= |b.items|
    requires Rest(ItemTexts(a.items).value, i, CLOSE_ARRAY, s) == Rest(ItemTexts(b.items).value, i, CLOSE_ARRAY, t)
    ensures |a.items| == |b.items| && s == t
    ensures forall k :: i <= k < |a.items| ==> Equiv(a.items[k], b.items[k])
    decreases a, 0, |a.items| - i
  {
    hide Canonical, Equiv, Join, JoinTail, ItemTexts, Rest;
    var x, y := ItemTexts(a.items).value, ItemTexts(b.items).value;
    RestShape(x, i, CLOSE_ARRAY, s);
    RestShape(y, i, CLOSE_ARRAY, t);
    ItemsValid(a, i);
    ItemsValid(b, i);
    if i == |a.items| || i == |b.items| {
      assert Rest(x, i, CLOSE_ARRAY, s)[0] == Rest(y, i, CLOSE_ARRAY, t)[0];
      assert i == |x| ==> Rest(x, i, CLOSE_ARRAY, s) == [CLOSE_ARRAY] + s;
      ItemsClosed(a, b, i, s, t);
      SplitEqual([CLOSE_ARRAY], [CLOSE_ARRAY], s, t);
    } else {
      ItemTextsAt(a.items, i);
      ItemTextsAt(b.items, i);
      var u, v := Rest(x, i + 1, CLOSE_ARRAY, s), Rest(y, i + 1, CLOSE_ARRAY, t);
      RestEnds(x, i + 1, CLOSE_ARRAY, s);
      RestEnds(y, i + 1, CLOSE_ARRAY, t);
      Separated(x[i] + u, y[i] + v, i);
      Decodes(a.items[i], b.items[i], u, v);
      ListDecodes(a, b, i + 1, s, t);
    }
  }

  function Separator(i: nat): Text {
    if i == 0 then [] else [COMMA]
  }

  lemma Separated(u: Text, v: Text, i: nat)
    requires Separator(i) + u == Separator(i) + v
    ensures u == v
  {
    SplitEqual(Separator(i), Separator(i), u, v);
  }

  lemma RestShape(texts: seq<Text>, i: nat, close: Unit, s: Text)
    requires i <= |texts|
    ensures i < |texts| ==> Rest(texts, i, close, s) == Separator(i) + (texts[i] + Rest(texts, i + 1, close, s))
    ensures i == |texts| ==> Rest(texts, i, close, s) == [close] + s
  {
    if i < |texts| {
      if i == 0 {
        JoinShape(texts, close, s);
      } else {
        assert texts[i..][1..] == texts[i + 1..];
        assert JoinTail(texts[i..]) == [COMMA] + texts[i] + JoinTail(texts[i + 1..]);
      }
    }
  }

  lemma RestEnds(texts: seq<Text>, i: nat, close: Unit, s: Text)
    requires 0 < i <= |texts| && (close == CLOSE_ARRAY || close == CLOSE_OBJECT)
    ensures Ends(Rest(texts, i, close, s))
  {
    TailEnds(texts[i..], close, s);
  }

  lemma ItemsValid(a: Json, i: nat)
    requires a.Arr? && Valid(a)
    ensures i < |a.items| ==> Valid(a.items[i])
  {
  }

  /** One list ending where the other goes on would put its closing unit where a separator or a value starts. */
  lemma ItemsClosed(a: Json, b: Json, i: nat, s: Text, t: Text)
    requires a.Arr? && b.Arr? && Valid(a) && Valid(b) && ItemTexts(a.items).Some? && ItemTexts(b.items).Some?
    requires |ItemTexts(a.items).value| == |a.items| && |ItemTexts(b.items).value| == |b.items|
    requires i <= |a.items| && i <= |b.items| && (i == |a.items| || i == |b.items|)
    requires Rest(ItemTexts(a.items).value, i, CLOSE_ARRAY, s) == Rest(ItemTexts(b.items).value, i, CLOSE_ARRAY, t)
    ensures i == |a.items| == |b.items| && [CLOSE_ARRAY] + s == [CLOSE_ARRAY] + t
  {
    hide Canonical, Join, JoinTail, ItemTexts, Rest, Valid;
    var x, y := ItemTexts(a.items).value, ItemTexts(b.items).value;
    RestShape(x, i, CLOSE_ARRAY, s);
    RestShape(y, i, CLOSE_ARRAY, t);
    if i < |a.items| {
      NotClosed(a, i, CLOSE_ARRAY, Rest(x, i + 1, CLOSE_ARRAY, s));
    }
    if i < |b.items| {
      NotClosed(b, i, CLOSE_ARRAY, Rest(y, i + 1, CLOSE_ARRAY, t));
    }
  }

  lemma NotClosed(a: Json, i: nat, close: Unit, s: Text)
    requires a.Arr? && Valid(a) && ItemTexts(a.items).Some? && i < |a.items| && close in {CLOSE_ARRAY, CLOSE_OBJECT}
    requires |ItemTexts(a.items).value| == |a.items|
    ensures var x := Separator(i) + (ItemTexts(a.items).value[i] + s); |x| > 0 && x[0] != close
  {
    hide Canonical, ItemTexts;
    ItemTextsAt(a.items, i);
    FirstUnit(a.items[i]);
  }

  // ---------------------------------------------------------------- objects

  lemma {:induction false} ObjectDecodes(a: Json, b: Json, s: Text, t: Text)
    requires a.Obj? && b.Obj? && Valid(a) && Valid(b) && Canonical(a).Some? && Canonical(b).Some? && Ends(s) && Ends(t)
    requires Canonical(a).value + s == Canonical(b).value + t
    ensures Equiv(a, b) && s == t
    decreases a, 1
  {
    hide Join, JoinTail, MemberPairs, SortPairs, Valid, PairTexts, Has, Get;
    var x, y := Written(a.members), Written(b.members);
    assert Canonical(a).value + s == [OPEN_OBJECT] + (Join(PairTexts(x)) + [CLOSE_OBJECT] + s);
    assert Canonical(b).value + t == [OPEN_OBJECT] + (Join(PairTexts(y)) + [CLOSE_OBJECT] + t);
    SplitEqual([OPEN_OBJECT], [OPEN_OBJECT], Join(PairTexts(x)) + [CLOSE_OBJECT] + s, Join(PairTexts(y)) + [CLOSE_OBJECT] + t);
    WrittenMeaning(a.members);
    WrittenMeaning(b.members);
    PairsDecode(a, b, 0, s, t);
    SameWritten(a, b);
  }

  lemma {:induction false} PairsDecode(a: Json, b: Json, i: nat, s: Text, t: Text)
    requires a.Obj? && b.Obj? && Valid(a) && Valid(b) && MemberPairs(a.members).Some? && MemberPairs(b.members).Some?
    requires Ends(s) && Ends(t) && i <= |Written(a.members)| && i <= |Written(b.members)|
    requires Rest(PairTexts(Written(a.members)), i, CLOSE_OBJECT, s) == Rest(PairTexts(Written(b.members)), i, CLOSE_OBJECT, t)
    ensures |Written(a.members)| == |Written(b.members)| && s == t
    ensures forall k :: i <= k < |Written(a.members)| ==> SamePair(a, b, k)
    decreases a, 0, |Written(a.members)| - i
  {
    hide Canonical, Equiv, Join, JoinTail, PairTexts, Rest, Written, MemberPairs, Has, Get, SamePair, Valid;
    var x, y := Written(a.members), Written(b.members);
    var tx, ty := PairTexts(x), PairTexts(y);
    RestShape(tx, i, CLOSE_OBJECT, s);
    RestShape(ty, i, CLOSE_OBJECT, t);
    if i == |x| || i == |y| {
      PairsClosed(x, y, i, s, t);
      SplitEqual([CLOSE_OBJECT], [CLOSE_OBJECT], s, t);
    } else {
      var u, v := Rest(tx, i + 1, CLOSE_OBJECT, s), Rest(ty, i + 1, CLOSE_OBJECT, t);
      RestEnds(tx, i + 1, CLOSE_OBJECT, s);
      RestEnds(ty, i + 1, CLOSE_OBJECT, t);
      Separated(tx[i] + u, ty[i] + v, i);
      PairDecodes(a, b, i, u, v);
      PairsDecode(a, b, i + 1, s, t);
    }
  }

  /** The k-th written pairs have one key, and values that are the same. */
  ghost predicate SamePair(a: Json, b: Json, k: nat)
    requires a.Obj? && b.Obj? && MemberPairs(a.members).Some? && MemberPairs(b.members).Some?
  {
    && k < |Written(a.members)| && k < |Written(b.members)|
    && var key := Written(a.members)[k].0;
       Written(b.members)[k].0 == key && Has(a.members, key) && Has(b.members, key)
       && Equiv(Get(a.members, key), Get(b.members, key))
  }

  lemma {:induction false} PairDecodes(a: Json, b: Json, i: nat, u: Text, v: Text)
    requires a.Obj? && b.Obj? && Valid(a) && Valid(b) && MemberPairs(a.members).Some? && MemberPairs(b.members).Some?
    requires i < |Written(a.members)| && i < |Written(b.members)| && Ends(u) && Ends(v)
    requires PairTexts(Written(a.members))[i] + u == PairTexts(Written(b.members))[i] + v
    ensures SamePair(a, b, i) && u == v
    decreases a, 0, 0
  {
    hide Canonical, Equiv, CanonicalString, Written, MemberPairs, Has, Valid, Get;
    var p, q := Written(a.members)[i], Written(b.members)[i];
    assert p in Written(a.members) && q in Written(b.members);
    WrittenMeaning(a.members);
    WrittenMeaning(b.members);
    assert PairTexts(Written(a.members))[i] + u == CanonicalString(p.0) + ([COLON] + (p.1 + u));
    assert PairTexts(Written(b.members))[i] + v == CanonicalString(q.0) + ([COLON] + (q.1 + v));
    StringDecodes(p.0, q.0, [COLON] + (p.1 + u), [COLON] + (q.1 + v));
    SplitEqual([COLON], [COLON], p.1 + u, q.1 + v);
    GetValid(a.members, p.0);
    GetValid(b.members, q.0);
    Decodes(Get(a.members, p.0), Get(b.members, q.0), u, v);
  }

  lemma PairsClosed(x: seq<(Text, Text)>, y: seq<(Text, Text)>, i: nat, s: Text, t: Text)
    requires i <= |x| && i <= |y| && (i == |x| || i == |y|)
    requires Rest(PairTexts(x), i, CLOSE_OBJECT, s) == Rest(PairTexts(y), i, CLOSE_OBJECT, t)
    ensures i == |x| == |y| && [CLOSE_OBJECT] + s == [CLOSE_OBJECT] + t
  {
    hide Join, JoinTail, Rest, CanonicalString;
    RestShape(PairTexts(x), i, CLOSE_OBJECT, s);
    RestShape(PairTexts(y), i, CLOSE_OBJECT, t);
    if i < |x| {
      PairOpens(x, i);
    }
    if i < |y| {
      PairOpens(y, i);
    }
  }

  lemma PairOpens(x: seq<(Text, Text)>, i: nat)
    requires i < |x|
    ensures |PairTexts(x)[i]| > 0 && PairTexts(x)[i][0] == QUOTE
    ensures forall u: Text :: (Separator(i) + (PairTexts(x)[i] + u))[0] != CLOSE_OBJECT
  {
    hide Escaped;
    assert PairTexts(x)[i] == CanonicalString(x[i].0) + [COLON] + x[i].1;
  }

  /** Objects that wrote the same pairs are the same. */
  lemma SameWritten(a: Json, b: Json)
    requires a.Obj? && b.Obj? && Valid(a) && Valid(b) && Canonical(a).Some? && Canonical(b).Some?
    requires |Written(a.members)| == |Written(b.members)|
    requires forall k :: 0 <= k < |Written(a.members)| ==> SamePair(a, b, k)
    ensures Equiv(a, b)
  {
    hide Written, MemberPairs, Has, Get;
    WrittenMeaning(a.members);
    WrittenMeaning(b.members);
    forall key ensures Has(a.members, key) <==> Has(b.members, key)
      ensures Has(a.members, key) && Has(b.members, key) ==> Equiv(Get(a.members, key), Get(b.members, key))
    {
      if Has(a.members, key) {
        SameKey(a, b, key);
      } else if Has(b.members, key) {
        OtherKey(a, b, key);
      }
    }
  }

  lemma SameKey(a: Json, b: Json, key: Text)
    requires a.Obj? && b.Obj? && Valid(a) && Valid(b) && MemberPairs(a.members).Some? && MemberPairs(b.members).Some?
    requires |Written(a.members)| == |Written(b.members)|
    requires forall k :: 0 <= k < |Written(a.members)| ==> SamePair(a, b, k)
    requires Has(a.members, key)
    ensures Has(b.members, key) && Equiv(Get(a.members, key), Get(b.members, key))
  {
    hide Written, MemberPairs, Has, Get, Equiv, Canonical;
    WrittenMeaning(a.members);
    DefinedWrites(a.members, key);
    var p := (key, Canonical(Get(a.members, key)).value);
    assert p in Written(a.members);
    var k :| 0 <= k < |Written(a.members)| && Written(a.members)[k] == p;
    assert SamePair(a, b, k);
  }

  lemma OtherKey(a: Json, b: Json, key: Text)
    requires a.Obj? && b.Obj? && Valid(a) && Valid(b) && MemberPairs(a.members).Some? && MemberPairs(b.members).Some?
    requires |Written(a.members)| == |Written(b.members)|
    requires forall k :: 0 <= k < |Written(a.members)| ==> SamePair(a, b, k)
    requires Has(b.members, key)
    ensures Has(a.members, key)
  {
    hide Written, MemberPairs, Has, Get, Equiv, Canonical;
    WrittenMeaning(b.members);
    DefinedWrites(b.members, key);
    var p := (key, Canonical(Get(b.members, key)).value);
    assert p in Written(b.members);
    var k :| 0 <= k < |Written(b.members)| && Written(b.members)[k] == p;
    assert SamePair(a, b, k);
  }

  /** A defined member of an object that can be written has a text. */
  lemma DefinedWrites(members: seq<Member>, key: Text)
    requires MemberPairs(members).Some? && Has(members, key)
    ensures Canonical(Get(members, key)).Some?
  {
    hide Canonical, MemberPairs;
    PairsDefined(members);
    var v := Get(members, key);
    var i :| 0 <= i < |members| && members[i] == Member(key, v) && v != Undefined;
  }

  // ---------------------------------------------------------------- same values write the same text

  /** Equal values, up to member order, undefined members and the sign of zero, have one canonical text. */
  lemma {:induction false} SameText(a: Json, b: Json)
    requires Valid(a) && Valid(b) && Equiv(a, b) && Canonical(a).Some?
    ensures Canonical(b) == Canonical(a)
    decreases a, 1
  {
    match (a, b) {
      case (Arr(x), Arr(y)) =>
        SameItems(a, b, 0);
        assert x[0..] == x && y[0..] == y;
      case (Obj(x), Obj(y)) => SameMembers(a, b);
      case _ =>
    }
  }

  lemma {:induction false} SameItems(a: Json, b: Json, i: nat)
    requires a.Arr? && b.Arr? && Valid(a) && Valid(b) && Equiv(a, b) && i <= |a.items| && ItemTexts(a.items[i..]).Some?
    ensures ItemTexts(b.items[i..]) == ItemTexts(a.items[i..])
    decreases a, 0, |a.items| - i
  {
    hide Canonical, Valid, Equiv;
    if i < |a.items| {
      assert a.items[i..][1..] == a.items[i + 1..] && b.items[i..][1..] == b.items[i + 1..] by { SameLength(a, b, i); }
      SameLength(a, b, i);
      ItemsValid(a, i);
      ItemsValid(b, i);
      SameText(a.items[i], b.items[i]);
      SameItems(a, b, i + 1);
    } else {
      SameLength(a, b, i);
    }
  }

  lemma SameLength(a: Json, b: Json, i: nat)
    requires a.Arr? && b.Arr? && Equiv(a, b) && i <= |a.items|
    ensures |a.items| == |b.items|
    ensures i < |a.items| ==> Equiv(a.items[i], b.items[i])
  {
  }

  lemma {:induction false} SameMembers(a: Json, b: Json)
    requires a.Obj? && b.Obj? && Valid(a) && Valid(b) && Equiv(a, b) && Canonical(a).Some?
    ensures Canonical(b) == Canonical(a)
    decreases a, 0
  {
    hide Has, Get, SortPairs, Join, PairTexts;
    PairsDefined(b.members);
    forall i | 0 <= i < |b.members| && b.members[i].value != Undefined ensures Canonical(b.members[i].value).Some? {
      GetOfMember(b.members, i);
      SameMember(a, b, b.members[i].key);
      DefinedWrites(a.members, b.members[i].key);
    }
    WrittenMeaning(a.members);
    WrittenMeaning(b.members);
    forall p ensures p in Written(a.members) <==> p in Written(b.members) {
      if Has(a.members, p.0) {
        SameMember(a, b, p.0);
      }
    }
    AscendingUnique(Written(a.members), Written(b.members));
  }

  lemma {:induction false} SameMember(a: Json, b: Json, key: Text)
    requires a.Obj? && b.Obj? && Valid(a) && Valid(b) && Equiv(a, b) && MemberPairs(a.members).Some?
    requires Has(a.members, key) || Has(b.members, key)
    ensures Has(a.members, key) && Has(b.members, key)
    ensures Canonical(Get(b.members, key)) == Canonical(Get(a.members, key))
    decreases a, 0, 0
  {
    hide Has, MemberPairs, Canonical, Get;
    assert Has(a.members, key) <==> Has(b.members, key);
    DefinedWrites(a.members, key);
    GetValid(a.members, key);
    GetValid(b.members, key);
    SameText(Get(a.members, key), Get(b.members, key));
  }

  // ---------------------------------------------------------------- which values can be written

  /** No number is infinite or not a number, and undefined stands only for the value of a member. */
  predicate Supported(v: Json)
    decreases v
  {
    match v
    case Num(n) => n != NonFinite
    case Arr(items) => forall i :: 0 <= i < |items| ==> Supported(items[i])
    case Obj(members) => forall i :: 0 <= i < |members| ==> members[i].value == Undefined || Supported(members[i].value)
    case Undefined => false
    case Unsupported => false
    case _ => true
  }

  lemma {:induction false} ItemsDefined(items: seq<Json>)
    ensures ItemTexts(items).Some? <==> forall i :: 0 <= i < |items| ==> Canonical(items[i]).Some?
    decreases |items|
  {
    hide Canonical;
    if |items| > 0 {
      ItemsDefined(items[1..]);
      assert forall i :: 0 < i < |items| ==> items[i] == items[1..][i - 1];
      assert forall i :: 0 <= i < |items[1..]| ==> items[1..][i] == items[i + 1];
    }
  }

  /** A value is refused exactly when it holds, anywhere, something the scheme does not cover. */
  lemma {:induction false} WrittenExactlyWhenSupported(v: Json)
    ensures Canonical(v).Some? <==> Supported(v)
    decreases v
  {
    match v {
      case Arr(items) =>
        ItemsDefined(items);
        forall i | 0 <= i < |items| ensures Canonical(items[i]).Some? <==> Supported(items[i]) {
          WrittenExactlyWhenSupported(items[i]);
        }
      case Obj(members) =>
        PairsDefined(members);
        forall i | 0 <= i < |members| ensures Canonical(members[i].value).Some? <==> Supported(members[i].value) {
          WrittenExactlyWhenSupported(members[i].value);
        }
      case _ =>
    }
  }

  // ---------------------------------------------------------------- main results

  /**
   * Canonical JSON is injective up to what it is meant to forget: two values that can be written have
   * the same canonical text if and only if they are equal up to member order, undefined members and
   * the sign of zero.
   */
  lemma SameTextExactlyWhenEqual(a: Json, b: Json)
    requires Valid(a) && Valid(b) && Canonical(a).Some? && Canonical(b).Some?
    ensures Canonical(a) == Canonical(b) <==> Equiv(a, b)
  {
    hide Canonical, Equiv, Valid;
    if Equiv(a, b) {
      SameText(a, b);
    }
    if Canonical(a) == Canonical(b) {
      Decodes(a, b, [], []);
    }
  }

  /** The order in which an object holds its members does not matter. */
  lemma MemberOrderIrrelevant(x: seq<Member>, y: seq<Member>)
    requires Valid(Obj(x)) && Valid(Obj(y)) && Canonical(Obj(x)).Some? && forall m :: m in x <==> m in y
    ensures Canonical(Obj(y)) == Canonical(Obj(x))
  {
    hide Canonical;
    forall key
      ensures Has(x, key) <==> Has(y, key)
      ensures Has(x, key) && Has(y, key) ==> Equiv(Get(x, key), Get(y, key))
    {
      SameHas(x, y, key);
      SameHas(y, x, key);
      if Has(x, key) && Has(y, key) {
        SameGet(x, y, key);
        Reflexive(Get(x, key));
      }
    }
    SameText(Obj(x), Obj(y));
  }

  lemma SameHas(x: seq<Member>, y: seq<Member>, key: Text)
    requires forall m :: m in x <==> m in y
    ensures Has(x, key) ==> Has(y, key)
  {
    if Has(x, key) {
      var i :| 0 <= i < |x| && x[i].key == key && x[i].value != Undefined;
      assert x[i] in y;
    }
  }

  lemma SameGet(x: seq<Member>, y: seq<Member>, key: Text)
    requires UniqueKeys(y) && Has(x, key) && Has(y, key) && forall m :: m in x <==> m in y
    ensures Get(x, key) == Get(y, key)
  {
    var v := Get(x, key);
    var i :| 0 <= i < |x| && x[i] == Member(key, v) && v != Undefined;
    assert x[i] in y;
    var j :| 0 <= j < |y| && y[j] == Member(key, v);
    GetOfMember(y, j);
  }

  lemma {:induction false} Reflexive(v: Json)
    ensures Equiv(v, v)
    decreases v
  {
    match v {
      case Arr(items) =>
        forall i | 0 <= i < |items| ensures Equiv(items[i], items[i]) {
          Reflexive(items[i]);
        }
      case Obj(members) =>
        forall key | Has(members, key) ensures Equiv(Get(members, key), Get(members, key)) {
          Reflexive(Get(members, key));
        }
      case _ =>
    }
  }
}
