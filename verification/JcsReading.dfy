/**
 * The canonical text read by somebody else: a reader written from the grammar of RFC 8259, with code
 * units of its own, gets the value back from every text the scheme writes.
 */
module JcsReading {
  import opened Wrappers
  import opened CodeUnits
  import opened JsonNumbers
  import opened Jcs
  import opened JcsDecoding

  datatype Reading<T> = Got(value: T, rest: Text) | Malformed

  // ---------------------------------------------------------------- strings, section 7 of RFC 8259

  /** The value of a hexadecimal digit, in either case. */
  function HexValueOf(u: Unit): (r: Option<int>)
    ensures r.Some? ==> 0 <= r.value < 16
  {
    if 48 <= u <= 57 then Some(u - 48)
    else if 97 <= u <= 102 then Some(u - 87)
    else if 65 <= u <= 70 then Some(u - 55)
    else None
  }

  function ReadHex2(high: Unit, low: Unit): (r: Option<int>)
    ensures r.Some? ==> 0 <= r.value < 0x100
  {
    match (HexValueOf(high), HexValueOf(low))
    case (Some(h), Some(l)) => Some(h * 16 + l)
    case _ => None
  }

  function ReadHex4(t: Text): (r: Option<int>)
    requires |t| == 4
    ensures r.Some? ==> 0 <= r.value < 0x10000
  {
    match (ReadHex2(t[0], t[1]), ReadHex2(t[2], t[3]))
    case (Some(high), Some(low)) => Some(high * 256 + low)
    case _ => None
  }

  /** The two-character escapes. */
  function ReadEscape(u: Unit): Option<Unit> {
    if u == 34 || u == 92 || u == 47 then Some(u)
    else if u == 98 then Some(8)
    else if u == 102 then Some(12)
    else if u == 110 then Some(10)
    else if u == 114 then Some(13)
    else if u == 116 then Some(9)
    else None
  }

  function Prepend(u: Unit, rest: Reading<Text>): Reading<Text> {
    match rest
    case Malformed => Malformed
    case Got(t, more) => Got([u] + t, more)
  }

  /** The characters of a string up to its closing quote, which is read as well. */
  function ReadChars(t: Text): (r: Reading<Text>)
    ensures r.Got? ==> |r.rest| < |t|
  {
    if |t| == 0 || t[0] < 32 then Malformed
    else if t[0] == 34 then Got([], t[1..])
    else if t[0] == 92 then
      if |t| < 2 then Malformed
      else if t[1] == 117 then
        if |t| < 6 then Malformed
        else
          match ReadHex4(t[2..6])
          case None => Malformed
          case Some(u) => Prepend(u, ReadChars(t[6..]))
      else
        match ReadEscape(t[1])
        case None => Malformed
        case Some(u) => Prepend(u, ReadChars(t[2..]))
    else Prepend(t[0], ReadChars(t[1..]))
  }

  // ---------------------------------------------------------------- values, sections 2 to 6 of RFC 8259

  /** Space, tab, line feed and carriage return are insignificant around a structural character. */
  function SkipSpace(t: Text): (r: Text)
    ensures |r| <= |t|
  {
    if |t| > 0 && t[0] in {32, 9, 10, 13} then SkipSpace(t[1..]) else t
  }

  function NumberRun(t: Text): (n: nat)
    ensures n <= |t|
  {
    if |t| == 0 || !NumberUnit(t[0]) then 0 else 1 + NumberRun(t[1..])
  }

  function ReadNumber(t: Text): (r: Reading<Json>)
    ensures r.Got? ==> |r.rest| < |t|
  {
    var n := NumberRun(t);
    if n > 0 && JsonNumber(t[..n]) then Got(Num(Finite(t[..n])), t[n..]) else Malformed
  }

  function ReadWord(word: Text, v: Json, t: Text): (r: Reading<Json>)
    requires |word| > 0
    ensures r.Got? ==> |r.rest| < |t|
  {
    if word <= t then Got(v, t[|word|..]) else Malformed
  }

  function ReadValue(t: Text): (r: Reading<Json>)
    ensures r.Got? ==> |r.rest| < |t|
    decreases |t|, 0
  {
    var u := SkipSpace(t);
    if |u| == 0 then Malformed
    else if u[0] == 110 then ReadWord([110, 117, 108, 108], Null, u)
    else if u[0] == 116 then ReadWord([116, 114, 117, 101], Bool(true), u)
    else if u[0] == 102 then ReadWord([102, 97, 108, 115, 101], Bool(false), u)
    else if u[0] == 34 then
      match ReadChars(u[1..])
      case Malformed => Malformed
      case Got(s, rest) => Got(Str(s), rest)
    else if u[0] == 91 then
      var first := SkipSpace(u[1..]);
      if |first| > 0 && first[0] == 93 then Got(Arr([]), first[1..])
      else
        match ReadItems(u[1..])
        case Malformed => Malformed
        case Got(items, rest) => Got(Arr(items), rest)
    else if u[0] == 123 then
      var first := SkipSpace(u[1..]);
      if |first| > 0 && first[0] == 125 then Got(Obj([]), first[1..])
      else
        match ReadMembers(u[1..])
        case Malformed => Malformed
        case Got(members, rest) => Got(Obj(members), rest)
    else ReadNumber(u)
  }

  /** One value or more, separated by commas, up to the closing bracket. */
  function ReadItems(t: Text): (r: Reading<seq<Json>>)
    ensures r.Got? ==> |r.rest| < |t|
    decreases |t|, 1
  {
    match ReadValue(t)
    case Malformed => Malformed
    case Got(v, rest) =>
      var u := SkipSpace(rest);
      if |u| == 0 then Malformed
      else if u[0] == 93 then Got([v], u[1..])
      else if u[0] != 44 then Malformed
      else
        match ReadItems(u[1..])
        case Malformed => Malformed
        case Got(more, end) => Got([v] + more, end)
  }

  /** A name, a colon and a value. */
  function ReadMember(t: Text): (r: Reading<Member>)
    ensures r.Got? ==> |r.rest| < |t|
    decreases |t|, 1
  {
    var u := SkipSpace(t);
    if |u| == 0 || u[0] != 34 then Malformed
    else
      match ReadChars(u[1..])
      case Malformed => Malformed
      case Got(name, rest) =>
        var w := SkipSpace(rest);
        if |w| == 0 || w[0] != 58 then Malformed
        else
          match ReadValue(w[1..])
          case Malformed => Malformed
          case Got(v, more) => Got(Member(name, v), more)
  }

  /** One member or more, separated by commas, up to the closing brace. */
  function ReadMembers(t: Text): (r: Reading<seq<Member>>)
    ensures r.Got? ==> |r.rest| < |t|
    decreases |t|, 2
  {
    match ReadMember(t)
    case Malformed => Malformed
    case Got(m, rest) =>
      var u := SkipSpace(rest);
      if |u| == 0 then Malformed
      else if u[0] == 125 then Got([m], u[1..])
      else if u[0] != 44 then Malformed
      else
        match ReadMembers(u[1..])
        case Malformed => Malformed
        case Got(more, end) => Got([m] + more, end)
  }

  /** A whole text: one value, and nothing after it but space. */
  function Read(t: Text): Option<Json> {
    match ReadValue(t)
    case Malformed => None
    case Got(v, rest) => if SkipSpace(rest) == [] then Some(v) else None
  }

  // ---------------------------------------------------------------- strings are read back

  lemma ReadsHex(u: Unit)
    ensures ReadHex4(Hex4(u)) == Some(u)
  {
    hide HexValueOf, HexDigit;
    HexValue(u);
    ReadsDigits(u / 4096 % 16, u / 256 % 16);
    ReadsDigits(u / 16 % 16, u % 16);
    assert u / 4096 == u / 4096 % 16;
  }

  lemma ReadsDigits(h: int, l: int)
    requires 0 <= h < 16 && 0 <= l < 16
    ensures ReadHex2(HexDigit(h), HexDigit(l)) == Some(h * 16 + l)
  {
  }

  lemma ReadsUnit(u: Unit, rest: Text)
    ensures ReadChars(EscapeUnit(u) + rest) == Prepend(u, ReadChars(rest))
  {
    hide Hex4, ReadHex4;
    CodedUnit(u);
    var t := EscapeUnit(u) + rest;
    assert t[|EscapeUnit(u)|..] == rest;
    if Coded(u) {
      ReadsHex(u);
      assert t[2..6] == Hex4(u);
    }
  }

  lemma ReadsLiteral(u: Unit, rest: Text)
    requires u >= 128
    ensures ReadChars([u] + rest) == Prepend(u, ReadChars(rest))
  {
    assert ([u] + rest)[1..] == rest;
  }

  lemma ReadsQuote(rest: Text)
    ensures ReadChars([34] + rest) == Got([], rest)
  {
  }

  /** A JSON reader gets the string back and stops at its closing quote, whatever follows. */
  lemma {:induction false} ReadUndoesEscape(s: Text, rest: Text)
    ensures ReadChars(Escaped(s) + [34] + rest) == Got(s, rest)
    decreases |s|
  {
    hide EscapeUnit, ReadChars, Piece, Taken;
    if |s| == 0 {
      ReadsQuote(rest);
      assert Escaped(s) + [34] + rest == [34] + rest;
    } else {
      var more := Escaped(s[Taken(s)..]) + [34] + rest;
      ReadUndoesEscape(s[Taken(s)..], rest);
      assert Escaped(s) + [34] + rest == Piece(s) + more;
      ReadsPiece(s, more);
      assert s == s[..Taken(s)] + s[Taken(s)..];
    }
  }

  lemma ReadsPiece(s: Text, more: Text)
    requires |s| > 0 && ReadChars(more).Got?
    ensures ReadChars(Piece(s) + more) == Got(s[..Taken(s)] + ReadChars(more).value, ReadChars(more).rest)
  {
    hide EscapeUnit, ReadChars;
    if Paired(s) {
      assert Piece(s) + more == [s[0]] + ([s[1]] + more);
      ReadsLiteral(s[0], [s[1]] + more);
      ReadsLiteral(s[1], more);
      assert [s[0]] + ([s[1]] + ReadChars(more).value) == s[..2] + ReadChars(more).value;
    } else {
      ReadsUnit(s[0], more);
      assert s[..1] == [s[0]];
    }
  }

  // ---------------------------------------------------------------- what is escaped and what is not

  /** Every unit of the range 0xD800 to 0xDBFF is followed by one of 0xDC00 to 0xDFFF, and those occur only there. */
  predicate WellFormed(t: Text)
    decreases |t|
  {
    |t| == 0
    || (if 55296 <= t[0] <= 56319 then |t| > 1 && 56320 <= t[1] <= 57343 && WellFormed(t[2..])
        else !(56320 <= t[0] <= 57343) && WellFormed(t[1..]))
  }

  lemma {:induction false} BasicPrefix(p: Text, t: Text)
    requires (forall i :: 0 <= i < |p| ==> !(55296 <= p[i] <= 57343)) && WellFormed(t)
    ensures WellFormed(p + t)
    decreases |p|
  {
    if |p| == 0 {
      assert p + t == t;
    } else {
      BasicPrefix(p[1..], t);
      assert (p + t)[1..] == p[1..] + t;
    }
  }

  /** An escaped string is well-formed UTF-16 for every string, so that it has a UTF-8 encoding. */
  lemma {:induction false} EscapedIsWellFormed(s: Text)
    ensures WellFormed(Escaped(s))
    decreases |s|
  {
    hide WellFormed, EscapeUnit;
    if |s| == 0 {
      assert WellFormed([]) by { NothingWellFormed(); }
    } else {
      var rest := Escaped(s[Taken(s)..]);
      EscapedIsWellFormed(s[Taken(s)..]);
      if Paired(s) {
        PairPrefix(s[0], s[1], rest);
      } else {
        UnitIsBasic(s[0]);
        BasicPrefix(EscapeUnit(s[0]), rest);
      }
    }
  }

  lemma NothingWellFormed()
    ensures WellFormed([])
  {
  }

  lemma PairPrefix(high: Unit, low: Unit, t: Text)
    requires IsHigh(high) && IsLow(low) && WellFormed(t)
    ensures WellFormed([high, low] + t)
  {
    assert ([high, low] + t)[2..] == t;
  }

  lemma UnitIsBasic(u: Unit)
    ensures forall i :: 0 <= i < |EscapeUnit(u)| ==> !(55296 <= EscapeUnit(u)[i] <= 57343)
  {
  }

  /** A well-formed string without quote, backslash or control is written as it is: nothing is escaped needlessly. */
  lemma {:induction false} PlainIsNotEscaped(s: Text)
    requires WellFormed(s) && forall i :: 0 <= i < |s| ==> s[i] >= 32 && s[i] != 34 && s[i] != 92
    ensures Escaped(s) == s
    decreases |s|
  {
    hide EscapeUnit;
    if |s| > 0 {
      PlainUnit(s[0]);
      if 55296 <= s[0] <= 56319 {
        PlainIsNotEscaped(s[2..]);
        assert s == [s[0], s[1]] + s[2..];
      } else {
        PlainIsNotEscaped(s[1..]);
        assert s == [s[0]] + s[1..];
      }
    }
  }

  lemma PlainUnit(u: Unit)
    requires u >= 32 && u != 34 && u != 92
    ensures !(55296 <= u <= 57343) ==> EscapeUnit(u) == [u]
  {
  }

  // ---------------------------------------------------------------- numbers are read back

  lemma {:induction false} RunOfToken(token: Text, s: Text)
    requires AllNumberUnits(token) && Ends(s)
    ensures NumberRun(token + s) == |token|
  {
    if |token| == 0 {
      assert token + s == s;
    } else {
      assert (token + s)[1..] == token[1..] + s;
      RunOfToken(token[1..], s);
    }
  }

  lemma ReadsToken(token: Text, s: Text)
    requires JsonNumber(token) && Ends(s)
    ensures ReadNumber(token + s) == Got(Num(Finite(token)), s)
  {
    hide JsonNumber;
    NumberUnits(token);
    RunOfToken(token, s);
    assert (token + s)[..|token|] == token && (token + s)[|token|..] == s;
  }

  lemma NoSpace(t: Text)
    requires |t| == 0 || t[0] > 32
    ensures SkipSpace(t) == t
  {
  }

  lemma ReadsNumber(n: Number, s: Text) returns (w: Json)
    requires Valid(Num(n)) && CanonicalNumber(n).Some? && Ends(s)
    ensures ReadValue(CanonicalNumber(n).value + s) == Got(w, s) && Equiv(Num(n), w) && Valid(w)
  {
    hide JsonNumber, ReadNumber;
    WrittenNumber(n);
    var token := CanonicalNumber(n).value;
    assert JsonNumber(token) by {
      if n.NegativeZero? {
        ZeroIsNumber();
      }
    }
    ReadsToken(token, s);
    NoSpace(token + s);
    assert NumberUnit(token[0]) && (token + s)[0] == token[0];
    w := Num(Finite(token));
  }

  lemma ZeroIsNumber()
    ensures JsonNumber(ZERO)
  {
    assert ZERO[1..] == [];
  }

  // ---------------------------------------------------------------- values are read back

  /** Every object anywhere in the value holds its members in strictly ascending order of their names. */
  ghost predicate InOrder(v: Json)
    decreases v
  {
    match v
    case Arr(items) => forall i :: 0 <= i < |items| ==> InOrder(items[i])
    case Obj(members) =>
      && (forall i, j :: 0 <= i < j < |members| ==> Less(members[i].key, members[j].key))
      && (forall i :: 0 <= i < |members| ==> InOrder(members[i].value))
    case _ => true
  }

  ghost predicate ReadsAs(v: Json, w: Json) { Equiv(v, w) && Valid(w) && InOrder(w) }

  lemma {:induction false} ReadsValue(v: Json, s: Text) returns (w: Json)
    requires Valid(v) && Canonical(v).Some? && Ends(s)
    ensures ReadValue(Canonical(v).value + s) == Got(w, s) && ReadsAs(v, w)
    decreases v, 2
  {
    match v {
      case Null => w := v; ReadsWord(v, s);
      case Bool(_) => w := v; ReadsWord(v, s);
      case Num(n) => w := ReadsNumber(n, s);
      case Str(x) => w := v; ReadsString(x, s);
      case Arr(items) => w := ReadsArray(v, s);
      case Obj(members) => w := ReadsObject(v, s);
    }
  }

  lemma ReadsWord(v: Json, s: Text)
    requires v.Null? || v.Bool?
    ensures ReadValue(Canonical(v).value + s) == Got(v, s)
  {
    var word := Canonical(v).value;
    NoSpace(word + s);
    assert (word + s)[|word|..] == s;
    assert word <= word + s;
  }

  lemma ReadsString(x: Text, s: Text)
    ensures ReadValue(CanonicalString(x) + s) == Got(Str(x), s)
  {
    hide Escaped, ReadChars;
    var t := CanonicalString(x) + s;
    NoSpace(t);
    assert t[1..] == Escaped(x) + [34] + s;
    ReadUndoesEscape(x, s);
  }

  lemma {:induction false} ReadsArray(v: Json, s: Text) returns (w: Json)
    requires v.Arr? && Valid(v) && Canonical(v).Some? && Ends(s)
    ensures ReadValue(Canonical(v).value + s) == Got(w, s) && ReadsAs(v, w)
    decreases v, 1
  {
    hide Valid, ItemTexts, Rest, ReadItems, Equiv, Join;
    var texts := ItemTexts(v.items).value;
    var t := Canonical(v).value + s;
    ItemTextsLength(v.items);
    assert t == [91] + Rest(texts, 0, CLOSE_ARRAY, s) by { WholeArray(v, s); }
    assert t[1..] == Rest(texts, 0, CLOSE_ARRAY, s);
    NoSpace(t);
    RestShape(texts, 0, CLOSE_ARRAY, s);
    if |v.items| == 0 {
      NoSpace(t[1..]);
      assert t[1..][1..] == s;
      w := Arr([]);
      EmptyArray(v);
    } else {
      FirstOfItem(v, 0, Rest(texts, 1, CLOSE_ARRAY, s));
      NoSpace(t[1..]);
      assert t[1..] == texts[0] + Rest(texts, 1, CLOSE_ARRAY, s);
      var items := ReadsItems(v, 0, s);
      w := Arr(items);
      SameArray(v, items);
    }
  }

  lemma WholeArray(v: Json, s: Text)
    requires v.Arr? && Canonical(v).Some?
    ensures Canonical(v).value + s == [91] + Rest(ItemTexts(v.items).value, 0, CLOSE_ARRAY, s)
  {
    hide ItemTexts, Join;
  }

  lemma EmptyArray(v: Json)
    requires v.Arr? && |v.items| == 0
    ensures ReadsAs(v, Arr([]))
  {
  }

  lemma SameArray(v: Json, items: seq<Json>)
    requires v.Arr? && |items| == |v.items| && forall k :: 0 <= k < |items| ==> ReadsAs(v.items[k], items[k])
    ensures ReadsAs(v, Arr(items))
  {
  }

  /** An item starts neither with space nor with a closing unit. */
  lemma FirstOfItem(v: Json, i: nat, u: Text)
    requires v.Arr? && Valid(v) && ItemTexts(v.items).Some? && i < |v.items| && |ItemTexts(v.items).value| == |v.items|
    ensures var x := ItemTexts(v.items).value[i] + u; |x| > 0 && x[0] > 32 && x[0] != 93
  {
    hide Canonical, ItemTexts;
    ItemTextsAt(v.items, i);
    ItemsValid(v, i);
    FirstUnit(v.items[i]);
    FirstIsNoSpace(v.items[i]);
  }

  lemma FirstIsNoSpace(v: Json)
    requires Valid(v) && Canonical(v).Some?
    ensures |Canonical(v).value| > 0 && Canonical(v).value[0] > 32
  {
    hide Escaped, Join, SortPairs, PairTexts, ItemTexts, MemberPairs;
    match v {
      case Num(n) =>
        WrittenNumber(n);
        assert NumberUnit(Canonical(v).value[0]);
      case _ =>
    }
  }

  lemma {:induction false} ReadsItems(v: Json, i: nat, s: Text) returns (items: seq<Json>)
    requires v.Arr? && Valid(v) && ItemTexts(v.items).Some? && |ItemTexts(v.items).value| == |v.items| && Ends(s)
    requires i < |v.items|
    ensures var texts := ItemTexts(v.items).value;
            ReadItems(texts[i] + Rest(texts, i + 1, CLOSE_ARRAY, s)) == Got(items, s)
    ensures |items| == |v.items| - i && forall k :: 0 <= k < |items| ==> ReadsAs(v.items[i + k], items[k])
    decreases v, 0, |v.items| - i
  {
    hide Canonical, Valid, ItemTexts, Rest, ReadsAs, ReadValue;
    var texts := ItemTexts(v.items).value;
    var rest := Rest(texts, i + 1, CLOSE_ARRAY, s);
    ItemTextsAt(v.items, i);
    ItemsValid(v, i);
    RestEnds(texts, i + 1, CLOSE_ARRAY, s);
    RestShape(texts, i + 1, CLOSE_ARRAY, s);
    var first := ReadsValue(v.items[i], rest);
    if i + 1 == |v.items| {
      NoSpace(rest);
      assert rest[1..] == s;
      items := [first];
    } else {
      var next := texts[i + 1] + Rest(texts, i + 2, CLOSE_ARRAY, s);
      assert rest == [44] + next;
      NoSpace(rest);
      assert rest[1..] == next;
      var more := ReadsItems(v, i + 1, s);
      items := [first] + more;
    }
  }

  // ---------------------------------------------------------------- objects are read back

  /** What was read of the member written k-th: its name, and a value equal to the member's. */
  ghost predicate MemberReadsAs(members: seq<Member>, k: nat, m: Member)
    requires MemberPairs(members).Some? && k < |Written(members)|
  {
    && m.key == Written(members)[k].0 && Has(members, m.key)
    && m.value != Undefined && ReadsAs(Get(members, m.key), m.value)
  }

  lemma {:induction false} ReadsObject(v: Json, s: Text) returns (w: Json)
    requires v.Obj? && Valid(v) && Canonical(v).Some? && Ends(s)
    ensures ReadValue(Canonical(v).value + s) == Got(w, s) && ReadsAs(v, w)
    decreases v, 1
  {
    hide Valid, MemberPairs, Rest, ReadMembers, Equiv, Join, PairTexts, Written, Has, Get;
    var texts := PairTexts(Written(v.members));
    var t := Canonical(v).value + s;
    assert t == [123] + Rest(texts, 0, CLOSE_OBJECT, s) by { WholeObject(v, s); }
    assert t[1..] == Rest(texts, 0, CLOSE_OBJECT, s);
    NoSpace(t);
    RestShape(texts, 0, CLOSE_OBJECT, s);
    var found: seq<Member> := [];
    if |texts| == 0 {
      NoSpace(t[1..]);
      assert t[1..][1..] == s;
    } else {
      PairStarts(Written(v.members), 0, Rest(texts, 1, CLOSE_OBJECT, s));
      assert t[1..] == texts[0] + Rest(texts, 1, CLOSE_OBJECT, s);
      NoSpace(t[1..]);
      found := ReadsMembers(v, 0, s);
    }
    w := Obj(found);
    SameObject(v, found);
  }

  lemma WholeObject(v: Json, s: Text)
    requires v.Obj? && Canonical(v).Some?
    ensures Canonical(v).value + s == [123] + Rest(PairTexts(Written(v.members)), 0, CLOSE_OBJECT, s)
  {
    hide MemberPairs, Join, PairTexts, SortPairs;
  }

  /** A member starts with the quote of its name. */
  lemma PairStarts(pairs: seq<(Text, Text)>, i: nat, u: Text)
    requires i < |pairs|
    ensures var x := PairTexts(pairs)[i] + u;
            x == [34] + (Escaped(pairs[i].0) + [34] + ([58] + (pairs[i].1 + u))) && x[0] == 34
  {
    hide Escaped, PairTexts;
    Regrouped([34], Escaped(pairs[i].0), [34], [58], pairs[i].1, u);
  }

  lemma Regrouped(a: Text, b: Text, c: Text, d: Text, e: Text, f: Text)
    ensures a + b + c + d + e + f == a + (b + c + (d + (e + f)))
  {
    assert (d + e) + f == d + (e + f);
    assert (a + b + c) + (d + e + f) == a + (b + c + (d + e + f));
    assert a + b + c + d + e + f == (a + b + c) + (d + e + f);
  }

  lemma {:induction false} ReadsMembers(v: Json, i: nat, s: Text) returns (found: seq<Member>)
    requires v.Obj? && Valid(v) && MemberPairs(v.members).Some? && Ends(s) && i < |Written(v.members)|
    ensures var texts := PairTexts(Written(v.members));
            ReadMembers(texts[i] + Rest(texts, i + 1, CLOSE_OBJECT, s)) == Got(found, s)
    ensures |found| == |Written(v.members)| - i
    ensures forall k :: 0 <= k < |found| ==> MemberReadsAs(v.members, i + k, found[k])
    decreases v, 0, |Written(v.members)| - i
  {
    hide Valid, MemberPairs, Rest, PairTexts, Written, MemberReadsAs, ReadMember;
    var texts := PairTexts(Written(v.members));
    var rest := Rest(texts, i + 1, CLOSE_OBJECT, s);
    RestEnds(texts, i + 1, CLOSE_OBJECT, s);
    RestShape(texts, i + 1, CLOSE_OBJECT, s);
    var m := ReadsMember(v, i, rest);
    if i + 1 == |texts| {
      NoSpace(rest);
      assert rest[1..] == s;
      found := [m];
    } else {
      var next := texts[i + 1] + Rest(texts, i + 2, CLOSE_OBJECT, s);
      assert rest == [44] + next;
      NoSpace(rest);
      assert rest[1..] == next;
      var more := ReadsMembers(v, i + 1, s);
      found := [m] + more;
    }
  }

  lemma {:induction false} ReadsMember(v: Json, i: nat, u: Text) returns (m: Member)
    requires v.Obj? && Valid(v) && MemberPairs(v.members).Some? && Ends(u) && i < |Written(v.members)|
    ensures ReadMember(PairTexts(Written(v.members))[i] + u) == Got(m, u)
    ensures MemberReadsAs(v.members, i, m)
    decreases v, 0, 0
  {
    hide Canonical, Valid, Equiv, Written, MemberPairs, Has, PairTexts, ReadChars, ReadValue, Escaped;
    var p := Written(v.members)[i];
    assert p in Written(v.members);
    WrittenMeaning(v.members);
    GetValid(v.members, p.0);
    PairStarts(Written(v.members), i, u);
    var t := PairTexts(Written(v.members))[i] + u;
    NoSpace(t);
    assert t[1..] == Escaped(p.0) + [34] + ([58] + (p.1 + u));
    ReadUndoesEscape(p.0, [58] + (p.1 + u));
    NoSpace([58] + (p.1 + u));
    assert ([58] + (p.1 + u))[1..] == p.1 + u;
    var w := ReadsValue(Get(v.members, p.0), u);
    m := Member(p.0, w);
    ReadDefined(Get(v.members, p.0), w);
  }

  lemma ReadDefined(v: Json, w: Json)
    requires Equiv(v, w) && v != Undefined
    ensures w != Undefined
  {
  }

  /** Members read for all the pairs an object writes, in their order, make up the object. */
  lemma SameObject(v: Json, found: seq<Member>)
    requires v.Obj? && Valid(v) && MemberPairs(v.members).Some? && |found| == |Written(v.members)|
    requires forall k :: 0 <= k < |found| ==> MemberReadsAs(v.members, k, found[k])
    ensures ReadsAs(v, Obj(found))
  {
    hide Written, MemberPairs, Has, Get, Canonical, Less, Equiv;
    WrittenMeaning(v.members);
    FoundAscending(v, found);
    assert forall k :: 0 <= k < |found| ==> MemberReadsAs(v.members, k, found[k]) ==> Valid(found[k].value) && InOrder(found[k].value);
    assert Valid(Obj(found)) && InOrder(Obj(found));
    forall key ensures Has(v.members, key) <==> Has(found, key)
      ensures Has(v.members, key) && Has(found, key) ==> Equiv(Get(v.members, key), Get(found, key))
    {
      FoundKey(v, found, key);
    }
    EquivObjects(v.members, found);
  }

  lemma EquivObjects(x: seq<Member>, y: seq<Member>)
    requires forall key :: Has(x, key) <==> Has(y, key)
    requires forall key :: Has(x, key) && Has(y, key) ==> Equiv(Get(x, key), Get(y, key))
    ensures Equiv(Obj(x), Obj(y))
  {
    hide Has, Get;
  }

  lemma FoundAscending(v: Json, found: seq<Member>)
    requires v.Obj? && MemberPairs(v.members).Some? && |found| == |Written(v.members)| && Ascending(Written(v.members))
    requires forall k :: 0 <= k < |found| ==> MemberReadsAs(v.members, k, found[k])
    ensures UniqueKeys(found) && forall i, j :: 0 <= i < j < |found| ==> Less(found[i].key, found[j].key)
  {
    hide Written, MemberPairs, Has, Get, Less, Equiv, Valid, InOrder;
    forall i, j | 0 <= i < j < |found| ensures Less(found[i].key, found[j].key) && found[i].key != found[j].key {
      assert MemberReadsAs(v.members, i, found[i]) && MemberReadsAs(v.members, j, found[j]);
      assert Less(Written(v.members)[i].0, Written(v.members)[j].0);
      LessIrreflexive(found[i].key);
    }
  }

  lemma FoundKey(v: Json, found: seq<Member>, key: Text)
    requires v.Obj? && Valid(v) && MemberPairs(v.members).Some? && |found| == |Written(v.members)| && UniqueKeys(found)
    requires forall k :: 0 <= k < |found| ==> MemberReadsAs(v.members, k, found[k])
    ensures Has(v.members, key) <==> Has(found, key)
    ensures Has(v.members, key) ==> Equiv(Get(v.members, key), Get(found, key))
  {
    hide Written, MemberPairs, Get, Canonical, Less, Equiv, Valid;
    if Has(found, key) {
      var k :| 0 <= k < |found| && found[k].key == key && found[k].value != Undefined;
      assert MemberReadsAs(v.members, k, found[k]);
    }
    if Has(v.members, key) {
      WrittenMeaning(v.members);
      DefinedWrites(v.members, key);
      var p := (key, Canonical(Get(v.members, key)).value);
      assert p in Written(v.members);
      var k :| 0 <= k < |Written(v.members)| && Written(v.members)[k] == p;
      assert MemberReadsAs(v.members, k, found[k]);
      GetOfMember(found, k);
    }
  }

  // ---------------------------------------------------------------- main result

  /**
   * Every value without something the scheme does not cover is written as a JSON text, and reading that
   * text gives the value back, up to the order of members, undefined members and the sign of zero, with
   * the members of every object in ascending order. Writing what was read gives the same text again.
   */
  lemma ReadsBack(v: Json)
    requires Valid(v) && Supported(v)
    ensures Canonical(v).Some?
    ensures var read := Read(Canonical(v).value);
            read.Some? && Equiv(v, read.value) && InOrder(read.value) && Canonical(read.value) == Canonical(v)
  {
    hide InOrder, Canonical, Valid, Supported, Equiv, ReadValue;
    WrittenExactlyWhenSupported(v);
    var w := ReadsValue(v, []);
    assert Canonical(v).value + [] == Canonical(v).value;
    SameText(v, w);
  }
}
