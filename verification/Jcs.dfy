/**
 * The JSON Canonicalization Scheme of RFC 8785: object members are written in the code-unit order of
 * their keys (section 3.2.3), strings and numbers as ECMAScript writes them (section 3.2.2). Texts are
 * sequences of UTF-16 code units; the text of a finite number is an abstract token.
 */
module Jcs {
  import opened Wrappers
  import opened CodeUnits
  import opened JsonNumbers

  /** A finite number is represented by the token ECMAScript prints for it; positive zero prints "0". */
  datatype Number = NonFinite | NegativeZero | Finite(token: Text)

  datatype Json =
    | Null
    | Bool(b: bool)
    | Num(n: Number)
    | Str(s: Text)
    | Arr(items: seq<Json>)
    | Obj(members: seq<Member>)
    | Undefined
    | Unsupported

  datatype Member = Member(key: Text, value: Json)

  const QUOTE: Unit := 34
  const BACKSLASH: Unit := 92
  const COMMA: Unit := 44
  const COLON: Unit := 58
  const OPEN_ARRAY: Unit := 91
  const CLOSE_ARRAY: Unit := 93
  const OPEN_OBJECT: Unit := 123
  const CLOSE_OBJECT: Unit := 125
  const LOWER_U: Unit := 117
  const ZERO: Text := [48]

  /** The values a program can hold: the text of a number follows the grammar, and the keys of an object are distinct. */
  predicate Valid(v: Json) {
    match v
    case Num(Finite(token)) => JsonNumber(token)
    case Arr(items) => forall i :: 0 <= i < |items| ==> Valid(items[i])
    case Obj(members) =>
      && (forall i, j :: 0 <= i < j < |members| ==> members[i].key != members[j].key)
      && (forall i :: 0 <= i < |members| ==> Valid(members[i].value))
    case _ => true
  }

  // ---------------------------------------------------------------- strings

  predicate IsHigh(u: Unit) {
    0xD800 <= u < 0xDC00
  }

  predicate IsLow(u: Unit) {
    0xDC00 <= u < 0xE000
  }

  function HexDigit(d: int): Unit
    requires 0 <= d < 16
  {
    if d < 10 then 48 + d else 87 + d
  }

  function Hex4(u: Unit): Text {
    [HexDigit(u / 4096), HexDigit(u / 256 % 16), HexDigit(u / 16 % 16), HexDigit(u % 16)]
  }

  /** The escapes of JSON.stringify; a surrogate on its own is written as its code. */
  function EscapeUnit(u: Unit): (t: Text)
    ensures |t| > 0
  {
    if u == QUOTE then [BACKSLASH, QUOTE]
    else if u == BACKSLASH then [BACKSLASH, BACKSLASH]
    else if u == 8 then [BACKSLASH, 98]
    else if u == 9 then [BACKSLASH, 116]
    else if u == 10 then [BACKSLASH, 110]
    else if u == 12 then [BACKSLASH, 102]
    else if u == 13 then [BACKSLASH, 114]
    else if u < 32 || IsHigh(u) || IsLow(u) then [BACKSLASH, LOWER_U] + Hex4(u)
    else [u]
  }

  predicate Paired(s: Text) {
    |s| >= 2 && IsHigh(s[0]) && IsLow(s[1])
  }

  /** How many code units the next piece of the escaped text covers, and that piece. */
  function Taken(s: Text): (n: nat)
    requires |s| > 0
    ensures 0 < n <= |s|
  {
    if Paired(s) then 2 else 1
  }

  function Piece(s: Text): (t: Text)
    requires |s| > 0
    ensures |t| > 0
  {
    if Paired(s) then [s[0], s[1]] else EscapeUnit(s[0])
  }

  function Escaped(s: Text): Text {
    if |s| == 0 then [] else Piece(s) + Escaped(s[Taken(s)..])
  }

  function CanonicalString(s: Text): Text {
    [QUOTE] + Escaped(s) + [QUOTE]
  }

  // ---------------------------------------------------------------- values

  function CanonicalNumber(n: Number): Option<Text> {
    match n
    case NonFinite => None
    case NegativeZero => Some(ZERO)
    case Finite(token) => Some(token)
  }

  function Join(texts: seq<Text>): Text {
    if |texts| == 0 then [] else texts[0] + JoinTail(texts[1..])
  }

  function JoinTail(texts: seq<Text>): Text {
    if |texts| == 0 then [] else [COMMA] + texts[0] + JoinTail(texts[1..])
  }

  function Insert(sorted: seq<(Text, Text)>, p: (Text, Text)): seq<(Text, Text)> {
    if |sorted| == 0 || Less(p.0, sorted[0].0) then [p] + sorted else [sorted[0]] + Insert(sorted[1..], p)
  }

  function SortPairs(pairs: seq<(Text, Text)>): seq<(Text, Text)> {
    if |pairs| == 0 then [] else Insert(SortPairs(pairs[1..]), pairs[0])
  }

  function PairTexts(pairs: seq<(Text, Text)>): (texts: seq<Text>)
    ensures |texts| == |pairs|
    ensures forall i :: 0 <= i < |pairs| ==> texts[i] == CanonicalString(pairs[i].0) + [COLON] + pairs[i].1
  {
    if |pairs| == 0 then []
    else [CanonicalString(pairs[0].0) + [COLON] + pairs[0].1] + PairTexts(pairs[1..])
  }

  /** None is the error raised for a value the scheme does not cover. */
  function Canonical(v: Json): Option<Text>
    decreases v
  {
    match v
    case Null => Some([110, 117, 108, 108])
    case Bool(b) => Some(if b then [116, 114, 117, 101] else [102, 97, 108, 115, 101])
    case Num(n) => CanonicalNumber(n)
    case Str(s) => Some(CanonicalString(s))
    case Arr(items) =>
      (match ItemTexts(items)
       case None => None
       case Some(texts) => Some([OPEN_ARRAY] + Join(texts) + [CLOSE_ARRAY]))
    case Obj(members) =>
      (match MemberPairs(members)
       case None => None
       case Some(pairs) => Some([OPEN_OBJECT] + Join(PairTexts(SortPairs(pairs))) + [CLOSE_OBJECT]))
    case Undefined => None
    case Unsupported => None
  }

  function ItemTexts(items: seq<Json>): Option<seq<Text>>
    decreases items
  {
    if |items| == 0 then Some([])
    else
      match (Canonical(items[0]), ItemTexts(items[1..]))
      case (Some(first), Some(rest)) => Some([first] + rest)
      case _ => None
  }

  /** The key and the text of every member whose value is not undefined. */
  function MemberPairs(members: seq<Member>): Option<seq<(Text, Text)>>
    decreases members
  {
    if |members| == 0 then Some([])
    else if members[0].value == Undefined then MemberPairs(members[1..])
    else
      match (Canonical(members[0].value), MemberPairs(members[1..]))
      case (Some(text), Some(rest)) => Some([(members[0].key, text)] + rest)
      case _ => None
  }

  // ---------------------------------------------------------------- when two values are the same

  predicate Zero(n: Number) {
    n == NegativeZero || n == Finite([48])
  }

  /** A key with a value that is not undefined. */
  predicate Has(members: seq<Member>, key: Text) {
    exists i :: 0 <= i < |members| && members[i].key == key && members[i].value != Undefined
  }

  function Get(members: seq<Member>, key: Text): (v: Json)
    requires Has(members, key)
    ensures exists i :: 0 <= i < |members| && members[i] == Member(key, v) && v != Undefined
  {
    if members[0].key == key && members[0].value != Undefined then members[0].value else Get(members[1..], key)
  }

  /** Equal up to the order of members, members that are undefined, and the sign of zero. */
  ghost predicate Equiv(a: Json, b: Json)
    decreases a
  {
    match (a, b)
    case (Num(m), Num(n)) => m == n || (Zero(m) && Zero(n))
    case (Arr(x), Arr(y)) => |x| == |y| && forall i :: 0 <= i < |x| ==> Equiv(x[i], y[i])
    case (Obj(x), Obj(y)) =>
      && (forall key :: Has(x, key) <==> Has(y, key))
      && (forall key :: Has(x, key) && Has(y, key) ==> Equiv(Get(x, key), Get(y, key)))
    case _ => a == b
  }
}
