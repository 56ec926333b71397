/**
 * The tracker's fixed-point helpers: bigint numerals with a decimal scale, the products and quotients
 * that truncate toward zero, and the printer and parser between them and decimal strings.
 */
module ScaledDecimal {
  import opened Truncation
  import opened Wrappers

  // ---------------------------------------------------------------- powers of ten

  function Pow10(n: nat): (p: nat)
    ensures p >= 1
  {
    if n == 0 then 1 else 10 * Pow10(n - 1)
  }

  lemma {:induction false} Pow10Add(a: nat, b: nat)
    ensures Pow10(a + b) == Pow10(a) * Pow10(b)
  {
    if a > 0 {
      Pow10Add(a - 1, b);
    }
  }

  lemma Pow10Constants()
    ensures Pow10(6) == 1_000_000 && Pow10(8) == 100_000_000 && Pow10(14) == 100_000_000_000_000
  {
    assert Pow10(3) == 1000;
    Pow10Add(3, 3);
    Pow10Add(6, 2);
    assert Pow10(2) == 100;
    Pow10Add(8, 6);
  }

  // ---------------------------------------------------------------- arithmetic

  function MultiplyScaled(left: int, leftScale: nat, right: int, rightScale: nat, outputScale: nat): int {
    TruncDiv(left * right * Pow10(outputScale), Pow10(leftScale + rightScale))
  }

  function DivideScaled(numerator: int, numeratorScale: nat, denominator: int, denominatorScale: nat, outputScale: nat): int {
    if denominator == 0 then 0
    else
      assert denominator * Pow10(numeratorScale) != 0;
      TruncDiv(numerator * Pow10(denominatorScale + outputScale), denominator * Pow10(numeratorScale))
  }

  /** One share is 10^8 quantity units; prices and amounts carry six decimals. */
  const SHARE: int := 100_000_000

  /** The amount of a fill: quantity (scale 8) times price (scale 6), at scale 6. */
  function AmountOf(quantity: int, price: int): int {
    MultiplyScaled(quantity, 8, price, 6, 6)
  }

  /** The average price of an amount (scale 6) spread over a quantity (scale 8), at scale 6. */
  function AverageOf(amount: int, quantity: int): int {
    DivideScaled(amount, 6, quantity, 8, 6)
  }

  /** Cancelling a common factor does not change a Euclidean quotient. */
  lemma DivCancel(a: nat, b: nat, c: nat)
    requires b > 0 && c > 0
    ensures b * c > 0 && (a * c) / (b * c) == a / b
  {
    var q := a / b;
    var r := a % b;
    assert a == b * q + r;
    assert a * c == (b * c) * q + r * c by {
      assert (b * q + r) * c == b * q * c + r * c;
      assert b * q * c == (b * c) * q;
    }
    assert 0 <= r * c < b * c;
    DivUnique(a * c, b * c, q, r * c);
  }

  /** n scaled by s = e * p and divided by p again is n * e. */
  lemma ScaleUp(n: nat, e: nat, p: nat, s: nat)
    requires p > 0 && s == e * p
    ensures n * s / p == n * e
  {
    assert n * s == p * (n * e) by {
      assert n * (e * p) == p * (n * e);
    }
    DivUnique(n * s, p, n * e, 0);
  }

  /** n = kept * d + rest scaled by s and divided by p = d * s is n without its rest. */
  lemma ScaleDown(n: nat, kept: nat, d: nat, rest: nat, s: nat, p: nat)
    requires d > 0 && s > 0 && p == d * s && n == kept * d + rest && rest < d
    ensures p > 0 && n * s / p == kept
  {
    DivCancel(n, d, s);
    DivUnique(n, d, kept, rest);
  }

  /** Division of nonnegative operands that rounds toward zero rounds down. */
  lemma TruncIsFloor(a: nat, b: nat)
    requires b > 0
    ensures TruncDiv(a, b) >= 0 && TruncDiv(a, b) * b <= a < (TruncDiv(a, b) + 1) * b
  {
    assert a == a / b * b + a % b;
  }

  /** At any scales the product of nonnegative operands is their exact product at the output scale, rounded down. */
  lemma MultiplyIsFloor(left: nat, leftScale: nat, right: nat, rightScale: nat, outputScale: nat)
    ensures var r := MultiplyScaled(left, leftScale, right, rightScale, outputScale);
            var unit := Pow10(leftScale) * Pow10(rightScale);
            r >= 0 && r * unit <= left * right * Pow10(outputScale) < (r + 1) * unit
  {
    hide TruncDiv;
    Pow10Add(leftScale, rightScale);
    NatProduct(left, right);
    NatProduct(left * right, Pow10(outputScale));
    TruncIsFloor(left * right * Pow10(outputScale), Pow10(leftScale + rightScale));
  }

  lemma NatProduct(a: nat, b: nat)
    ensures a * b >= 0
  {
  }

  /** At any scales the quotient of nonnegative operands is the exact quotient at the output scale, rounded down. */
  lemma DivideIsFloor(numerator: nat, numeratorScale: nat, denominator: nat, denominatorScale: nat, outputScale: nat)
    requires denominator > 0
    ensures var r := DivideScaled(numerator, numeratorScale, denominator, denominatorScale, outputScale);
            var unit := denominator * Pow10(numeratorScale);
            r >= 0 && r * unit <= numerator * (Pow10(denominatorScale) * Pow10(outputScale)) < (r + 1) * unit
  {
    hide TruncDiv;
    Pow10Add(denominatorScale, outputScale);
    NatProduct(numerator, Pow10(denominatorScale + outputScale));
    NatProduct(denominator - 1, Pow10(numeratorScale));
    assert denominator * Pow10(numeratorScale) == (denominator - 1) * Pow10(numeratorScale) + Pow10(numeratorScale);
    TruncIsFloor(numerator * Pow10(denominatorScale + outputScale), denominator * Pow10(numeratorScale));
  }

  /** For nonnegative operands the amount is the product rounded down: it loses less than one unit. */
  lemma AmountIsFloor(quantity: int, price: int)
    requires quantity >= 0 && price >= 0
    ensures AmountOf(quantity, price) >= 0
    ensures AmountOf(quantity, price) * SHARE <= quantity * price < (AmountOf(quantity, price) + 1) * SHARE
  {
    Pow10Constants();
    var x := quantity * price;
    assert x >= 0;
    DivCancel(x, SHARE, 1_000_000);
    assert AmountOf(quantity, price) == (x * 1_000_000) / 100_000_000_000_000 == x / SHARE;
  }

  /** For nonnegative operands and a positive quantity the average is the exact quotient rounded down. */
  lemma AverageIsFloor(amount: int, quantity: int)
    requires amount >= 0 && quantity > 0
    ensures AverageOf(amount, quantity) >= 0
    ensures AverageOf(amount, quantity) * quantity <= amount * SHARE < (AverageOf(amount, quantity) + 1) * quantity
  {
    Pow10Constants();
    var top := amount * SHARE;
    DivCancel(top, quantity, 1_000_000);
    assert top * 1_000_000 == amount * 100_000_000_000_000;
    var q := top / quantity;
    assert AverageOf(amount, quantity) == q;
    assert top == quantity * q + top % quantity;
    assert (q + 1) * quantity == quantity * q + quantity;
  }

  // ---------------------------------------------------------------- digit strings

  predicate IsDigit(c: char) { '0' <= c <= '9' }

  predicate AllDigits(s: string) { forall i :: 0 <= i < |s| ==> IsDigit(s[i]) }

  function DigitValue(c: char): (d: nat)
    requires IsDigit(c)
    ensures d < 10
  {
    (c as int) - ('0' as int)
  }

  function DigitChar(d: nat): (c: char)
    requires d < 10
    ensures IsDigit(c) && DigitValue(c) == d
  {
    (d + ('0' as int)) as char
  }

  /** The number a digit string denotes; the empty string denotes zero. */
  function DigitsValue(s: string): nat
    requires AllDigits(s)
  {
    if s == "" then 0 else DigitsValue(s[..|s| - 1]) * 10 + DigitValue(s[|s| - 1])
  }

  function NatToString(n: nat): (s: string)
    ensures AllDigits(s) && s != ""
  {
    if n < 10 then [DigitChar(n)] else NatToString(n / 10) + [DigitChar(n % 10)]
  }

  function Zeros(n: nat): (s: string)
    ensures |s| == n && AllDigits(s) && forall i :: 0 <= i < n ==> s[i] == '0'
  {
    if n == 0 then "" else Zeros(n - 1) + "0"
  }

  function PadEnd(s: string, width: nat): (r: string)
    ensures |r| >= width && |r| >= |s| && r[..|s|] == s
  {
    if |s| >= width then s else s + Zeros(width - |s|)
  }

  function PadStart(s: string, width: nat): (r: string)
    ensures AllDigits(s) ==> AllDigits(r)
    ensures |r| == if |s| >= width then |s| else width
  {
    if |s| >= width then s else Zeros(width - |s|) + s
  }

  function StripTrailingZeros(s: string): (r: string)
    ensures r <= s
    ensures AllDigits(s) ==> AllDigits(r)
    ensures r != "" ==> r[|r| - 1] != '0'
  {
    if s != "" && s[|s| - 1] == '0' then StripTrailingZeros(s[..|s| - 1]) else s
  }

  lemma {:induction false} DigitsConcat(a: string, b: string)
    requires AllDigits(a) && AllDigits(b)
    ensures AllDigits(a + b)
    ensures DigitsValue(a + b) == DigitsValue(a) * Pow10(|b|) + DigitsValue(b)
  {
    if b == "" {
      assert a + b == a;
    } else {
      var init := b[..|b| - 1];
      var last := b[|b| - 1];
      DigitsConcat(a, init);
      assert (a + b)[..|a + b| - 1] == a + init;
      assert (a + b)[|a + b| - 1] == last;
      AppendDigit(DigitsValue(a), Pow10(|init|), DigitsValue(init), DigitValue(last));
    }
  }

  lemma AppendDigit(a: nat, p: nat, b: nat, d: nat)
    ensures (a * p + b) * 10 + d == a * (10 * p) + (b * 10 + d)
  {
  }

  lemma {:induction false} DigitsBound(s: string)
    requires AllDigits(s)
    ensures DigitsValue(s) < Pow10(|s|)
  {
    if s != "" {
      DigitsBound(s[..|s| - 1]);
    }
  }

  lemma {:induction false} ZerosValue(n: nat)
    ensures DigitsValue(Zeros(n)) == 0
  {
    if n > 0 {
      ZerosValue(n - 1);
      assert Zeros(n)[..n - 1] == Zeros(n - 1);
    }
  }

  lemma {:induction false} NatToStringValue(n: nat)
    ensures DigitsValue(NatToString(n)) == n
    ensures NatToString(n)[0] == '0' <==> n == 0
    ensures n == 0 ==> NatToString(n) == "0"
  {
    var s := NatToString(n);
    if n >= 10 {
      NatToStringValue(n / 10);
      assert s[..|s| - 1] == NatToString(n / 10);
    } else {
      assert s[..0] == "";
      assert n == DigitValue(s[0]);
    }
  }

  lemma {:induction false} NatToStringLength(n: nat, width: nat)
    requires width > 0 && n < Pow10(width)
    ensures |NatToString(n)| <= width
  {
    if n >= 10 {
      assert width != 1 by { assert Pow10(1) == 10; }
      NatToStringLength(n / 10, width - 1);
    }
  }

  /** A digit string of a given length is determined by its value. */
  lemma {:induction false} SameLengthSameValue(a: string, b: string)
    requires AllDigits(a) && AllDigits(b) && |a| == |b| && DigitsValue(a) == DigitsValue(b)
    ensures a == b
  {
    if a != "" {
      var n := |a| - 1;
      assert DigitValue(a[n]) == DigitValue(b[n]) && DigitsValue(a[..n]) == DigitsValue(b[..n]);
      SameLengthSameValue(a[..n], b[..n]);
      assert a == a[..n] + [a[n]] && b == b[..n] + [b[n]];
    }
  }

  /** A digit string without superfluous leading zeros is what the printer prints for its value. */
  lemma {:induction false} CanonicalWhole(s: string)
    requires AllDigits(s) && s != "" && (s[0] == '0' ==> s == "0")
    ensures NatToString(DigitsValue(s)) == s
    ensures DigitsValue(s) == 0 ==> s == "0"
  {
    var n := |s| - 1;
    if n == 0 {
      assert s[..0] == "";
      assert s == [s[0]];
    } else {
      CanonicalWhole(s[..n]);
      assert s[..n] != "0";
      assert DigitsValue(s) / 10 == DigitsValue(s[..n]) && DigitsValue(s) % 10 == DigitValue(s[n]);
      assert s == s[..n] + [s[n]];
    }
  }

  // ---------------------------------------------------------------- parsing and printing

  /** The white space and line terminators that ECMAScript trims. */
  predicate IsSpace(c: char) {
    var u := c as int;
    9 <= u <= 13 || u == 32 || u == 160 || u == 5760 || 8192 <= u <= 8202
    || u == 8232 || u == 8233 || u == 8239 || u == 8287 || u == 12288 || u == 65279
  }

  function TrimStart(s: string): string {
    if s != "" && IsSpace(s[0]) then TrimStart(s[1..]) else s
  }

  function TrimEnd(s: string): string {
    if s != "" && IsSpace(s[|s| - 1]) then TrimEnd(s[..|s| - 1]) else s
  }

  function Trim(s: string): string { TrimEnd(TrimStart(s)) }

  function IndexOfDot(s: string): (i: nat)
    ensures i <= |s|
    ensures i < |s| ==> s[i] == '.'
    ensures forall k :: 0 <= k < i ==> s[k] != '.'
  {
    if s == "" || s[0] == '.' then 0 else 1 + IndexOfDot(s[1..])
  }

  /** The first two components of a split on dots; anything after a second dot is ignored. */
  function WholePart(s: string): string { s[..IndexOfDot(s)] }

  function FractionPart(s: string): string {
    var i := IndexOfDot(s);
    if i == |s| then "" else WholePart(s[i + 1..])
  }

  function Signed(negative: bool, magnitude: int): int { if negative then -magnitude else magnitude }

  /**
   * Parses a decimal string at a scale, dropping the digits beyond it. None stands for the text that
   * is not a plain numeral (a letter, an exponent, an inner sign).
   */
  function DecimalToScaled(value: string, scale: nat): Option<int> {
    var raw := Trim(value);
    if raw == "" then Some(0)
    else
      var negative := raw[0] == '-';
      var unsigned := if negative then raw[1..] else raw;
      var whole := WholePart(unsigned);
      var scaled := (if whole == "" then "0" else whole) + PadEnd(FractionPart(unsigned), scale)[..scale];
      if AllDigits(scaled) then Some(Signed(negative, DigitsValue(scaled))) else None
  }

  /** A numeral given by its parts. */
  function Render(negative: bool, whole: string, fraction: string): string {
    (if negative then "-" else "") + whole + (if fraction == "" then "" else "." + fraction)
  }

  function Quotient(a: nat, b: nat): nat
    requires b > 0
  {
    a / b
  }

  function Remainder(a: nat, b: nat): (r: nat)
    requires b > 0
    ensures r < b
  {
    a % b
  }

  lemma QuotientRemainder(a: nat, b: nat)
    requires b > 0
    ensures a == b * Quotient(a, b) + Remainder(a, b)
  {
  }

  function WholeDigits(value: int, scale: nat): (s: string)
    ensures AllDigits(s)
  {
    NatToString(Quotient(Abs(value), Pow10(scale)))
  }

  function FractionDigits(value: int, scale: nat): (s: string)
    ensures AllDigits(s)
  {
    StripTrailingZeros(PadStart(NatToString(Remainder(Abs(value), Pow10(scale))), scale))
  }

  function ScaledToDecimal(value: int, scale: nat): string {
    Render(value < 0, WholeDigits(value, scale), FractionDigits(value, scale))
  }

  /** The one spelling of a number with at most `scale` decimals: no superfluous zero, no negative zero. */
  predicate Canonical(negative: bool, whole: string, fraction: string, scale: nat) {
    && AllDigits(whole) && AllDigits(fraction)
    && whole != "" && (whole[0] == '0' ==> whole == "0")
    && |fraction| <= scale && (fraction != "" ==> fraction[|fraction| - 1] != '0')
    && (negative ==> whole != "0" || fraction != "")
  }

  lemma TrimKeeps(s: string)
    requires s != "" ==> !IsSpace(s[0]) && !IsSpace(s[|s| - 1])
    ensures Trim(s) == s
  {
  }

  lemma {:induction false} IndexOfDotAt(head: string, tail: string)
    requires AllDigits(head) && (tail == "" || tail[0] == '.')
    ensures IndexOfDot(head + tail) == |head|
  {
    if head == "" {
      assert head + tail == tail;
    } else {
      assert IsDigit(head[0]) && (head + tail)[0] == head[0];
      assert (head + tail)[1..] == head[1..] + tail;
      IndexOfDotAt(head[1..], tail);
    }
  }

  lemma RenderSplits(whole: string, fraction: string)
    requires AllDigits(whole) && AllDigits(fraction)
    ensures WholePart(Render(false, whole, fraction)) == whole
    ensures FractionPart(Render(false, whole, fraction)) == fraction
  {
    var body := Render(false, whole, fraction);
    var tail := if fraction == "" then "" else "." + fraction;
    assert body == whole + tail;
    IndexOfDotAt(whole, tail);
    if fraction != "" {
      assert body[|whole| + 1..] == fraction;
      IndexOfDotAt(fraction, "");
      assert fraction + "" == fraction;
    }
  }

  lemma RenderTrimmed(negative: bool, whole: string, fraction: string)
    requires AllDigits(whole) && AllDigits(fraction)
    ensures Trim(Render(negative, whole, fraction)) == Render(negative, whole, fraction)
    ensures Render(negative, whole, fraction) != "" ==> (Render(negative, whole, fraction)[0] == '-') == negative
    ensures negative ==> Render(negative, whole, fraction)[1..] == Render(false, whole, fraction)
  {
    var s := Render(negative, whole, fraction);
    forall i | 0 <= i < |s|
      ensures s[i] == '-' || s[i] == '.' || IsDigit(s[i])
      ensures s[i] == '-' ==> negative
    {
      var sign := if negative then 1 else 0;
      if sign <= i < sign + |whole| {
        assert s[i] == whole[i - sign];
      } else if i > sign + |whole| {
        assert s[i] == fraction[i - sign - |whole| - 1];
      }
    }
    TrimKeeps(s);
  }

  /**
   * What parsing a numeral means: the exact value scaled up, truncated toward zero. The value of
   * `whole.fraction` is DigitsValue(whole + fraction) / 10^|fraction|.
   */
  lemma ParseTruncates(negative: bool, whole: string, fraction: string, scale: nat)
    requires AllDigits(whole) && AllDigits(fraction)
    ensures AllDigits(whole + fraction)
    ensures DecimalToScaled(Render(negative, whole, fraction), scale)
         == Some(Signed(negative, DigitsValue(whole + fraction) * Pow10(scale) / Pow10(|fraction|)))
  {
    var raw := Render(negative, whole, fraction);
    RenderTrimmed(negative, whole, fraction);
    RenderSplits(whole, fraction);
    KeptDigits(whole, fraction, scale);
    if raw == "" {
      EmptyNumeral(whole, fraction, scale);
    } else {
      LeadingZero(whole, PadEnd(fraction, scale)[..scale]);
    }
  }

  lemma EmptyNumeral(whole: string, fraction: string, scale: nat)
    requires whole == "" && fraction == ""
    ensures DigitsValue(whole + fraction) * Pow10(scale) / Pow10(|fraction|) == 0
  {
    assert whole + fraction == "";
    assert DigitsValue("") == 0;
  }

  lemma LeadingZero(whole: string, tail: string)
    requires AllDigits(whole + tail)
    ensures var padded := (if whole == "" then "0" else whole) + tail;
            AllDigits(padded) && DigitsValue(padded) == DigitsValue(whole + tail)
  {
    if whole == "" {
      assert AllDigits(tail) by {
        assert whole + tail == tail;
      }
      assert "0"[..0] == "";
      assert DigitsValue("0") == 0;
      DigitsConcat("0", tail);
      assert whole + tail == tail;
    }
  }

  /** Padding or cutting the fraction to `scale` digits multiplies by 10^scale and rounds down. */
  lemma KeptDigits(whole: string, fraction: string, scale: nat)
    requires AllDigits(whole) && AllDigits(fraction)
    ensures var tail := PadEnd(fraction, scale)[..scale];
            && AllDigits(whole + tail) && AllDigits(whole + fraction)
            && DigitsValue(whole + tail) == DigitsValue(whole + fraction) * Pow10(scale) / Pow10(|fraction|)
  {
    if |fraction| <= scale {
      KeptPadded(whole, fraction, scale - |fraction|);
      assert PadEnd(fraction, scale)[..scale] == fraction + Zeros(scale - |fraction|);
    } else {
      KeptCut(whole, fraction[..scale], fraction[scale..]);
      assert fraction[..scale] + fraction[scale..] == fraction;
    }
  }

  lemma KeptPadded(whole: string, fraction: string, extra: nat)
    requires AllDigits(whole) && AllDigits(fraction)
    ensures AllDigits(whole + (fraction + Zeros(extra))) && AllDigits(whole + fraction)
    ensures DigitsValue(whole + (fraction + Zeros(extra)))
         == DigitsValue(whole + fraction) * Pow10(|fraction| + extra) / Pow10(|fraction|)
  {
    var n := whole + fraction;
    ZerosValue(extra);
    assert whole + (fraction + Zeros(extra)) == n + Zeros(extra);
    DigitsConcat(n, Zeros(extra));
    Pow10Add(extra, |fraction|);
    ScaleUp(DigitsValue(n), Pow10(extra), Pow10(|fraction|), Pow10(extra + |fraction|));
  }

  lemma KeptCut(whole: string, kept: string, dropped: string)
    requires AllDigits(whole) && AllDigits(kept) && AllDigits(dropped)
    ensures AllDigits(whole + kept) && AllDigits(whole + (kept + dropped))
    ensures DigitsValue(whole + kept)
         == DigitsValue(whole + (kept + dropped)) * Pow10(|kept|) / Pow10(|kept + dropped|)
  {
    var n := whole + kept;
    assert whole + (kept + dropped) == n + dropped;
    DigitsConcat(n, dropped);
    DigitsBound(dropped);
    Pow10Add(|dropped|, |kept|);
    ScaleDown(DigitsValue(n + dropped), DigitsValue(n), Pow10(|dropped|), DigitsValue(dropped),
      Pow10(|kept|), Pow10(|kept + dropped|));
  }

  lemma {:induction false} StripValue(s: string)
    requires AllDigits(s)
    ensures DigitsValue(StripTrailingZeros(s)) * Pow10(|s| - |StripTrailingZeros(s)|) == DigitsValue(s)
  {
    if s != "" && s[|s| - 1] == '0' {
      var init := s[..|s| - 1];
      StripValue(init);
      var kept := StripTrailingZeros(init);
      var e := |init| - |kept|;
      assert Pow10(e + 1) == 10 * Pow10(e) && DigitsValue(s) == DigitsValue(init) * 10;
      AppendDigit(DigitsValue(kept), Pow10(e), 0, 0);
    }
  }

  /** The digits of a remainder below 10^scale, padded to `scale` digits (none for scale 0). */
  lemma PaddedValue(rest: nat, scale: nat)
    requires scale > 0 && rest < Pow10(scale)
    ensures var padded := PadStart(NatToString(rest), scale);
            |padded| == scale && DigitsValue(padded) == rest
  {
    hide Pow10, DigitsValue, NatToString, Zeros;
    NatToStringValue(rest);
    NatToStringLength(rest, scale);
    var digits := NatToString(rest);
    if |digits| < scale {
      ZerosValue(scale - |digits|);
      DigitsConcat(Zeros(scale - |digits|), digits);
    }
  }

  lemma NoFraction()
    ensures StripTrailingZeros(PadStart(NatToString(0), 0)) == ""
    ensures DigitsValue("") == 0
  {
    assert NatToString(0) == "0";
    assert "0"[..0] == "";
    assert StripTrailingZeros("0") == StripTrailingZeros("");
  }

  /** The printed fraction, filled up with zeros, is the remainder below 10^scale. */
  lemma FractionValue(value: int, scale: nat)
    ensures var f := FractionDigits(value, scale);
            |f| <= scale && DigitsValue(f) * Pow10(scale - |f|) == Remainder(Abs(value), Pow10(scale))
  {
    hide Remainder, DigitsValue, StripTrailingZeros, PadStart, NatToString;
    var rest := Remainder(Abs(value), Pow10(scale));
    if scale == 0 {
      NoFraction();
      assert rest == 0 by { assert Pow10(0) == 1; }
    } else {
      PaddedValue(rest, scale);
      StripValue(PadStart(NatToString(rest), scale));
    }
  }

  /** Printing gives the canonical spelling. */
  lemma PrintIsCanonical(value: int, scale: nat)
    ensures Canonical(value < 0, WholeDigits(value, scale), FractionDigits(value, scale), scale)
  {
    hide Pow10, StripTrailingZeros, PadStart, Quotient, Remainder;
    FractionValue(value, scale);
    var whole := Quotient(Abs(value), Pow10(scale));
    NatToStringValue(whole);
    if value < 0 && whole == 0 {
      QuotientRemainder(Abs(value), Pow10(scale));
      assert FractionDigits(value, scale) != "";
    } else if value < 0 {
      assert DigitsValue("0") == 0 by { assert "0"[..0] == ""; }
    }
  }

  /** The digits of a printed number, read as one number, are the value up to the stripped zeros. */
  lemma PrintedDigits(value: int, scale: nat)
    ensures var f := FractionDigits(value, scale);
            && |f| <= scale && AllDigits(WholeDigits(value, scale) + f)
            && DigitsValue(WholeDigits(value, scale) + f) * Pow10(scale - |f|) == Abs(value)
  {
    hide Pow10, DigitsValue, Quotient, Remainder;
    var f := FractionDigits(value, scale);
    FractionValue(value, scale);
    var w := Quotient(Abs(value), Pow10(scale));
    NatToStringValue(w);
    QuotientRemainder(Abs(value), Pow10(scale));
    DigitsConcat(WholeDigits(value, scale), f);
    Pow10Add(scale - |f|, |f|);
    JoinScaled(w, Pow10(|f|), DigitsValue(f), Pow10(scale - |f|), Pow10(scale));
  }

  lemma JoinScaled(w: nat, p: nat, f: nat, e: nat, s: nat)
    requires s == e * p
    ensures (w * p + f) * e == s * w + f * e
  {
    assert (w * p + f) * e == w * p * e + f * e;
    assert w * p * e == (e * p) * w;
  }

  /** Parsing undoes printing, for every integer and every scale. */
  lemma ParseUndoesPrint(value: int, scale: nat)
    ensures DecimalToScaled(ScaledToDecimal(value, scale), scale) == Some(value)
  {
    hide Pow10, DecimalToScaled, DigitsValue, WholeDigits, FractionDigits;
    var whole := WholeDigits(value, scale);
    var fraction := FractionDigits(value, scale);
    ParseTruncates(value < 0, whole, fraction, scale);
    PrintedDigits(value, scale);
    var e := scale - |fraction|;
    Pow10Add(e, |fraction|);
    ScaleUp(DigitsValue(whole + fraction), Pow10(e), Pow10(|fraction|), Pow10(scale));
  }

  /** Printing undoes parsing exactly on the canonical spellings with at most `scale` decimals. */
  lemma PrintUndoesParse(negative: bool, whole: string, fraction: string, scale: nat)
    requires Canonical(negative, whole, fraction, scale)
    ensures DecimalToScaled(Render(negative, whole, fraction), scale).Some?
    ensures ScaledToDecimal(DecimalToScaled(Render(negative, whole, fraction), scale).value, scale)
         == Render(negative, whole, fraction)
  {
    hide Pow10, DecimalToScaled, DigitsValue, WholeDigits, FractionDigits;
    ParseTruncates(negative, whole, fraction, scale);
    var e := scale - |fraction|;
    Pow10Add(e, |fraction|);
    var n := DigitsValue(whole + fraction);
    ScaleUp(n, Pow10(e), Pow10(|fraction|), Pow10(scale));
    var unsigned := n * Pow10(e);
    ParsedParts(negative, whole, fraction, scale);
    if negative {
      NonzeroNumeral(whole, fraction, e);
    }
  }

  /** The quotient and remainder by 10^scale of a canonical numeral are its two parts again. */
  lemma ParsedParts(negative: bool, whole: string, fraction: string, scale: nat)
    requires Canonical(negative, whole, fraction, scale)
    ensures AllDigits(whole + fraction)
    ensures var value := Signed(negative, DigitsValue(whole + fraction) * Pow10(scale - |fraction|));
            WholeDigits(value, scale) == whole && FractionDigits(value, scale) == fraction
  {
    hide Pow10, DigitsValue, NatToString, Zeros, StripTrailingZeros, PadStart;
    var e := scale - |fraction|;
    var padded := fraction + Zeros(e);
    DigitsConcat(whole, fraction);
    ZerosValue(e);
    DigitsConcat(fraction, Zeros(e));
    DigitsBound(padded);
    Pow10Add(e, |fraction|);
    var unsigned := DigitsValue(whole + fraction) * Pow10(e);
    JoinScaled(DigitsValue(whole), Pow10(|fraction|), DigitsValue(fraction), Pow10(e), Pow10(scale));
    DivUnique(unsigned, Pow10(scale), DigitsValue(whole), DigitsValue(padded));
    CanonicalWhole(whole);
    PaddedRemainder(fraction, scale);
  }

  lemma {:induction false} StripPadded(s: string, n: nat)
    requires s != "" ==> s[|s| - 1] != '0'
    ensures StripTrailingZeros(s + Zeros(n)) == s
  {
    if n == 0 {
      assert s + Zeros(0) == s;
    } else {
      StripPadded(s, n - 1);
      assert (s + Zeros(n))[..|s| + n - 1] == s + Zeros(n - 1);
    }
  }

  lemma PaddedRemainder(fraction: string, scale: nat)
    requires AllDigits(fraction) && |fraction| <= scale && (fraction != "" ==> fraction[|fraction| - 1] != '0')
    ensures var padded := fraction + Zeros(scale - |fraction|);
            AllDigits(padded) && StripTrailingZeros(PadStart(NatToString(DigitsValue(padded)), scale)) == fraction
  {
    hide NatToString, StripTrailingZeros, PadStart, Pow10;
    var padded := fraction + Zeros(scale - |fraction|);
    if scale == 0 {
      NoFraction();
      assert padded == "";
    } else {
      DigitsBound(padded);
      PaddedValue(DigitsValue(padded), scale);
      SameLengthSameValue(PadStart(NatToString(DigitsValue(padded)), scale), padded);
      StripPadded(fraction, scale - |fraction|);
    }
  }

  lemma NonzeroNumeral(whole: string, fraction: string, extra: nat)
    requires AllDigits(whole) && AllDigits(fraction) && whole != "" && (whole[0] == '0' ==> whole == "0")
    requires fraction != "" ==> fraction[|fraction| - 1] != '0'
    requires whole != "0" || fraction != ""
    ensures AllDigits(whole + fraction) && DigitsValue(whole + fraction) * Pow10(extra) > 0
  {
    hide Pow10, NatToString, DigitsValue;
    DigitsConcat(whole, fraction);
    CanonicalWhole(whole);
    if fraction != "" {
      LastDigitCounts(fraction);
    }
    PositiveProduct(DigitsValue(whole), Pow10(|fraction|), DigitsValue(fraction), Pow10(extra));
  }

  lemma LastDigitCounts(s: string)
    requires AllDigits(s) && s != "" && s[|s| - 1] != '0'
    ensures DigitsValue(s) > 0
  {
    assert IsDigit(s[|s| - 1]);
  }

  lemma PositiveProduct(w: nat, p: nat, f: nat, e: nat)
    requires p > 0 && e > 0 && w + f > 0
    ensures (w * p + f) * e > 0
  {
    assert w * p >= w;
  }
}
