/** The number grammar of section 6 of RFC 8259, which every text ECMAScript prints for a finite number follows. */
module JsonNumbers {
  import opened CodeUnits

  predicate Digit(u: Unit) { 48 <= u <= 57 }

  /** Digits, the signs, the point and the exponent letters. */
  predicate NumberUnit(u: Unit) {
    Digit(u) || u == 43 || u == 45 || u == 46 || u == 69 || u == 101
  }

  /** How many digits a text starts with. */
  function DigitRun(t: Text): (n: nat)
    ensures n <= |t| && (forall i :: 0 <= i < n ==> Digit(t[i])) && (n < |t| ==> !Digit(t[n]))
  {
    if |t| == 0 || !Digit(t[0]) then 0 else 1 + DigitRun(t[1..])
  }

  predicate Exponent(t: Text) {
    |t| == 0 ||
    ((t[0] == 69 || t[0] == 101)
     && var digits := if |t| > 1 && (t[1] == 43 || t[1] == 45) then t[2..] else t[1..];
        |digits| > 0 && DigitRun(digits) == |digits|)
  }

  predicate FractionExponent(t: Text) {
    if |t| > 0 && t[0] == 46 then DigitRun(t[1..]) > 0 && Exponent(t[1 + DigitRun(t[1..])..]) else Exponent(t)
  }

  /** A minus sign if any, an integer without a superfluous zero, a fraction and an exponent if any. */
  predicate JsonNumber(t: Text) {
    var digits := if |t| > 0 && t[0] == 45 then t[1..] else t;
    var n := DigitRun(digits);
    n > 0 && (digits[0] == 48 ==> n == 1) && FractionExponent(digits[n..])
  }

  predicate AllNumberUnits(t: Text) { forall i :: 0 <= i < |t| ==> NumberUnit(t[i]) }

  lemma ExponentUnits(t: Text)
    requires Exponent(t)
    ensures AllNumberUnits(t)
  {
    if |t| > 0 {
      var signed := |t| > 1 && (t[1] == 43 || t[1] == 45);
      var digits := if signed then t[2..] else t[1..];
      assert forall i :: 0 <= i < |digits| ==> Digit(digits[i]);
      assert t == (if signed then [t[0], t[1]] else [t[0]]) + digits;
    }
  }

  lemma FractionUnits(t: Text)
    requires FractionExponent(t)
    ensures AllNumberUnits(t)
  {
    hide Exponent;
    if |t| > 0 && t[0] == 46 {
      var n := DigitRun(t[1..]);
      ExponentUnits(t[1 + n..]);
      assert t == [t[0]] + t[1..][..n] + t[1 + n..];
    } else {
      ExponentUnits(t);
    }
  }

  lemma NumberUnits(t: Text)
    requires JsonNumber(t)
    ensures |t| > 0 && AllNumberUnits(t)
  {
    hide FractionExponent;
    var signed := |t| > 0 && t[0] == 45;
    var digits := if signed then t[1..] else t;
    var n := DigitRun(digits);
    FractionUnits(digits[n..]);
    assert digits == digits[..n] + digits[n..];
    assert t == (if signed then [t[0]] else []) + digits;
  }
}
