/** Texts as sequences of UTF-16 code units, and the order the source's default sort puts them in. */
module CodeUnits {

  type Unit = u: int | 0 <= u < 0x10000

  type Text = seq<Unit>

  /** The order the source sorts texts in: by code units, a prefix first. */
  predicate Less(a: Text, b: Text) {
    |b| > 0 && (|a| == 0 || a[0] < b[0] || (a[0] == b[0] && Less(a[1..], b[1..])))
  }

  /** The texts agree up to k, where the first one ends or has the smaller code unit. */
  predicate DecidedAt(a: Text, b: Text, k: nat) {
    k <= |a| && k < |b| && a[..k] == b[..k] && (k < |a| ==> a[k] < b[k])
  }

  /** The order is decided at the first difference, by code unit; a text comes after its proper prefixes. */
  lemma {:induction false} LessExactlyWhen(a: Text, b: Text)
    ensures Less(a, b) <==> exists k: nat :: DecidedAt(a, b, k)
  {
    if |a| > 0 && |b| > 0 && a[0] == b[0] {
      LessExactlyWhen(a[1..], b[1..]);
      if k: nat :| DecidedAt(a[1..], b[1..], k) {
        assert a[..k + 1] == [a[0]] + a[1..][..k] && b[..k + 1] == [b[0]] + b[1..][..k];
        assert DecidedAt(a, b, k + 1);
      }
      if k: nat :| DecidedAt(a, b, k) {
        assert k > 0 && a[1..][..k - 1] == a[..k][1..] && b[1..][..k - 1] == b[..k][1..];
        assert DecidedAt(a[1..], b[1..], k - 1);
      }
    } else {
      assert Less(a, b) ==> DecidedAt(a, b, 0);
      forall k: nat | DecidedAt(a, b, k) ensures k == 0 {
        SameFirst(a, b, k);
      }
    }
  }

  lemma SameFirst(a: Text, b: Text, k: nat)
    requires DecidedAt(a, b, k)
    ensures k > 0 ==> |a| > 0 && |b| > 0 && a[0] == b[0]
  {
    if k > 0 {
      assert a[..k][0] == b[..k][0];
    }
  }

  lemma {:induction false} LessIrreflexive(a: Text)
    ensures !Less(a, a)
  {
    if |a| > 0 {
      LessIrreflexive(a[1..]);
    }
  }

  lemma {:induction false} LessTransitive(a: Text, b: Text, c: Text)
    requires Less(a, b) && Less(b, c)
    ensures Less(a, c)
  {
    if |a| > 0 && a[0] == b[0] == c[0] {
      LessTransitive(a[1..], b[1..], c[1..]);
    }
  }

  lemma {:induction false} LessTotal(a: Text, b: Text)
    ensures Less(a, b) || a == b || Less(b, a)
  {
    if |a| > 0 && |b| > 0 && a[0] == b[0] {
      LessTotal(a[1..], b[1..]);
      assert a == [a[0]] + a[1..] && b == [b[0]] + b[1..];
    }
  }
}
