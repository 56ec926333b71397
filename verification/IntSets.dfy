/** The greatest and least element of a finite set of integers, and the size of an interval. */
module IntSets {

  lemma {:induction false} MaxExists(s: set<int>)
    requires s != {}
    ensures exists m :: m in s && forall k :: k in s ==> k <= m
    decreases |s|
  {
    var x := Pick(s);
    var rest := s - {x};
    if rest == {} {
      assert forall k :: k in s && k != x ==> k in rest;
    } else {
      MaxExists(rest);
      var m :| m in rest && forall k :: k in rest ==> k <= m;
      var top := if m >= x then m else x;
      assert top in s && forall k :: k in s ==> k == x || k in rest;
    }
  }

  lemma {:induction false} MinExists(s: set<int>)
    requires s != {}
    ensures exists m :: m in s && forall k :: k in s ==> m <= k
    decreases |s|
  {
    var x := Pick(s);
    var rest := s - {x};
    if rest == {} {
      assert forall k :: k in s && k != x ==> k in rest;
    } else {
      MinExists(rest);
      var m :| m in rest && forall k :: k in rest ==> m <= k;
      var low := if m <= x then m else x;
      assert low in s && forall k :: k in s ==> k == x || k in rest;
    }
  }

  lemma Pick<T>(s: set<T>) returns (x: T)
    requires s != {}
    ensures x in s
  {
    x :| x in s;
  }

  function MaxOf(s: set<int>): (m: int)
    requires s != {}
    ensures m in s && forall k :: k in s ==> k <= m
  {
    MaxExists(s);
    var m :| m in s && forall k :: k in s ==> k <= m;
    m
  }

  function MinOf(s: set<int>): (m: int)
    requires s != {}
    ensures m in s && forall k :: k in s ==> m <= k
  {
    MinExists(s);
    var m :| m in s && forall k :: k in s ==> m <= k;
    m
  }

  /** The integers from lo up to but not including hi. */
  function Interval(lo: int, hi: int): (s: set<int>)
    ensures forall k :: k in s <==> lo <= k < hi
    ensures |s| == if lo <= hi then hi - lo else 0
    decreases hi - lo
  {
    if lo >= hi then {} else Interval(lo, hi - 1) + {hi - 1}
  }

  lemma {:induction false} SubsetSize<T>(a: set<T>, b: set<T>)
    requires a <= b
    ensures |a| <= |b|
    ensures |a| == |b| ==> a == b
    decreases |a|
  {
    if a == {} {
      assert |b| == 0 ==> b == {};
    } else {
      var x := Pick(a);
      SubsetSize(a - {x}, b - {x});
      assert a == (a - {x}) + {x} && b == (b - {x}) + {x};
    }
  }

  /** Two sets compared by size: one is at least as big exactly when it has as many elements outside the other. */
  lemma SizeByDifference<T>(a: set<T>, b: set<T>)
    ensures |a| >= |b| <==> |a - b| >= |b - a|
  {
    assert a == (a - b) + (a * b) && b == (b - a) + (a * b);
    assert |a| == |a - b| + |a * b| && |b| == |b - a| + |a * b|;
  }
}
