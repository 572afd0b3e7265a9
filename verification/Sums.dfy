/** Facts about finite sets of naturals and sums over finite maps. */
module Sums {

  predicate IsMin(s: set<nat>, m: nat) {
    m in s && forall k | k in s :: m <= k
  }

  lemma {:induction false} MinExists(s: set<nat>)
    requires s != {}
    ensures exists m :: IsMin(s, m)
  {
    var x :| x in s;
    if s == {x} {
      assert IsMin(s, x);
    } else {
      assert s == (s - {x}) + {x};
      MinExists(s - {x});
      var y :| IsMin(s - {x}, y);
      assert IsMin(s, if x < y then x else y);
    }
  }

  /** Python's `min` of a nonempty collection of keys. */
  function Min(s: set<nat>): (m: nat)
    requires s != {}
    ensures IsMin(s, m)
  {
    MinExists(s);
    var m :| m in s && IsMin(s, m);
    m
  }

  /** Python's `sum` over the values of a dictionary. */
  function Sum(m: map<nat, nat>): nat {
    if m == map[] then 0
    else
      assert m.Keys != {};
      var k := Min(m.Keys);
      m[k] + Sum(m - {k})
  }

  /** The order in which the values are added does not matter. */
  lemma {:induction false} SumRemove(m: map<nat, nat>, k: nat)
    requires k in m
    ensures Sum(m) == m[k] + Sum(m - {k})
    decreases |m|
  {
    assert m.Keys != {};
    var x := Min(m.Keys);
    if k != x {
      SumRemove(m - {x}, k);
      var rest := m - {k};
      assert x in rest;
      assert rest.Keys <= m.Keys;
      assert Min(rest.Keys) == x;
      assert m - {x} - {k} == rest - {x};
    }
  }

  /** Python's `range(n)` as a set. */
  function Below(n: nat): (s: set<nat>)
    ensures forall i: nat :: i in s <==> i < n
  {
    if n == 0 then {} else Below(n - 1) + {n - 1}
  }

  lemma {:induction false} BelowSize(n: nat)
    ensures |Below(n)| == n
  {
    if n > 0 {
      BelowSize(n - 1);
    }
  }

  lemma SubsetOfSameSize<T>(a: set<T>, b: set<T>)
    requires a <= b && |a| >= |b|
    ensures a == b
  {
    assert b == a + (b - a);
    assert |b| == |a| + |b - a|;
  }

  lemma SubsetSize<T>(a: set<T>, b: set<T>)
    requires a <= b
    ensures |a| <= |b|
  {
    assert b == a + (b - a);
  }

  /** Pigeonhole: as many indices below `n` as `n` are all of them. */
  lemma AllIndices(s: set<nat>, n: nat)
    requires |s| == n && forall i | i in s :: i < n
    ensures s == Below(n)
  {
    BelowSize(n);
    SubsetOfSameSize(s, Below(n));
  }

  /** And with fewer, one is missing. */
  lemma FewerIndices(s: set<nat>, n: nat)
    requires forall i | i in s :: i < n
    ensures |s| <= n && (|s| == n <==> s == Below(n))
  {
    BelowSize(n);
    assert s <= Below(n);
    SubsetSize(s, Below(n));
    if |s| == n {
      AllIndices(s, n);
    }
  }
}
