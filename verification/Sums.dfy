/** Sums over finite maps and finite bags, independent of any walking order. */
module Sums {

  ghost function Sum<K>(m: map<K, int>): int {
    if m == map[] then 0 else
      var k :| k in m;
      m[k] + Sum(m - {k})
  }

  lemma {:induction false} SumRemove<K>(m: map<K, int>, k: K)
    requires k in m
    ensures Sum(m) == m[k] + Sum(m - {k})
    decreases |m|
  {
    var c :| c in m && Sum(m) == m[c] + Sum(m - {c});
    if c != k {
      SumRemove(m - {c}, k);
      SumRemove(m - {k}, c);
      assert m - {c} - {k} == m - {k} - {c};
    }
  }

  lemma SumUpdate<K>(m: map<K, int>, k: K, v: int)
    ensures Sum(m[k := v]) == Sum(m) - (if k in m then m[k] else 0) + v
  {
    var u := m[k := v];
    SumRemove(u, k);
    assert u - {k} == m - {k};
    if k in m {
      SumRemove(m, k);
    } else {
      assert m - {k} == m;
    }
  }

  lemma {:induction false} SumNonNegative<K>(m: map<K, int>)
    requires forall k :: k in m ==> m[k] >= 0
    ensures Sum(m) >= 0
    ensures forall k :: k in m ==> m[k] <= Sum(m)
    ensures Sum(m) == 0 ==> forall k :: k in m ==> m[k] == 0
    decreases |m|
  {
    forall k | k in m ensures Sum(m) >= m[k] {
      SumRemove(m, k);
      SumNonNegative(m - {k});
    }
    if m != map[] {
      var k :| k in m;
      assert Sum(m) >= m[k];
    }
  }

  /** A smaller map of smaller non-negative values has the smaller sum. */
  lemma {:induction false} SumMonotone<K>(a: map<K, int>, b: map<K, int>)
    requires forall k :: k in a ==> k in b && a[k] <= b[k]
    requires forall k :: k in b && k !in a ==> b[k] >= 0
    ensures Sum(a) <= Sum(b)
    decreases |b|
  {
    if b == map[] {
      assert a == map[];
    } else {
      var k :| k in b;
      SumRemove(b, k);
      if k in a {
        SumRemove(a, k);
        SumMonotone(a - {k}, b - {k});
      } else {
        assert a - {k} == a;
        SumMonotone(a, b - {k});
      }
    }
  }

  /** Entries that are zero do not count. */
  lemma {:induction false} SumSupport<K>(a: map<K, int>, b: map<K, int>)
    requires forall k :: k in a ==> k in b && a[k] == b[k]
    requires forall k :: k in b && k !in a ==> b[k] == 0
    ensures Sum(a) == Sum(b)
    decreases |b|
  {
    if b == map[] {
      assert a == map[];
    } else {
      var k :| k in b;
      SumRemove(b, k);
      if k in a {
        SumRemove(a, k);
        SumSupport(a - {k}, b - {k});
      } else {
        assert a - {k} == a;
        SumSupport(a, b - {k});
      }
    }
  }

  /** A sequence as a map from its positions. */
  ghost function Positions(x: seq<int>): map<nat, int> {
    map i: nat | i < |x| :: x[i]
  }

  /** The sum of a sequence, over its positions. */
  ghost function SeqSum(x: seq<int>): int {
    Sum<nat>(Positions(x))
  }

  lemma SeqSumSnoc(x: seq<int>, v: int)
    ensures SeqSum(x + [v]) == SeqSum(x) + v
  {
    SumRemove<nat>(Positions(x + [v]), |x|);
    assert Positions(x + [v]) - {|x|} == Positions(x);
  }
}
