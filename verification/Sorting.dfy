/** Sorting by a strict weak order. Callers rely only on the contract, so it stands for
    any sort, stable or not. */
module Sorting {

  ghost predicate StrictWeak<T(!new)>(before: (T, T) -> bool) {
    && (forall a, b :: before(a, b) ==> !before(b, a))
    && forall a, b, c :: !before(a, b) && !before(b, c) ==> !before(a, c)
  }

  /** No later element goes before an earlier one. */
  ghost predicate InOrder<T>(s: seq<T>, before: (T, T) -> bool) {
    forall i, j :: 0 <= i < j < |s| ==> !before(s[j], s[i])
  }

  lemma InsertInOrder<T(!new)>(s: seq<T>, k: nat, x: T, before: (T, T) -> bool)
    requires StrictWeak(before) && InOrder(s, before) && k <= |s|
    requires k > 0 ==> !before(x, s[k - 1])
    requires forall j :: k <= j < |s| ==> before(x, s[j])
    ensures InOrder(s[..k] + [x] + s[k..], before)
  {
    var r := s[..k] + [x] + s[k..];
    forall i, j | 0 <= i < j < |r| ensures !before(r[j], r[i]) {
      assert i < k ==> r[i] == s[i];
      assert j > k ==> r[j] == s[j - 1];
      assert i > k ==> r[i] == s[i - 1];
      assert i < k - 1 ==> !before(s[k - 1], s[i]);
    }
  }

  method Insert<T(!new)>(s: seq<T>, x: T, before: (T, T) -> bool) returns (r: seq<T>)
    requires StrictWeak(before) && InOrder(s, before)
    ensures InOrder(r, before) && multiset(r) == multiset(s) + multiset{x}
  {
    var k := |s|;
    while k > 0 && before(x, s[k - 1])
      invariant 0 <= k <= |s|
      invariant forall j :: k <= j < |s| ==> before(x, s[j])
    {
      k := k - 1;
    }
    InsertInOrder(s, k, x, before);
    assert s == s[..k] + s[k..];
    r := s[..k] + [x] + s[k..];
  }

  method Sort<T(!new)>(s: seq<T>, before: (T, T) -> bool) returns (r: seq<T>)
    requires StrictWeak(before)
    ensures InOrder(r, before) && multiset(r) == multiset(s)
  {
    r := [];
    for i := 0 to |s|
      invariant InOrder(r, before) && multiset(r) == multiset(s[..i])
    {
      assert s[..i + 1] == s[..i] + [s[i]];
      r := Insert(r, s[i], before);
    }
    assert s[..|s|] == s;
  }

  /** Equal entries at two positions count twice. */
  lemma CountedTwice<T>(s: seq<T>, i: nat, j: nat)
    requires i < j < |s| && s[i] == s[j]
    ensures multiset(s)[s[i]] >= 2
  {
    assert s == s[..i] + [s[i]] + s[i + 1..];
    assert s[j] in s[i + 1..];
  }

  /** Something counted twice stands at two positions. */
  lemma TwoPositions<T>(s: seq<T>, x: T) returns (i: nat, j: nat)
    requires multiset(s)[x] >= 2
    ensures i < j < |s| && s[i] == s[j] == x
  {
    assert x in multiset(s);
    i :| 0 <= i < |s| && s[i] == x;
    assert s == s[..i] + [x] + s[i + 1..];
    if x in s[i + 1..] {
      j :| i < j < |s| && s[j] == x;
    } else {
      assert x in multiset(s[..i]);
      j := i;
      i :| 0 <= i < j && s[i] == x;
    }
  }
}
