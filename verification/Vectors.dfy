/** Multi-dimensional resource vectors (pkg/resource/resource.go).

    A vector is a finite map from dimension names to integers. In a usage or
    request an absent dimension reads as 0; in a max vector it means "unlimited",
    and that reading is applied by the queue tree, never here. */
module Vectors {

  type Resource = map<string, int>

  /** The reading of a dimension in a usage or request vector. */
  function Get(r: Resource, d: string): int {
    if d in r then r[d] else 0
  }

  /** No dimension is stored with the value zero. */
  ghost predicate Canonical(r: Resource) {
    forall d :: d in r ==> r[d] != 0
  }

  ghost predicate NonNegative(r: Resource) {
    forall d :: d in r ==> r[d] >= 0
  }

  predicate IsEmpty(r: Resource) {
    forall d :: d in r ==> r[d] == 0
  }

  /** At least one dimension is positive and none is negative. */
  predicate StrictlyGtZero(r: Resource) {
    && (forall d :: d in r ==> r[d] >= 0)
    && (exists d :: d in r && r[d] > 0)
  }

  function Prune(r: Resource): Resource {
    map d | d in r && r[d] != 0 :: r[d]
  }

  function Add(a: Resource, b: Resource): (r: Resource)
    ensures Canonical(r)
    ensures forall d :: Get(r, d) == Get(a, d) + Get(b, d)
  {
    Prune(map d | d in a.Keys + b.Keys :: Get(a, d) + Get(b, d))
  }

  function Sub(a: Resource, b: Resource): (r: Resource)
    ensures Canonical(r)
    ensures forall d :: Get(r, d) == Get(a, d) - Get(b, d)
  {
    Prune(map d | d in a.Keys + b.Keys :: Get(a, d) - Get(b, d))
  }

  /** Elementwise maximum; a dimension listed by `a` alone keeps its value, even a
      negative one, and a negative value listed by `b` alone is ignored. */
  function Max(a: Resource, b: Resource): (r: Resource)
    ensures Canonical(r)
    ensures forall d :: Get(r, d) == if d in b && b[d] > Get(a, d) then b[d] else Get(a, d)
  {
    Prune(map d | d in a.Keys + b.Keys :: if d in b && b[d] > Get(a, d) then b[d] else Get(a, d))
  }

  /** The request fits: each dimension it lists is available in that amount. */
  predicate FitIn(request: Resource, available: Resource) {
    forall d :: d in request ==> request[d] <= Get(available, d)
  }

  /** The positive part of a vector (clampNonNeg in the capacity plugin). */
  function ClampNonNeg(r: Resource): (c: Resource)
    ensures forall d :: Get(c, d) == if Get(r, d) > 0 then Get(r, d) else 0
    ensures forall d :: d in c <==> Get(r, d) > 0
  {
    map d | d in r && r[d] > 0 :: r[d]
  }

  /** What a donor can give back without going below its guaranteed share. */
  function Reclaimable(used: Resource, guaranteed: Resource): (r: Resource)
    ensures forall d :: d in r <==> d in used && used[d] > Get(guaranteed, d)
    ensures forall d :: d in r ==> r[d] == Get(used, d) - Get(guaranteed, d)
  {
    map d | d in used && used[d] - Get(guaranteed, d) > 0 :: used[d] - Get(guaranteed, d)
  }

  /** Canonical vectors that read alike are the same map. */
  lemma CanonicalEqual(a: Resource, b: Resource)
    requires Canonical(a) && Canonical(b)
    requires forall d :: Get(a, d) == Get(b, d)
    ensures a == b
  {
    forall d ensures d in a <==> d in b {
      assert Get(a, d) == Get(b, d);
    }
    forall d | d in a ensures a[d] == b[d] {
      assert Get(a, d) == Get(b, d);
    }
  }

  /** Subtracting what was just added restores the vector exactly. */
  lemma SubAdd(a: Resource, b: Resource)
    requires Canonical(a)
    ensures Sub(Add(a, b), b) == a
  {
    CanonicalEqual(Sub(Add(a, b), b), a);
  }

  lemma NonNegativeGet(r: Resource, d: string)
    requires NonNegative(r)
    ensures Get(r, d) >= 0
  {}

  /** Adds (or subtracts) every entry of `a` into `acc`, one dimension at a time. */
  method Accumulate(acc: Resource, a: Resource, sign: int) returns (out: Resource)
    ensures out.Keys == acc.Keys + a.Keys
    ensures forall d :: Get(out, d) == Get(acc, d) + sign * Get(a, d)
  {
    out := acc;
    var todo := a.Keys;
    while todo != {}
      invariant todo <= a.Keys
      invariant out.Keys == acc.Keys + (a.Keys - todo)
      invariant forall d :: Get(out, d) == if d in todo then Get(acc, d) else Get(acc, d) + sign * Get(a, d)
      decreases todo
    {
      var k :| k in todo;
      out := out[k := Get(out, k) + sign * a[k]];
      todo := todo - {k};
    }
  }

  /** Deletes the zero entries one at a time. */
  method PruneLoop(r: Resource) returns (out: Resource)
    ensures out == Prune(r)
  {
    out := r;
    var todo := r.Keys;
    while todo != {}
      invariant todo <= r.Keys
      invariant out == map d | d in r && (d in todo || r[d] != 0) :: r[d]
      decreases todo
    {
      var k :| k in todo;
      if r[k] == 0 {
        out := out - {k};
      }
      todo := todo - {k};
    }
  }

  method AddLoop(a: Resource, b: Resource) returns (out: Resource)
    ensures out == Add(a, b)
  {
    var acc := Accumulate(map[], a, 1);
    acc := Accumulate(acc, b, 1);
    out := PruneLoop(acc);
    CanonicalEqual(out, Add(a, b));
  }

  method SubLoop(a: Resource, b: Resource) returns (out: Resource)
    ensures out == Sub(a, b)
  {
    var acc := Accumulate(map[], a, 1);
    acc := Accumulate(acc, b, -1);
    out := PruneLoop(acc);
    CanonicalEqual(out, Sub(a, b));
  }

  method MaxLoop(a: Resource, b: Resource) returns (out: Resource)
    ensures out == Max(a, b)
  {
    var acc := a;
    var todo := b.Keys;
    while todo != {}
      invariant todo <= b.Keys
      invariant forall d ::
        Get(acc, d) == if d in b && d !in todo && b[d] > Get(a, d) then b[d] else Get(a, d)
      decreases todo
    {
      var k :| k in todo;
      if b[k] > Get(acc, k) {
        acc := acc[k := b[k]];
      }
      todo := todo - {k};
    }
    out := PruneLoop(acc);
    CanonicalEqual(out, Max(a, b));
  }
}
