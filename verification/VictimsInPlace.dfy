/** SelectVictims as the source runs it: loops over slices, with the trim removing
    elements from the slice it is walking backward over. */
module VictimsInPlace {
  import opened Vectors
  import opened Sums
  import opened Paths
  import opened Victims

  method ContributionLoop(need: Resource, req: Resource) returns (c: int)
    ensures c == Contribution(need, req)
  {
    c := 0;
    var todo := need.Keys;
    while todo != {}
      invariant todo <= need.Keys
      invariant c == Sum(map d | d in need && d !in todo :: Get(req, d))
      decreases todo
    {
      var k :| k in todo;
      ghost var done := map d | d in need && d !in todo :: Get(req, d);
      SumUpdate(done, k, Get(req, k));
      c := c + Get(req, k);
      todo := todo - {k};
      assert done[k := Get(req, k)] == map d | d in need && d !in todo :: Get(req, d);
    }
    assert (map d | d in need && d !in todo :: Get(req, d)) == map d | d in need :: Get(req, d);
  }

  method PoolLoop(need: Resource, candidates: seq<Victim>) returns (pool: seq<Victim>)
    ensures pool == Pool(need, candidates)
  {
    pool := [];
    for i := 0 to |candidates|
      invariant pool == Pool(need, candidates[..i])
    {
      assert candidates[..i + 1][..i] == candidates[..i];
      var c := ContributionLoop(need, candidates[i].request);
      if candidates[i].preemptable && c > 0 {
        pool := pool + [candidates[i]];
      }
    }
    assert candidates[..|candidates|] == candidates;
  }

  method Compare(need: Resource, a: Victim, b: Victim) returns (before: bool)
    ensures before == Before(need, a, b)
  {
    if a.priority != b.priority {
      return a.priority < b.priority;
    }
    var ca := ContributionLoop(need, a.request);
    var cb := ContributionLoop(need, b.request);
    if ca != cb {
      return ca > cb;
    }
    return StringLess(a.uid, b.uid);
  }

  /** A stable sort; stability makes its result unique. */
  method SortPool(need: Resource, pool: seq<Victim>) returns (sorted: seq<Victim>)
    ensures sorted == StableSort(need, pool)
  {
    sorted := [];
    for i := 0 to |pool|
      invariant sorted == StableSort(need, pool[..i])
    {
      assert pool[..i + 1][..i] == pool[..i];
      sorted := InsertLoop(need, pool[i], sorted);
    }
    assert pool[..|pool|] == pool;
  }

  method InsertLoop(need: Resource, v: Victim, s: seq<Victim>) returns (r: seq<Victim>)
    ensures r == Insert(need, v, s)
  {
    var k := |s|;
    assert s[..k] == s && s[k..] == [];
    while k > 0
      invariant 0 <= k <= |s|
      invariant Insert(need, v, s) == Insert(need, v, s[..k]) + s[k..]
    {
      var before := Compare(need, v, s[k - 1]);
      if !before {
        break;
      }
      assert s[..k][..k - 1] == s[..k - 1];
      assert s[k - 1..] == [s[k - 1]] + s[k..];
      k := k - 1;
    }
    r := s[..k] + [v] + s[k..];
  }

  /** What one turn of the trim, on position `i - 1`, makes of the pick. */
  ghost predicate Turned(need: Resource, chosen: seq<Victim>, i: nat, freed: Resource, chosen': seq<Victim>,
                         freed': Resource)
    requires 0 < i <= |chosen|
  {
    var without := Sub(freed, chosen[i - 1].request);
    if FitIn(need, without) then chosen' == chosen[..i - 1] + chosen[i..] && freed' == without
    else chosen' == chosen && freed' == freed
  }

  lemma TurnTrims(need: Resource, chosen: seq<Victim>, i: nat, freed: Resource, chosen': seq<Victim>, freed': Resource)
    requires 0 < i <= |chosen| && Turned(need, chosen, i, freed, chosen', freed')
    ensures i - 1 <= |chosen'| && Trim(need, chosen', i - 1, freed') == Trim(need, chosen, i, freed)
  {}

  /** The trim: `n` is the length left. Removing position `i` shifts the tail of the same
      array left by one, which never disturbs a position still to be visited. */
  method TrimInPlace(need: Resource, buf: array<Victim>, total: Resource) returns (n: nat)
    modifies buf
    ensures n <= buf.Length
    ensures buf[..n] == Trim(need, old(buf[..]), buf.Length, total)
  {
    n := buf.Length;
    var freed := total;
    var i := buf.Length;
    ghost var chosen := buf[..n];
    assert chosen == buf[..];
    while i > 0
      invariant 0 <= i <= n <= buf.Length && chosen == buf[..n]
      invariant Trim(need, chosen, i, freed) == Trim(need, old(buf[..]), buf.Length, total)
    {
      var n', freed' := TrimTurn(need, buf, i, n, freed);
      TurnTrims(need, chosen, i, freed, buf[..n'], freed');
      n, freed, chosen, i := n', freed', buf[..n'], i - 1;
    }
  }

  method TrimTurn(need: Resource, buf: array<Victim>, i: nat, n: nat, freed: Resource)
    returns (n': nat, freed': Resource)
    requires 0 < i <= n <= buf.Length
    modifies buf
    ensures n' <= n && Turned(need, old(buf[..n]), i, freed, buf[..n'], freed')
  {
    n', freed' := n, freed;
    var without := Sub(freed, buf[i - 1].request);
    if FitIn(need, without) {
      RemoveInPlace(buf, i - 1, n);
      n', freed' := n - 1, without;
    }
  }

  /** append(s[:i], s[i+1:]...) on a slice of length `n`. */
  method RemoveInPlace(buf: array<Victim>, i: nat, n: nat)
    requires i < n <= buf.Length
    modifies buf
    ensures buf[..n - 1] == old(buf[..n])[..i] + old(buf[..n])[i + 1..]
  {
    forall k | i <= k < n - 1 {
      buf[k] := buf[k + 1];
    }
  }

  /** The greedy phase: takes from the front until the need is covered. */
  method TakeLoop(need: Resource, pool: seq<Victim>) returns (n: nat, freed: Resource)
    ensures n == Taken(need, pool, 0) && n <= |pool| && freed == Total(pool[..n])
  {
    n, freed := 0, map[];
    while n < |pool| && !FitIn(need, freed)
      invariant n <= |pool| && freed == Total(pool[..n])
      invariant Taken(need, pool, 0) == Taken(need, pool, n)
    {
      assert pool[..n + 1][..n] == pool[..n];
      freed := Add(freed, pool[n].request);
      n := n + 1;
    }
  }

  method SelectVictims(need: Resource, candidates: seq<Victim>) returns (selected: seq<Victim>)
    ensures selected == Select(need, candidates)
  {
    if IsEmpty(need) {
      return [];
    }
    var pool := PoolLoop(need, candidates);
    pool := SortPool(need, pool);
    var n, freed := TakeLoop(need, pool);
    assert pool[..n] == Chosen(need, candidates);
    if !FitIn(need, freed) {
      return [];
    }
    var chosen := new Victim[n](i requires 0 <= i < |pool| => pool[i]);
    assert chosen[..] == pool[..n];
    n := TrimInPlace(need, chosen, freed);
    return chosen[..n];
  }
}
