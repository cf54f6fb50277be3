/** The order victims are taken in and spared in, in their own fields, and what it is for: no
    more evictions than needed (pkg/queue/preemption.go). */
module VictimOrder {
  import opened Vectors
  import opened Sums
  import opened Paths
  import opened Victims

  // ---------------------------------------------------------------- the greedy pick

  /** What a victim frees on the needed dimensions, all together. */
  ghost function Worth(need: Resource, v: Victim): int {
    Sum(map d | d in need :: Get(v.request, d))
  }

  /** `a` is to be taken no later than `b`: it is less important; or as important and frees more;
      or frees as much and its uid is not the larger one. */
  ghost predicate NoLater(need: Resource, a: Victim, b: Victim) {
    || a.priority < b.priority
    || (a.priority == b.priority && Worth(need, a) > Worth(need, b))
    || (a.priority == b.priority && Worth(need, a) == Worth(need, b) && !StringLess(b.uid, a.uid))
  }

  lemma BeforeIs(need: Resource, a: Victim, b: Victim)
    ensures !Before(need, b, a) <==> NoLater(need, a, b)
  {
    StringOrder(a.uid, b.uid, a.uid);
  }

  lemma NoLaterTrans(need: Resource, a: Victim, b: Victim, c: Victim)
    requires NoLater(need, a, b) && NoLater(need, b, c)
    ensures NoLater(need, a, c)
  {
    StringOrder(c.uid, b.uid, a.uid);
  }

  ghost predicate InOrder(need: Resource, s: seq<Victim>) {
    forall i, j :: 0 <= i < j < |s| ==> NoLater(need, s[i], s[j])
  }

  ghost predicate AllNoLater(need: Resource, s: seq<Victim>, z: Victim) {
    forall i :: 0 <= i < |s| ==> NoLater(need, s[i], z)
  }

  lemma {:induction false} InsertOrdered(need: Resource, v: Victim, s: seq<Victim>)
    requires InOrder(need, s)
    ensures InOrder(need, Insert(need, v, s))
    decreases |s|
  {
    if s != [] {
      var n := |s| - 1;
      BeforeIs(need, s[n], v);
      BeforeIs(need, v, s[n]);
      if Before(need, v, s[n]) {
        InsertOrdered(need, v, s[..n]);
        OrderedBelow(need, v, s, n);
        OrderedSnoc(need, Insert(need, v, s[..n]), s[n]);
      } else {
        forall i | 0 <= i < n ensures NoLater(need, s[i], v) {
          NoLaterTrans(need, s[i], s[n], v);
        }
        OrderedSnoc(need, s, v);
      }
    }
  }

  lemma OrderedSnoc(need: Resource, s: seq<Victim>, z: Victim)
    requires InOrder(need, s) && AllNoLater(need, s, z)
    ensures InOrder(need, s + [z])
  {}

  /** Everything the new victim is inserted among stays no later than the last one. */
  lemma OrderedBelow(need: Resource, v: Victim, s: seq<Victim>, n: nat)
    requires n + 1 == |s| && InOrder(need, s) && Before(need, v, s[n])
    ensures AllNoLater(need, Insert(need, v, s[..n]), s[n])
  {
    var r := Insert(need, v, s[..n]);
    InsertBag(need, v, s[..n]);
    BeforeIs(need, v, s[n]);
    BeforeIs(need, s[n], v);
    StringOrder(v.uid, s[n].uid, v.uid);
    forall i | 0 <= i < |r| ensures NoLater(need, r[i], s[n]) {
      assert r[i] in multiset(r);
      assert r[i] == v || r[i] in s[..n];
    }
  }

  lemma {:induction false} SortOrdered(need: Resource, s: seq<Victim>)
    ensures InOrder(need, StableSort(need, s))
    decreases |s|
  {
    if s != [] {
      SortOrdered(need, s[..|s| - 1]);
      InsertOrdered(need, s[|s| - 1], StableSort(need, s[..|s| - 1]));
    }
  }

  /** A candidate that could help and was passed over by the greedy pick comes no earlier than
      any that was picked: it is more important, or as important and frees no more. */
  lemma GreedyOrder(need: Resource, candidates: seq<Victim>, v: Victim, w: Victim)
    requires v in Chosen(need, candidates) && w.preemptable && Worth(need, w) > 0
    requires multiset(Chosen(need, candidates))[w] < multiset(candidates)[w]
    ensures NoLater(need, v, w)
  {
    var pool := StableSort(need, Pool(need, candidates));
    var n := Taken(need, pool, 0);
    assert Useful(need, w);
    SortedPool(need, candidates);
    SortOrdered(need, Pool(need, candidates));
    AcrossCut(need, pool, n, v, w);
  }

  lemma AcrossCut(need: Resource, pool: seq<Victim>, n: nat, v: Victim, w: Victim)
    requires InOrder(need, pool) && n <= |pool| && v in pool[..n] && multiset(pool[..n])[w] < multiset(pool)[w]
    ensures NoLater(need, v, w)
  {
    assert pool == pool[..n] + pool[n..];
    assert w in multiset(pool[n..]);
    var i :| 0 <= i < n && pool[i] == v;
    var j :| 0 <= j < |pool[n..]| && pool[n..][j] == w;
    assert pool[n + j] == w;
  }

  // ---------------------------------------------------------------- no more victims than needed

  /** The largest come first on dimension `d`. */
  ghost predicate Falling(pool: seq<Victim>, d: string) {
    forall i, j :: 0 <= i < j < |pool| ==> Get(pool[i].request, d) >= Get(pool[j].request, d)
  }

  lemma {:induction false} FreedSum(a: multiset<Victim>, b: multiset<Victim>, d: string)
    ensures Freed(a + b, d) == Freed(a, d) + Freed(b, d)
    decreases |a|
  {
    if a == multiset{} {
      assert a + b == b;
    } else {
      var v :| v in a;
      FreedSum(a - multiset{v}, b, d);
      FreedRemove(a, v, d);
      FreedRemove(a + b, v, d);
      assert a + b - multiset{v} == (a - multiset{v}) + b;
    }
  }

  /** A bag of no more victims than another, none of them freeing more than any of the other's. */
  lemma {:induction false} PairOff(a: multiset<Victim>, b: multiset<Victim>, bar: nat, d: string)
    requires |a| <= |b| && (forall v :: v in a ==> Get(v.request, d) <= bar)
    requires forall w :: w in b ==> Get(w.request, d) >= bar
    ensures Freed(a, d) <= Freed(b, d)
    decreases |b|
  {
    if b != multiset{} {
      var w :| w in b;
      FreedRemove(b, w, d);
      if a == multiset{} {
        PairOff(a, b - multiset{w}, bar, d);
      } else {
        var v :| v in a;
        FreedRemove(a, v, d);
        PairOff(a - multiset{v}, b - multiset{w}, bar, d);
      }
    }
  }

  /** Every victim of the bag that frees anything is one of the pool. */
  ghost predicate DrawnFrom(s: multiset<Victim>, pool: seq<Victim>, d: string) {
    forall v :: v in s ==> Get(v.request, d) == 0 || s[v] <= multiset(pool)[v]
  }

  /** What a bag has beyond the front of a falling pool frees no more than the front's last. */
  lemma BeyondFront(pool: seq<Victim>, s: multiset<Victim>, m: nat, d: string, v: Victim)
    requires Falling(pool, d) && 0 < m <= |pool| && DrawnFrom(s, pool, d) && Get(pool[m - 1].request, d) >= 0
    requires s[v] > multiset(pool[..m])[v]
    ensures Get(v.request, d) <= Get(pool[m - 1].request, d)
  {
    if Get(v.request, d) != 0 {
      assert v in s;
      InTheRest(pool, m, v);
      var j :| m <= j < |pool| && pool[j] == v;
    }
  }

  lemma InTheRest(pool: seq<Victim>, m: nat, v: Victim)
    requires m <= |pool| && multiset(pool)[v] > multiset(pool[..m])[v]
    ensures exists j :: m <= j < |pool| && pool[j] == v
  {
    assert pool == pool[..m] + pool[m..];
    assert v in multiset(pool[m..]);
    var j :| 0 <= j < |pool[m..]| && pool[m..][j] == v;
    assert pool[m + j] == v;
  }

  /** The front of a falling pool frees, victim by victim, no less than its last. */
  lemma WithinFront(pool: seq<Victim>, m: nat, d: string, w: Victim)
    requires Falling(pool, d) && 0 < m <= |pool| && w in multiset(pool[..m])
    ensures Get(w.request, d) >= Get(pool[m - 1].request, d)
  {
    var i :| 0 <= i < |pool[..m]| && pool[..m][i] == w;
    assert pool[i] == w;
  }

  /** No bag of at most `m` victims frees more than the first `m` of a falling pool, counting only
      victims of the pool. */
  lemma TopFreesMost(pool: seq<Victim>, s: multiset<Victim>, m: nat, d: string)
    requires Falling(pool, d) && RequestsNonNegative(multiset(pool)) && |s| <= m <= |pool| && DrawnFrom(s, pool, d)
    ensures Freed(s, d) <= Freed(multiset(pool[..m]), d)
  {
    if m == 0 {
      assert s == multiset{} && multiset(pool[..m]) == multiset{};
    } else {
      var top := multiset(pool[..m]);
      var bar := Get(pool[m - 1].request, d);
      assert pool[m - 1] in multiset(pool);
      NonNegativeGet(pool[m - 1].request, d);
      forall v | v in s - top ensures Get(v.request, d) <= bar {
        BeyondFront(pool, s, m, d, v);
      }
      forall w | w in top - s ensures Get(w.request, d) >= bar {
        WithinFront(pool, m, d, w);
      }
      Exchange(s, top, bar, d);
    }
  }

  /** Comparing two bags by what each has beyond the other. */
  lemma Exchange(s: multiset<Victim>, top: multiset<Victim>, bar: nat, d: string)
    requires |s| <= |top| && (forall v :: v in s - top ==> Get(v.request, d) <= bar)
    requires forall w :: w in top - s ==> Get(w.request, d) >= bar
    ensures Freed(s, d) <= Freed(top, d)
  {
    assert s == (s * top) + (s - top) && top == (s * top) + (top - s);
    FreedSum(s * top, s - top, d);
    FreedSum(s * top, top - s, d);
    PairOff(s - top, top - s, bar, d);
  }

  /** On one dimension the worth of a victim is what it frees there. */
  lemma WorthOnOne(d: string, n: int, v: Victim)
    ensures Worth(map[d := n], v) == Get(v.request, d)
  {
    var m := map x | x in map[d := n] :: Get(v.request, x);
    assert m == map[d := Get(v.request, d)];
    SumUpdate(map[], d, Get(v.request, d));
    assert map[][d := Get(v.request, d)] == m;
  }

  /** The sorted pool of candidates of one priority is falling on the one needed dimension. */
  lemma PoolFalls(d: string, n: int, candidates: seq<Victim>, priority: int)
    requires forall v :: v in candidates && v.preemptable ==> v.priority == priority
    ensures Falling(StableSort(map[d := n], Pool(map[d := n], candidates)), d)
  {
    var need: Resource := map[d := n];
    var pool := StableSort(need, Pool(need, candidates));
    SortOrdered(need, Pool(need, candidates));
    SortedPool(need, candidates);
    forall i, j | 0 <= i < j < |pool| ensures Get(pool[i].request, d) >= Get(pool[j].request, d) {
      assert NoLater(need, pool[i], pool[j]);
      assert pool[i] in multiset(pool) && pool[j] in multiset(pool);
      assert pool[i] in multiset(candidates) && pool[j] in multiset(candidates);
      WorthOnOne(d, n, pool[i]);
      WorthOnOne(d, n, pool[j]);
    }
  }

  /** With one needed dimension and candidates of one priority, no set of preemptable candidates
      that covers the need has fewer victims than the answer. */
  lemma FewestVictims(d: string, n: int, candidates: seq<Victim>, priority: int, s: multiset<Victim>)
    requires ProperQuery(map[d := n], candidates)
    requires forall v :: v in candidates && v.preemptable ==> v.priority == priority
    requires s <= multiset(candidates) && Covers(map[d := n], s) && forall v :: v in s ==> v.preemptable
    ensures |Select(map[d := n], candidates)| <= |s|
  {
    var need: Resource := map[d := n];
    var pool := StableSort(need, Pool(need, candidates));
    ChosenCovers(need, candidates, s);
    ChosenTrimmed(need, candidates);
    BagSize(multiset(Select(need, candidates)), multiset(Chosen(need, candidates)));
    if |s| < |Chosen(need, candidates)| {
      PoolFalls(d, n, candidates, priority);
      PoolHolds(d, n, candidates, s);
      TopFreesMost(pool, s, |s|, d);
      assert need[d] <= Freed(s, d);
      CoversTotal(need, pool[..|s|]);
      assert false;
    }
  }

  lemma PoolHolds(d: string, n: int, candidates: seq<Victim>, s: multiset<Victim>)
    requires ProperQuery(map[d := n], candidates)
    requires s <= multiset(candidates) && forall v :: v in s ==> v.preemptable
    ensures var pool := StableSort(map[d := n], Pool(map[d := n], candidates));
      && RequestsNonNegative(multiset(pool))
      && DrawnFrom(s, pool, d)
  {
    var need: Resource := map[d := n];
    SortedPool(need, candidates);
    forall v | v in s ensures Get(v.request, d) == 0 || Useful(need, v) {
      assert v in multiset(candidates);
      NonNegativeGet(v.request, d);
      WorthOnOne(d, n, v);
    }
  }

  lemma {:induction false} BagSize(a: multiset<Victim>, b: multiset<Victim>)
    requires a <= b
    ensures |a| <= |b|
  {
    assert b == a + (b - a);
  }

  // ---------------------------------------------------------------- the trim

  /** Sparing from the back, without a running total: the last victim of `front` goes when the
      others, with those already kept in `tail`, cover the need. */
  ghost function Spare(need: Resource, front: seq<Victim>, tail: seq<Victim>): seq<Victim>
    decreases |front|
  {
    if front == [] then tail
    else
      var n := |front| - 1;
      if Covers(need, multiset(front[..n]) + multiset(tail)) then Spare(need, front[..n], tail)
      else Spare(need, front[..n], [front[n]] + tail)
  }

  /** The trim with its running total spares exactly those victims. */
  lemma {:induction false} TrimIsSpare(need: Resource, front: seq<Victim>, tail: seq<Victim>, freed: Resource)
    requires forall d :: Get(freed, d) == Freed(multiset(front + tail), d)
    ensures Trim(need, front + tail, |front|, freed) == Spare(need, front, tail)
    decreases |front|
  {
    if front == [] {
      assert front + tail == tail;
    } else {
      var n := |front| - 1;
      SpareTurn(need, front, tail, freed);
      if Covers(need, multiset(front[..n]) + multiset(tail)) {
        TrimIsSpare(need, front[..n], tail, Sub(freed, front[n].request));
      } else {
        TrimIsSpare(need, front[..n], [front[n]] + tail, freed);
      }
    }
  }

  /** One turn of the trim, with the running total read as what the bag frees. */
  lemma SpareTurn(need: Resource, front: seq<Victim>, tail: seq<Victim>, freed: Resource)
    requires front != [] && forall d :: Get(freed, d) == Freed(multiset(front + tail), d)
    ensures var n, without := |front| - 1, Sub(freed, front[|front| - 1].request);
      && front + tail == front[..n] + ([front[n]] + tail)
      && if Covers(need, multiset(front[..n]) + multiset(tail)) then
           && Trim(need, front + tail, n + 1, freed) == Trim(need, front[..n] + tail, n, without)
           && forall d :: Get(without, d) == Freed(multiset(front[..n] + tail), d)
         else Trim(need, front + tail, n + 1, freed) == Trim(need, front + tail, n, freed)
  {
    var n, chosen := |front| - 1, front + tail;
    assert chosen[..n] + chosen[n + 1..] == front[..n] + tail && chosen[n] == front[n];
    assert chosen == front[..n] + ([front[n]] + tail);
    RemoveAt(chosen, n);
    DropOne(need, chosen, n, freed);
    assert multiset(front[..n]) + multiset(tail) == multiset(chosen) - multiset{chosen[n]};
  }

  /** So the answer is the greedy pick with victims spared from the most important down. */
  lemma SelectSpares(need: Resource, candidates: seq<Victim>)
    requires Select(need, candidates) != []
    ensures Select(need, candidates) == Spare(need, Chosen(need, candidates), [])
  {
    var chosen := Chosen(need, candidates);
    assert chosen + [] == chosen;
    forall d ensures Get(Total(chosen), d) == Freed(multiset(chosen), d) {
      FreedTotal(chosen, d);
    }
    TrimIsSpare(need, chosen, [], Total(chosen));
  }
}
