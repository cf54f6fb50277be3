/** Victim selection (pkg/queue/preemption.go): a greedy pick over the preemptable pool
    followed by a backward trim, as functions on values. */
module Victims {
  import opened Vectors
  import opened Sums
  import opened Paths

  datatype Victim = Victim(uid: string, priority: int, request: Resource, preemptable: bool)

  // ---------------------------------------------------------------- the selection

  /** How much a request frees on the needed dimensions together. */
  ghost function Contribution(need: Resource, req: Resource): int {
    Sum(map d | d in need :: Get(req, d))
  }

  ghost predicate Useful(need: Resource, v: Victim) {
    v.preemptable && Contribution(need, v.request) > 0
  }

  ghost function Pool(need: Resource, candidates: seq<Victim>): seq<Victim> {
    if candidates == [] then []
    else
      var rest := Pool(need, candidates[..|candidates| - 1]);
      var v := candidates[|candidates| - 1];
      if Useful(need, v) then rest + [v] else rest
  }

  /** Cheaper first: lower priority, then the larger contribution, then the uid. */
  ghost predicate Before(need: Resource, a: Victim, b: Victim) {
    if a.priority != b.priority then a.priority < b.priority
    else if Contribution(need, a.request) != Contribution(need, b.request)
    then Contribution(need, a.request) > Contribution(need, b.request)
    else StringLess(a.uid, b.uid)
  }

  /** Places `v` after every victim it is not before. */
  ghost function Insert(need: Resource, v: Victim, s: seq<Victim>): seq<Victim> {
    if s == [] then [v]
    else if Before(need, v, s[|s| - 1]) then Insert(need, v, s[..|s| - 1]) + [s[|s| - 1]]
    else s + [v]
  }

  ghost function StableSort(need: Resource, s: seq<Victim>): seq<Victim> {
    if s == [] then [] else Insert(need, s[|s| - 1], StableSort(need, s[..|s| - 1]))
  }

  function Total(s: seq<Victim>): Resource {
    if s == [] then map[] else Add(Total(s[..|s| - 1]), s[|s| - 1].request)
  }

  /** How many victims the greedy loop takes, having taken `i`. */
  function Taken(need: Resource, pool: seq<Victim>, i: nat): (n: nat)
    requires i <= |pool|
    ensures i <= n <= |pool|
    ensures n < |pool| ==> FitIn(need, Total(pool[..n]))
    ensures forall j :: i <= j < n ==> !FitIn(need, Total(pool[..j]))
    decreases |pool| - i
  {
    if i == |pool| || FitIn(need, Total(pool[..i])) then i else Taken(need, pool, i + 1)
  }

  /** The backward trim, with positions `i` and up already dealt with. */
  function Trim(need: Resource, chosen: seq<Victim>, i: nat, freed: Resource): seq<Victim>
    requires i <= |chosen|
    decreases i
  {
    if i == 0 then chosen
    else
      var without := Sub(freed, chosen[i - 1].request);
      if FitIn(need, without) then Trim(need, chosen[..i - 1] + chosen[i..], i - 1, without)
      else Trim(need, chosen, i - 1, freed)
  }

  /** The greedy pick. */
  ghost function Chosen(need: Resource, candidates: seq<Victim>): seq<Victim> {
    var pool := StableSort(need, Pool(need, candidates));
    pool[..Taken(need, pool, 0)]
  }

  ghost function Select(need: Resource, candidates: seq<Victim>): seq<Victim> {
    if IsEmpty(need) then []
    else
      var chosen := Chosen(need, candidates);
      if !FitIn(need, Total(chosen)) then [] else Trim(need, chosen, |chosen|, Total(chosen))
  }

  // ---------------------------------------------------------------- bags of victims

  /** What evicting a bag of victims frees on one dimension. */
  ghost function Freed(b: multiset<Victim>, d: string): int
    decreases |b|
  {
    if b == multiset{} then 0 else
      var v :| v in b;
      Get(v.request, d) + Freed(b - multiset{v}, d)
  }

  ghost predicate Covers(need: Resource, b: multiset<Victim>) {
    forall d :: d in need ==> need[d] <= Freed(b, d)
  }

  ghost predicate RequestsNonNegative(b: multiset<Victim>) {
    forall v :: v in b ==> NonNegative(v.request)
  }

  lemma {:induction false} FreedRemove(b: multiset<Victim>, v: Victim, d: string)
    requires v in b
    ensures Freed(b, d) == Get(v.request, d) + Freed(b - multiset{v}, d)
    decreases |b|
  {
    var c :| c in b && Freed(b, d) == Get(c.request, d) + Freed(b - multiset{c}, d);
    if c != v {
      FreedRemove(b - multiset{c}, v, d);
      FreedRemove(b - multiset{v}, c, d);
      assert b - multiset{c} - multiset{v} == b - multiset{v} - multiset{c};
    }
  }

  lemma FreedSnoc(s: seq<Victim>, d: string)
    requires s != []
    ensures Freed(multiset(s), d) == Freed(multiset(s[..|s| - 1]), d) + Get(s[|s| - 1].request, d)
  {
    var n := |s| - 1;
    assert s == s[..n] + [s[n]];
    FreedRemove(multiset(s), s[n], d);
    assert multiset(s) - multiset{s[n]} == multiset(s[..n]);
  }

  lemma {:induction false} FreedTotal(s: seq<Victim>, d: string)
    ensures Freed(multiset(s), d) == Get(Total(s), d)
    decreases |s|
  {
    if s != [] {
      FreedTotal(s[..|s| - 1], d);
      FreedSnoc(s, d);
    }
  }

  /** A bag frees no more than another one holding all of its victims that free anything. */
  lemma {:induction false} FreedBelow(a: multiset<Victim>, b: multiset<Victim>, d: string)
    requires RequestsNonNegative(b)
    requires forall v :: v in a ==> Get(v.request, d) == 0 || a[v] <= b[v]
    ensures Freed(a, d) <= Freed(b, d)
    decreases |a| + |b|
  {
    if a != multiset{} {
      var v :| v in a;
      FreedRemove(a, v, d);
      if Get(v.request, d) == 0 {
        FreedBelow(a - multiset{v}, b, d);
      } else {
        FreedRemove(b, v, d);
        FreedBelow(a - multiset{v}, b - multiset{v}, d);
      }
    } else if b != multiset{} {
      var v :| v in b;
      FreedRemove(b, v, d);
      FreedBelow(a, b - multiset{v}, d);
      assert NonNegative(v.request);
    }
  }

  lemma CoversTotal(need: Resource, s: seq<Victim>)
    ensures FitIn(need, Total(s)) <==> Covers(need, multiset(s))
  {
    forall d ensures Freed(multiset(s), d) == Get(Total(s), d) {
      FreedTotal(s, d);
    }
  }

  // ---------------------------------------------------------------- pool and sort

  lemma {:induction false} PoolBag(need: Resource, candidates: seq<Victim>, v: Victim)
    ensures multiset(Pool(need, candidates))[v] == if Useful(need, v) then multiset(candidates)[v] else 0
    decreases |candidates|
  {
    if candidates != [] {
      var n := |candidates| - 1;
      PoolBag(need, candidates[..n], v);
      assert candidates == candidates[..n] + [candidates[n]];
    }
  }

  ghost predicate SortedByPriority(s: seq<Victim>) {
    forall i, j :: 0 <= i < j < |s| ==> s[i].priority <= s[j].priority
  }

  lemma {:induction false} InsertBag(need: Resource, v: Victim, s: seq<Victim>)
    ensures multiset(Insert(need, v, s)) == multiset(s) + multiset{v}
    decreases |s|
  {
    if s != [] {
      InsertBag(need, v, s[..|s| - 1]);
      assert s == s[..|s| - 1] + [s[|s| - 1]];
    }
  }

  lemma {:induction false} InsertSorted(need: Resource, v: Victim, s: seq<Victim>)
    requires SortedByPriority(s)
    ensures SortedByPriority(Insert(need, v, s))
    decreases |s|
  {
    if s != [] && Before(need, v, s[|s| - 1]) {
      var n := |s| - 1;
      var r := Insert(need, v, s[..n]);
      InsertSorted(need, v, s[..n]);
      InsertBag(need, v, s[..n]);
      forall i | 0 <= i < |r| ensures r[i].priority <= s[n].priority {
        assert r[i] in multiset(r);
        assert r[i] == v || r[i] in s[..n];
      }
    }
  }

  lemma {:induction false} StableSortSorted(need: Resource, s: seq<Victim>)
    ensures SortedByPriority(StableSort(need, s))
    ensures multiset(StableSort(need, s)) == multiset(s)
    decreases |s|
  {
    if s != [] {
      var n := |s| - 1;
      StableSortSorted(need, s[..n]);
      InsertSorted(need, s[n], StableSort(need, s[..n]));
      InsertBag(need, s[n], StableSort(need, s[..n]));
      assert s == s[..n] + [s[n]];
    }
  }

  /** The sorted pool holds exactly the useful candidates. */
  lemma SortedPool(need: Resource, candidates: seq<Victim>)
    ensures var pool := StableSort(need, Pool(need, candidates));
      && SortedByPriority(pool)
      && forall v :: multiset(pool)[v] == if Useful(need, v) then multiset(candidates)[v] else 0
  {
    StableSortSorted(need, Pool(need, candidates));
    forall v ensures multiset(Pool(need, candidates))[v] == if Useful(need, v) then multiset(candidates)[v] else 0 {
      PoolBag(need, candidates, v);
    }
  }

  /** A preemptable victim left out of the pool frees nothing that is needed. */
  lemma Useless(need: Resource, v: Victim, d: string)
    requires NonNegative(v.request) && d in need && Contribution(need, v.request) <= 0
    ensures Get(v.request, d) == 0
  {
    SumNonNegative(map k | k in need :: Get(v.request, k));
    assert (map k | k in need :: Get(v.request, k))[d] == Get(v.request, d);
  }

  // ---------------------------------------------------------------- the trim

  /** Dropping the victim at `j` would no longer cover the need. */
  ghost predicate Essential(need: Resource, s: seq<Victim>, j: nat)
    requires j < |s|
  {
    !Covers(need, multiset(s) - multiset{s[j]})
  }

  lemma DropOne(need: Resource, s: seq<Victim>, j: nat, freed: Resource)
    requires j < |s| && forall d :: Get(freed, d) == Freed(multiset(s), d)
    ensures FitIn(need, Sub(freed, s[j].request)) <==> !Essential(need, s, j)
    ensures forall d :: Get(Sub(freed, s[j].request), d) == Freed(multiset(s) - multiset{s[j]}, d)
  {
    forall d ensures Freed(multiset(s), d) == Get(s[j].request, d) + Freed(multiset(s) - multiset{s[j]}, d) {
      FreedRemove(multiset(s), s[j], d);
    }
  }

  lemma RemoveAt(s: seq<Victim>, j: nat)
    requires j < |s|
    ensures multiset(s[..j] + s[j + 1..]) == multiset(s) - multiset{s[j]}
  {
    assert s == s[..j] + [s[j]] + s[j + 1..];
  }

  /** A victim that was essential stays so when others are dropped. */
  lemma StaysEssential(need: Resource, a: multiset<Victim>, b: multiset<Victim>, v: Victim)
    requires a <= b && v in a && RequestsNonNegative(b) && !Covers(need, b - multiset{v})
    ensures !Covers(need, a - multiset{v})
  {
    forall d ensures Freed(a - multiset{v}, d) <= Freed(b - multiset{v}, d) {
      FreedBelow(a - multiset{v}, b - multiset{v}, d);
    }
  }

  /** Dropping position `i` keeps the later positions essential. */
  lemma DropKeepsEssential(need: Resource, s: seq<Victim>, i: nat)
    requires i < |s| && RequestsNonNegative(multiset(s))
    requires forall j :: i < j < |s| ==> Essential(need, s, j)
    ensures var rest := s[..i] + s[i + 1..];
      forall j :: i <= j < |rest| ==> Essential(need, rest, j)
  {
    var rest := s[..i] + s[i + 1..];
    RemoveAt(s, i);
    forall j | i <= j < |rest| ensures Essential(need, rest, j) {
      assert rest[j] == s[j + 1] && Essential(need, s, j + 1);
      StaysEssential(need, multiset(rest), multiset(s), rest[j]);
    }
  }

  /** The state of the trim loop: positions `i` and up cannot be dropped any more. */
  ghost predicate TrimState(need: Resource, chosen: seq<Victim>, i: nat, freed: Resource) {
    && i <= |chosen| && RequestsNonNegative(multiset(chosen))
    && (forall d :: Get(freed, d) == Freed(multiset(chosen), d))
    && Covers(need, multiset(chosen))
    && forall j :: i <= j < |chosen| ==> Essential(need, chosen, j)
  }

  /** Without the victim before `i` the rest would not do: it stays. */
  lemma TrimKeeps(need: Resource, chosen: seq<Victim>, i: nat, freed: Resource)
    requires i > 0 && TrimState(need, chosen, i, freed)
    requires !FitIn(need, Sub(freed, chosen[i - 1].request))
    ensures TrimState(need, chosen, i - 1, freed)
  {
    assert Essential(need, chosen, i - 1) by {
      DropOne(need, chosen, i - 1, freed);
    }
  }

  /** Without the victim before `i` the rest still does: it goes. */
  lemma TrimDrops(need: Resource, chosen: seq<Victim>, i: nat, freed: Resource)
    requires i > 0 && TrimState(need, chosen, i, freed)
    requires FitIn(need, Sub(freed, chosen[i - 1].request))
    ensures var rest := chosen[..i - 1] + chosen[i..];
      TrimState(need, rest, i - 1, Sub(freed, chosen[i - 1].request)) && multiset(rest) <= multiset(chosen)
  {
    DropOne(need, chosen, i - 1, freed);
    RemoveAt(chosen, i - 1);
    DropKeepsEssential(need, chosen, i - 1);
  }

  /** A cover made of some of `chosen`, every victim of it essential. */
  ghost predicate MinimalPart(need: Resource, chosen: seq<Victim>, r: seq<Victim>) {
    && multiset(r) <= multiset(chosen)
    && Covers(need, multiset(r))
    && forall j :: 0 <= j < |r| ==> Essential(need, r, j)
  }

  lemma TrimDone(need: Resource, chosen: seq<Victim>, rest: seq<Victim>, left: Resource)
    requires TrimState(need, rest, 0, left) && multiset(rest) <= multiset(chosen)
    ensures MinimalPart(need, chosen, rest) && Trim(need, rest, 0, left) == rest
  {}

  /** One turn of the trim, on position `i - 1`. */
  lemma TrimTurn(need: Resource, chosen: seq<Victim>, i: nat, freed: Resource)
    returns (rest: seq<Victim>, left: Resource)
    requires i > 0 && TrimState(need, chosen, i, freed)
    ensures TrimState(need, rest, i - 1, left) && multiset(rest) <= multiset(chosen)
    ensures Trim(need, chosen, i, freed) == Trim(need, rest, i - 1, left)
  {
    var without := Sub(freed, chosen[i - 1].request);
    if FitIn(need, without) {
      TrimDrops(need, chosen, i, freed);
      rest, left := chosen[..i - 1] + chosen[i..], without;
    } else {
      TrimKeeps(need, chosen, i, freed);
      rest, left := chosen, freed;
    }
  }

  lemma TrimMinimal(need: Resource, chosen: seq<Victim>, i: nat, freed: Resource)
    requires TrimState(need, chosen, i, freed)
    ensures MinimalPart(need, chosen, Trim(need, chosen, i, freed))
  {
    var n, rest, left := i, chosen, freed;
    while n > 0
      invariant TrimState(need, rest, n, left) && multiset(rest) <= multiset(chosen)
      invariant Trim(need, rest, n, left) == Trim(need, chosen, i, freed)
    {
      rest, left := TrimTurn(need, rest, n, left);
      n := n - 1;
    }
    TrimDone(need, chosen, rest, left);
  }

  // ---------------------------------------------------------------- what Select promises

  /** All preemptable candidates together. */
  ghost function AllPreemptable(candidates: seq<Victim>): seq<Victim> {
    if candidates == [] then []
    else
      var rest := AllPreemptable(candidates[..|candidates| - 1]);
      var v := candidates[|candidates| - 1];
      if v.preemptable then rest + [v] else rest
  }

  lemma {:induction false} AllPreemptableBag(candidates: seq<Victim>, v: Victim)
    ensures multiset(AllPreemptable(candidates))[v] == if v.preemptable then multiset(candidates)[v] else 0
    decreases |candidates|
  {
    if candidates != [] {
      var n := |candidates| - 1;
      AllPreemptableBag(candidates[..n], v);
      assert candidates == candidates[..n] + [candidates[n]];
    }
  }

  /** The question SelectVictims is asked: a need with something in it, nothing negative. */
  ghost predicate ProperQuery(need: Resource, candidates: seq<Victim>) {
    NonNegative(need) && !IsEmpty(need) && RequestsNonNegative(multiset(candidates))
  }

  /** Any bag of preemptable candidates frees no more than the part of the pool that
      holds its useful victims. */
  lemma PoolDominates(need: Resource, candidates: seq<Victim>, s: multiset<Victim>, part: multiset<Victim>)
    requires ProperQuery(need, candidates) && s <= multiset(candidates) && part <= multiset(candidates)
    requires forall v :: v in s ==> v.preemptable
    requires forall v :: v in s && Useful(need, v) ==> s[v] <= part[v]
    requires Covers(need, s)
    ensures Covers(need, part)
  {
    forall d | d in need ensures Freed(s, d) <= Freed(part, d) {
      forall v | v in s ensures Get(v.request, d) == 0 || s[v] <= part[v] {
        if !Useful(need, v) {
          assert v in multiset(candidates);
          Useless(need, v, d);
        }
      }
      FreedBelow(s, part, d);
    }
  }

  /** An empty bag covers no proper need. */
  lemma NothingCoversNothing(need: Resource, s: multiset<Victim>)
    requires NonNegative(need) && !IsEmpty(need) && Covers(need, s)
    ensures s != multiset{}
  {
    var d :| d in need && need[d] != 0;
    assert need[d] <= Freed(s, d);
  }

  /** The greedy pick takes useful candidates only. */
  lemma ChosenBag(need: Resource, candidates: seq<Victim>, v: Victim)
    ensures multiset(Chosen(need, candidates))[v] <= if Useful(need, v) then multiset(candidates)[v] else 0
  {
    var pool := StableSort(need, Pool(need, candidates));
    SortedPool(need, candidates);
    assert pool == Chosen(need, candidates) + pool[Taken(need, pool, 0)..];
  }

  /** If some of the preemptable candidates cover the need, all of them together do. */
  lemma CoverGrows(need: Resource, candidates: seq<Victim>, s: multiset<Victim>)
    requires ProperQuery(need, candidates) && Covers(need, s)
    requires forall v :: s[v] <= if v.preemptable then multiset(candidates)[v] else 0
    ensures Covers(need, multiset(AllPreemptable(candidates)))
  {
    var all := multiset(AllPreemptable(candidates));
    forall v ensures all[v] == if v.preemptable then multiset(candidates)[v] else 0 {
      AllPreemptableBag(candidates, v);
    }
    forall d ensures Freed(s, d) <= Freed(all, d) {
      FreedBelow(s, all, d);
    }
  }

  /** The greedy pick covers the need whenever any set of preemptable candidates does. */
  lemma ChosenCovers(need: Resource, candidates: seq<Victim>, s: multiset<Victim>)
    requires ProperQuery(need, candidates)
    requires s <= multiset(candidates) && Covers(need, s) && forall v :: v in s ==> v.preemptable
    ensures FitIn(need, Total(Chosen(need, candidates)))
  {
    var pool := StableSort(need, Pool(need, candidates));
    SortedPool(need, candidates);
    if Taken(need, pool, 0) == |pool| {
      PoolDominates(need, candidates, s, multiset(pool));
      CoversTotal(need, pool);
      assert pool[..|pool|] == pool;
    }
  }

  /** The trim applied to the greedy pick. */
  lemma ChosenTrimmed(need: Resource, candidates: seq<Victim>)
    requires ProperQuery(need, candidates) && FitIn(need, Total(Chosen(need, candidates)))
    ensures var r := Select(need, candidates);
      && r != []
      && multiset(r) <= multiset(Chosen(need, candidates))
      && Covers(need, multiset(r))
      && forall j :: 0 <= j < |r| ==> Essential(need, r, j)
  {
    var chosen := Chosen(need, candidates);
    CoversTotal(need, chosen);
    forall d ensures Get(Total(chosen), d) == Freed(multiset(chosen), d) {
      FreedTotal(chosen, d);
    }
    forall v: Victim | v in multiset(chosen) ensures NonNegative(v.request) {
      ChosenBag(need, candidates, v);
      assert v in multiset(candidates);
    }
    TrimMinimal(need, chosen, |chosen|, Total(chosen));
    NothingCoversNothing(need, multiset(Select(need, candidates)));
  }

  /** The answer is non-empty exactly when all preemptable candidates together cover
      the need. */
  lemma SelectFeasible(need: Resource, candidates: seq<Victim>)
    requires ProperQuery(need, candidates)
    ensures Select(need, candidates) != [] <==> Covers(need, multiset(AllPreemptable(candidates)))
  {
    var all := multiset(AllPreemptable(candidates));
    forall v ensures all[v] == if v.preemptable then multiset(candidates)[v] else 0 {
      AllPreemptableBag(candidates, v);
    }
    if Covers(need, all) {
      ChosenCovers(need, candidates, all);
      ChosenTrimmed(need, candidates);
    }
    if FitIn(need, Total(Chosen(need, candidates))) {
      CoversTotal(need, Chosen(need, candidates));
      forall v ensures multiset(Chosen(need, candidates))[v] <= if v.preemptable then multiset(candidates)[v] else 0 {
        ChosenBag(need, candidates, v);
      }
      CoverGrows(need, candidates, multiset(Chosen(need, candidates)));
    }
  }

  /** A non-empty answer covers the need and none of its victims can be spared; it is
      made of preemptable candidates that free something needed. */
  lemma SelectMinimalCover(need: Resource, candidates: seq<Victim>)
    requires ProperQuery(need, candidates)
    ensures var r := Select(need, candidates);
      && (r != [] ==> Covers(need, multiset(r)))
      && (forall j :: 0 <= j < |r| ==> Essential(need, r, j))
      && forall v :: multiset(r)[v] <= if Useful(need, v) then multiset(candidates)[v] else 0
  {
    if FitIn(need, Total(Chosen(need, candidates))) {
      ChosenTrimmed(need, candidates);
      forall v ensures multiset(Chosen(need, candidates))[v] <= if Useful(need, v) then multiset(candidates)[v] else 0 {
        ChosenBag(need, candidates, v);
      }
    }
  }

  /** Victims picked among `candidates` that cover the need together. */
  ghost predicate Drawn(need: Resource, candidates: seq<Victim>, selected: seq<Victim>) {
    multiset(selected) <= multiset(candidates) && Covers(need, multiset(selected))
  }

  lemma SelectIsDrawn(need: Resource, candidates: seq<Victim>)
    requires NonNegative(need) && RequestsNonNegative(multiset(candidates)) && Select(need, candidates) != []
    ensures Drawn(need, candidates, Select(need, candidates))
  {
    SelectMinimalCover(need, candidates);
  }

  /** Bottleneck optimality: whatever set of preemptable candidates covers the need, it
      holds a victim whose priority is at least that of every selected one. */
  lemma SelectBottleneck(need: Resource, candidates: seq<Victim>, s: multiset<Victim>, w: Victim)
    requires ProperQuery(need, candidates)
    requires s <= multiset(candidates) && Covers(need, s) && forall v :: v in s ==> v.preemptable
    requires w in Select(need, candidates)
    ensures exists v :: v in s && v.priority >= w.priority
  {
    ChosenTrimmed(need, candidates);
    assert w in multiset(Chosen(need, candidates));
    var k :| 0 <= k < |Chosen(need, candidates)| && Chosen(need, candidates)[k] == w;
    PrefixCovers(need, candidates, s, k);
  }

  /** The preemptable candidates strictly below a priority. */
  ghost function Cheaper(candidates: seq<Victim>, priority: int): seq<Victim> {
    if candidates == [] then []
    else
      var rest := Cheaper(candidates[..|candidates| - 1], priority);
      var v := candidates[|candidates| - 1];
      if v.preemptable && v.priority < priority then rest + [v] else rest
  }

  lemma {:induction false} CheaperBag(candidates: seq<Victim>, priority: int, v: Victim)
    ensures multiset(Cheaper(candidates, priority))[v]
         == if v.preemptable && v.priority < priority then multiset(candidates)[v] else 0
    decreases |candidates|
  {
    if candidates != [] {
      var n := |candidates| - 1;
      CheaperBag(candidates[..n], priority, v);
      assert candidates == candidates[..n] + [candidates[n]];
    }
  }

  lemma CheaperPart(candidates: seq<Victim>, priority: int)
    ensures multiset(Cheaper(candidates, priority)) <= multiset(candidates)
    ensures forall v :: v in multiset(Cheaper(candidates, priority)) ==> v.preemptable && v.priority < priority
  {
    forall v: Victim
      ensures multiset(Cheaper(candidates, priority))[v] <= multiset(candidates)[v]
      ensures v in multiset(Cheaper(candidates, priority)) ==> v.preemptable && v.priority < priority
    {
      CheaperBag(candidates, priority, v);
    }
  }

  /** Exactly when: a selection spares every candidate of priority `priority` and above if and
      only if the cheaper candidates cover the need by themselves. */
  lemma SparesExact(need: Resource, candidates: seq<Victim>, priority: int)
    requires ProperQuery(need, candidates) && Select(need, candidates) != []
    ensures (forall w :: w in Select(need, candidates) ==> w.priority < priority)
       <==> Covers(need, multiset(Cheaper(candidates, priority)))
  {
    var cheaper := multiset(Cheaper(candidates, priority));
    CheaperPart(candidates, priority);
    if Covers(need, cheaper) {
      forall w | w in Select(need, candidates) ensures w.priority < priority {
        SelectBottleneck(need, candidates, cheaper, w);
      }
    }
    if forall w :: w in Select(need, candidates) ==> w.priority < priority {
      SparingCover(need, candidates, priority);
    }
  }

  lemma SparingCover(need: Resource, candidates: seq<Victim>, priority: int)
    requires ProperQuery(need, candidates) && Select(need, candidates) != []
    requires forall w :: w in Select(need, candidates) ==> w.priority < priority
    ensures Covers(need, multiset(Cheaper(candidates, priority)))
  {
    var selected, cheaper := multiset(Select(need, candidates)), multiset(Cheaper(candidates, priority));
    SelectMinimalCover(need, candidates);
    CheaperPart(candidates, priority);
    forall v: Victim ensures selected[v] <= cheaper[v] {
      CheaperBag(candidates, priority, v);
      assert v in selected ==> v in Select(need, candidates);
    }
    forall d | d in need ensures need[d] <= Freed(cheaper, d) {
      FreedBelow(selected, cheaper, d);
    }
  }

  /** In a sorted pool a cheaper victim than the one at `k` stands before it. */
  lemma CheaperBefore(pool: seq<Victim>, k: nat, v: Victim)
    requires SortedByPriority(pool) && k < |pool| && v.priority < pool[k].priority
    ensures multiset(pool[..k])[v] == multiset(pool)[v]
  {
    assert pool == pool[..k] + pool[k..];
    assert v !in pool[k..];
  }

  /** A covering set of victims all cheaper than the one at `k` makes the pool cover the
      need before `k`. */
  lemma CheaperCover(need: Resource, candidates: seq<Victim>, pool: seq<Victim>, s: multiset<Victim>, k: nat)
    requires ProperQuery(need, candidates)
    requires s <= multiset(candidates) && Covers(need, s) && forall v :: v in s ==> v.preemptable
    requires SortedByPriority(pool) && k < |pool| && multiset(pool) <= multiset(candidates)
    requires forall v :: v in s && Useful(need, v) ==> s[v] <= multiset(pool)[v]
    requires forall v :: v in s ==> v.priority < pool[k].priority
    ensures FitIn(need, Total(pool[..k]))
  {
    PrefixPart(pool, k);
    CheaperInPrefix(need, pool, s, k);
    PoolDominates(need, candidates, s, multiset(pool[..k]));
    CoversTotal(need, pool[..k]);
  }

  lemma PrefixPart(pool: seq<Victim>, k: nat)
    requires k <= |pool|
    ensures multiset(pool[..k]) <= multiset(pool)
  {
    assert pool == pool[..k] + pool[k..];
  }

  lemma CheaperInPrefix(need: Resource, pool: seq<Victim>, s: multiset<Victim>, k: nat)
    requires SortedByPriority(pool) && k < |pool|
    requires forall v :: v in s && Useful(need, v) ==> s[v] <= multiset(pool)[v]
    requires forall v :: v in s ==> v.priority < pool[k].priority
    ensures forall v :: v in s && Useful(need, v) ==> s[v] <= multiset(pool[..k])[v]
  {
    forall v | v in s && Useful(need, v) ensures s[v] <= multiset(pool[..k])[v] {
      CheaperBefore(pool, k, v);
    }
  }

  /** Were every victim of a covering set cheaper than the one taken at `k`, the greedy
      loop would have stopped before taking it. */
  lemma PrefixCovers(need: Resource, candidates: seq<Victim>, s: multiset<Victim>, k: nat)
    requires ProperQuery(need, candidates)
    requires s <= multiset(candidates) && Covers(need, s) && forall v :: v in s ==> v.preemptable
    requires k < |Chosen(need, candidates)|
    ensures exists v :: v in s && v.priority >= Chosen(need, candidates)[k].priority
  {
    var pool := StableSort(need, Pool(need, candidates));
    SortedPool(need, candidates);
    assert !FitIn(need, Total(pool[..k]));
    if forall v :: v in s ==> v.priority < pool[k].priority {
      CheaperCover(need, candidates, pool, s, k);
    }
  }
}
