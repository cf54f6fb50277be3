/** Reclaim decisions that evict and still do not let the starved pod in, as runs from the
    empty engine (pkg/framework/reclaim.go): a queue below the fence boundary stays full, or
    the boundary was over its max. */
module VainEvictions {
  import opened Vectors
  import opened Paths
  import opened QueueTree
  import opened Fences
  import opened Ledger
  import RoundTrips
  import opened Placement
  import opened Victims
  import opened Donors
  import opened Evictions
  import opened Reclaim
  import opened Counterexamples
  import Sorting

  const N := "root.n"
  const A := "root.n.a"
  const X := "root.n.a.x"
  const Y := "root.n.a.y"
  const B := "root.n.b"
  const ONE: Resource := map["cpu" := 1]
  const TWO: Resource := map["cpu" := 2]

  /** One namespace with a group a of two guaranteed leaves x and y, and a leaf b beside it. */
  function Site(nmax: Resource, amax: Resource): Shape {
    map["root" := Node("root", None, false, map[], map[], false, [], false),
        N := Node("n", Some("root"), false, map[], nmax, false, [], false),
        A := Node("a", Some(N), false, map[], amax, false, [], false),
        X := Node("x", Some(A), true, ONE, map[], false, ["x"], false),
        Y := Node("y", Some(A), true, TWO, map[], false, ["y"], false),
        B := Node("b", Some(N), true, map[], map[], false, ["b"], false)]
  }

  /** The pod y keeps its guarantee with, the pod b borrows with, and the pod starved at x; all
      of one priority. */
  const HELD := Pod("h", "n", "y", 0, TWO)
  const LENT := Pod("p", "n", "b", 0, ONE)
  const STARVED := Pod("w", "n", "x", 0, ONE)

  // ---------------------------------------------------------------- the tree

  lemma Literals()
    ensures N == "root" + "." + "n" && A == N + "." + "a" && B == N + "." + "b"
    ensures X == A + "." + "x" && Y == A + "." + "y"
    ensures |{"root", N, A, X, Y, B}| == 6
    ensures ValidName("root") && ValidName("n") && ValidName("a") && ValidName("x") && ValidName("y") && ValidName("b")
  {
    assert "root"[0] == 'r';
  }

  lemma SiteWellFormed(nmax: Resource, amax: Resource)
    requires NonNegative(nmax) && NonNegative(amax)
    ensures WellFormed(Site(nmax, amax))
  {
    var t := Site(nmax, amax);
    Literals();
    assert t[N].parent == Some("root") && t[A].parent == Some(N) && t[X].parent == Some(A);
    assert t[B].parent == Some(N) && t[Y].parent == Some(A);
    assert NonNegative(ONE) && NonNegative(TWO);
    forall p | p in t ensures WellPlaced(t, p) {}
  }

  lemma SiteChains(nmax: Resource, amax: Resource)
    ensures var t := Site(nmax, amax);
      && Chain(t, N) == {"root", N} && Chain(t, A) == {"root", N, A} && Chain(t, X) == {"root", N, A, X}
      && Chain(t, Y) == {"root", N, A, Y} && Chain(t, B) == {"root", N, B}
  {
    var t := Site(nmax, amax);
    Literals();
    assert Chain(t, "root") == {"root"};
    assert Chain(t, N) == {N} + Chain(t, "root");
    assert Chain(t, A) == {A} + Chain(t, N);
  }

  lemma SiteNamespace()
    ensures NamespaceOf(X) == "n" && NamespaceOf(Y) == "n" && NamespaceOf(B) == "n"
  {
    Literals();
    assert ROOT + "." + "n" == N;
    assert PathWithinSubtree(X, N) && PathWithinSubtree(Y, N) && PathWithinSubtree(B, N);
    UnderNamespace(X, "n");
    UnderNamespace(Y, "n");
    UnderNamespace(B, "n");
  }

  /** The service accounts of the site. */
  lemma SiteAccounts(nmax: Resource, amax: Resource, p: string)
    requires p in Site(nmax, amax)
    ensures var n := Site(nmax, amax)[p];
      && !n.defaultLeaf && (n.serviceAccounts != [] ==> n.leaf && p in {X, Y, B})
      && forall sa :: sa in n.serviceAccounts ==> (p, sa) in {(X, "x"), (Y, "y"), (B, "b")}
  {
    Literals();
  }

  lemma SitePlacement(nmax: Resource, amax: Resource)
    ensures ValidPlacement(Site(nmax, amax))
  {
    var t := Site(nmax, amax);
    SiteNamespace();
    forall p | p in t ensures Marked(t[p]) ==> t[p].leaf && NamespaceOf(p) != "" {
      SiteAccounts(nmax, amax, p);
    }
    forall p, q | p in t && q in t && p != q ensures !Clash(t[p], t[q]) {
      SiteAccounts(nmax, amax, p);
      SiteAccounts(nmax, amax, q);
      assert "*" !in t[p].serviceAccounts;
    }
  }

  /** Each leaf of the site takes the service account of its own name. */
  lemma SiteRoute(nmax: Resource, amax: Resource, leaf: string, sa: string)
    requires (leaf, sa) in {(X, "x"), (Y, "y"), (B, "b")}
    ensures Route(Site(nmax, amax), "n", sa) == Some(leaf)
  {
    var t := Site(nmax, amax);
    Literals();
    SiteNamespace();
    SitePlacement(nmax, amax);
    assert ROOT + "." + "n" == N;
    assert Exact(t, "n", sa, leaf);
    assert RouteIs(t, "n", sa, Some(leaf));
    RouteUnique(t, "n", sa, Some(leaf), Route(t, "n", sa));
  }

  lemma SiteBoundary(nmax: Resource, amax: Resource)
    ensures FenceBoundary(Site(nmax, amax), X) == N
    ensures WithinFence(Site(nmax, amax), X, B)
  {
    var t := Site(nmax, amax);
    Literals();
    assert IsTopLevel(t, N) && !IsFence(t, A) && !IsFence(t, X);
    assert FenceBoundary(t, A) == FenceBoundary(t, N) == N;
    assert PathWithinSubtree(B, N);
  }

  // ---------------------------------------------------------------- the run

  /** y's pod is seen bound, then b's. */
  function Fresh(t: Shape): State {
    Init(0).(tree := Some(EmptyTree(t)))
  }

  function WithHeld(t: Shape): State {
    ObserveBound(Fresh(t), "h", Y, TWO)
  }

  function WithBoth(t: Shape): State {
    ObserveBound(WithHeld(t), "p", B, ONE)
  }

  /** Seeing an unknown pod bound raises exactly the queues on its leaf's path. */
  lemma SeenUsage(s: State, uid: string, leaf: string, req: Resource, q: string, d: string)
    requires s.tree.Some? && IsLeaf(s.tree.value.shape, leaf) && uid !in s.book && q in s.tree.value.usage
    ensures var t, t' := s.tree.value, ObserveBound(s, uid, leaf, req).tree.value;
      && t'.shape == t.shape && t'.usage.Keys == t.usage.Keys
      && Get(Used(t'.usage[q]), d) == Get(Used(t.usage[q]), d) + (if OnPath(t.shape, leaf, q) then Get(req, d) else 0)
  {
    ApplyMoves(Allocate, s.tree.value.usage[q], req, d);
  }

  lemma SitePaths(nmax: Resource, amax: Resource, q: string)
    requires q in Site(nmax, amax)
    ensures OnPath(Site(nmax, amax), Y, q) <==> q !in {X, B}
    ensures OnPath(Site(nmax, amax), B, q) <==> q in {"root", N, B}
    ensures OnPath(Site(nmax, amax), X, q) <==> q !in {Y, B}
  {
    Literals();
    SiteChains(nmax, amax);
  }

  /** What each queue uses once y's pod is there, and once both are. */
  lemma SiteUsage(nmax: Resource, amax: Resource, q: string, d: string)
    requires q in Site(nmax, amax)
    ensures var t := Site(nmax, amax);
      && WithHeld(t).tree.Some? && WithHeld(t).tree.value.shape == t && WithHeld(t).tree.value.usage.Keys == t.Keys
      && WithBoth(t).tree.Some? && WithBoth(t).tree.value.shape == t && WithBoth(t).tree.value.usage.Keys == t.Keys
      && Get(Used(WithHeld(t).tree.value.usage[q]), d) == (if q in {X, B} then 0 else Get(TWO, d))
      && Get(Used(WithBoth(t).tree.value.usage[q]), d)
         == (if q in {X, B} then 0 else Get(TWO, d)) + (if q in {"root", N, B} then Get(ONE, d) else 0)
  {
    var t := Site(nmax, amax);
    SitePaths(nmax, amax, q);
    assert IsLeaf(t, Y) && IsLeaf(t, B);
    SeenUsage(Fresh(t), "h", Y, TWO, q, d);
    SeenUsage(WithHeld(t), "p", B, ONE, q, d);
  }

  lemma SiteRun(nmax: Resource, amax: Resource) returns (run: seq<State>, ops: seq<Op>)
    requires NonNegative(nmax) && NonNegative(amax)
    ensures IsRun(run, ops) && run[0] == Init(0) && run[|run| - 1] == WithBoth(Site(nmax, amax))
  {
    var t := Site(nmax, amax);
    SiteWellFormed(nmax, amax);
    FirstTree(0, t);
    run := [Init(0), Fresh(t), WithHeld(t), WithBoth(t)];
    ops := [OpRebuild(t, [], []), OpObserveBound("h", Y, TWO), OpObserveBound("p", B, ONE)];
    ThreeCalls(run[0], run[1], run[2], run[3], ops[0], ops[1], ops[2]);
  }

  // ---------------------------------------------------------------- the decision

  /** What reclaim finds for the starved pod: b's pod, and nothing else. */
  function Chosen(): Choices {
    map["p" := Choice(LENT, B)]
  }

  const POOL := [Victim("p", 0, ONE, true)]

  lemma SiteBudget(nmax: Resource, amax: Resource, leaf: string)
    requires leaf in Site(nmax, amax)
    ensures var t := WithBoth(Site(nmax, amax)).tree;
      t.Some? && leaf in t.value.shape && leaf in t.value.usage && WithinBudget(t.value, Chosen(), 0, leaf)
  {
    SiteUsage(nmax, amax, leaf, "cpu");
    var t := WithBoth(Site(nmax, amax)).tree.value;
    forall d ensures DonorSum(Chosen(), leaf, 0, d) <= Get(Budget(t, leaf), d) {
      SiteUsage(nmax, amax, leaf, d);
      DonorSumAdd(map[], Choice(LENT, B), leaf, 0, d);
      assert map[][LENT.uid := Choice(LENT, B)] == Chosen();
    }
  }

  /** y uses just what it is guaranteed. */
  lemma SiteNothingToGive(nmax: Resource, amax: Resource)
    ensures var t := WithBoth(Site(nmax, amax)).tree;
      t.Some? && Y in t.value.shape && Y in t.value.usage && IsEmpty(Budget(t.value, Y))
  {
    SiteApart(nmax, amax);
    SiteUsage(nmax, amax, Y, "cpu");
    var t := WithBoth(Site(nmax, amax)).tree.value;
    forall d ensures d !in Budget(t, Y) {
      SiteUsage(nmax, amax, Y, d);
    }
  }

  /** A pool of one pod, beside another whose queue has nothing to give. */
  lemma PoolOfOne(t: Tree, asker: string, kept: Pod, home: string, lent: Pod, leaf: string, limit: int)
    requires t.usage.Keys == t.shape.Keys && asker in t.shape && kept.uid != lent.uid && leaf != asker
    requires Route(t.shape, kept.ns, kept.sa) == Some(home) && home in t.shape && IsEmpty(Budget(t, home))
    requires Route(t.shape, lent.ns, lent.sa) == Some(leaf) && IsLeaf(t.shape, leaf)
    requires WithinFence(t.shape, asker, leaf) && NonNegative(lent.req) && lent.priority <= limit
    requires forall q {:trigger WithinBudget(t, map[lent.uid := Choice(lent, leaf)], limit, q)} :: q in t.shape ==>
      WithinBudget(t, map[lent.uid := Choice(lent, leaf)], limit, q)
    ensures var chosen := map[lent.uid := Choice(lent, leaf)];
      VictimPool(t, [kept, lent], asker, Some(asker), limit, [AsVictim(lent)], chosen)
  {
    var pods, chosen := [kept, lent], map[lent.uid := Choice(lent, leaf)];
    assert pods[1] == lent && lent in pods;
    assert LegalDonor(t.shape, pods, asker, chosen[lent.uid]);
    assert Lists([AsVictim(lent)], chosen);
    forall i | 0 <= i < |pods| && pods[i].priority <= limit && pods[i].uid !in chosen
      ensures PassedOver(t, asker, Some(asker), chosen, pods[i])
    {
      assert pods[i] == kept && Refused(t, chosen, home, kept);
    }
  }

  lemma SitePool(nmax: Resource, amax: Resource)
    ensures var t := WithBoth(Site(nmax, amax)).tree;
      && t.Some? && t.value.usage.Keys == t.value.shape.Keys
      && VictimPool(t.value, [HELD, LENT], X, Some(X), 0, POOL, Chosen())
  {
    SiteUsage(nmax, amax, X, "cpu");
    var t := WithBoth(Site(nmax, amax)).tree.value;
    SiteRoute(nmax, amax, B, "b");
    SiteRoute(nmax, amax, Y, "y");
    SiteBoundary(nmax, amax);
    forall leaf | leaf in t.shape ensures WithinBudget(t, Chosen(), 0, leaf) {
      SiteBudget(nmax, amax, leaf);
    }
    SiteNothingToGive(nmax, amax);
    SiteApart(nmax, amax);
    PoolOfOne(t, X, HELD, Y, LENT, B, 0);
  }

  lemma SiteApart(nmax: Resource, amax: Resource)
    ensures var t := Site(nmax, amax);
      X in t && IsLeaf(t, B) && IsLeaf(t, Y) && t[Y].guaranteed == TWO && B != X && HELD.uid != LENT.uid
  {
    Literals();
  }

  /** A lone candidate that is enough is what reclaim selects. */
  lemma SoleCandidate(need: Resource, v: Victim)
    requires NonNegative(need) && !IsEmpty(need) && v.preemptable && NonNegative(v.request)
    requires forall d :: d in need ==> need[d] <= Get(v.request, d)
    ensures Select(need, [v]) == [v]
  {
    SoleCovers(need, v);
    SelectFeasible(need, [v]);
    SelectIsDrawn(need, [v]);
    OnlyOne(Select(need, [v]), v);
  }

  lemma SoleCovers(need: Resource, v: Victim)
    requires v.preemptable && forall d :: d in need ==> need[d] <= Get(v.request, d)
    ensures AllPreemptable([v]) == [v] && Covers(need, multiset([v]))
  {
    assert [v][..0] == [];
    forall d ensures Freed(multiset([v]), d) == Get(v.request, d) {
      FreedSnoc([v], d);
    }
  }

  lemma OnlyOne(s: seq<Victim>, v: Victim)
    requires s != [] && multiset(s) <= multiset([v])
    ensures s == [v]
  {
    assert s[0] in multiset(s);
    if |s| > 1 {
      assert s[1] in multiset(s);
      Sorting.CountedTwice(s, 0, 1);
      assert false;
    }
  }

  lemma SiteStarved(nmax: Resource, amax: Resource)
    requires nmax == TWO || amax == TWO
    ensures var t := WithBoth(Site(nmax, amax)).tree;
      t.Some? && t.value.usage.Keys == t.value.shape.Keys && Starved(t.value, STARVED, X)
  {
    SiteFull(nmax, amax, if nmax == TWO then N else A);
    SiteEntitled(nmax, amax);
    SiteRoute(nmax, amax, X, "x");
    SiteUsage(nmax, amax, X, "cpu");
    MakesStarved(WithBoth(Site(nmax, amax)).tree.value, STARVED, X);
  }

  lemma MakesStarved(t: Tree, p: Pod, leaf: string)
    requires t.usage.Keys == t.shape.Keys && Route(t.shape, p.ns, p.sa) == Some(leaf)
    requires !CanFit(t.shape, t.usage, leaf, p.req) && Entitled(t, leaf, p.req)
    ensures Starved(t, p, leaf)
  {}

  /** The queue whose max is 2 has no room for 1 more, with b's pod or without it. */
  lemma SiteFull(nmax: Resource, amax: Resource, full: string)
    requires (full == N && nmax == TWO) || (full == A && amax == TWO)
    ensures var shape := Site(nmax, amax);
      && WithBoth(shape).tree.Some? && !CanFit(shape, WithBoth(shape).tree.value.usage, X, ONE)
      && WithHeld(shape).tree.Some? && !CanFit(shape, WithHeld(shape).tree.value.usage, X, ONE)
  {
    var shape := Site(nmax, amax);
    Literals();
    SitePaths(nmax, amax, full);
    SiteUsage(nmax, amax, full, "cpu");
    assert shape[full].max == TWO && TWO["cpu"] == 2 && ONE["cpu"] == 1;
    assert !FitsHere(shape[full].max, Used(WithBoth(shape).tree.value.usage[full]), ONE);
    assert !FitsHere(shape[full].max, Used(WithHeld(shape).tree.value.usage[full]), ONE);
  }

  lemma SiteEntitled(nmax: Resource, amax: Resource)
    ensures var t := WithBoth(Site(nmax, amax)).tree;
      t.Some? && t.value.usage.Keys == t.value.shape.Keys && Entitled(t.value, X, ONE)
  {
    Literals();
    SiteUsage(nmax, amax, X, "cpu");
    assert ONE["cpu"] == 1;
  }

  /** The decision reclaim takes for the starved pod. */
  function Verdict(): Decision {
    Decision(Pending(STARVED, 0), X, POOL, Chosen(), POOL)
  }

  lemma SiteSound(nmax: Resource, amax: Resource)
    requires nmax == TWO || amax == TWO
    ensures var t := WithBoth(Site(nmax, amax)).tree;
      t.Some? && t.value.usage.Keys == t.value.shape.Keys && Sound(t.value, [HELD, LENT], Verdict())
  {
    SiteStarved(nmax, amax);
    SitePool(nmax, amax);
    assert ONE["cpu"] == 1;
    SoleCandidate(ONE, POOL[0]);
  }

  /** Evicting b's pod takes the engine back to where it was before that pod was seen. */
  lemma SiteEvicted(nmax: Resource, amax: Resource)
    ensures DeletePods(WithBoth(Site(nmax, amax)), UIDs(POOL)) == WithHeld(Site(nmax, amax))
  {
    var t := Site(nmax, amax);
    assert RoundTrips.ExactState(Fresh(t));
    RoundTrips.BookingExact(Fresh(t), "h", Y, TWO);
    RoundTrips.ObservationUndone(WithHeld(t), "p", B, ONE);
    assert UIDs(POOL) == ["p"];
    DeletePodsSnoc(WithBoth(t), [], "p");
    assert [] + ["p"] == ["p"];
  }

  lemma SiteBooked(nmax: Resource, amax: Resource)
    ensures BookedAsChosen(WithBoth(Site(nmax, amax)), Chosen())
  {
    SiteUsage(nmax, amax, X, "cpu");
    SiteApart(nmax, amax);
    assert "p" in WithBoth(Site(nmax, amax)).book;
  }

  /** A sound decision taken in state `s`, each candidate booked on the leaf it resolves to. */
  ghost predicate SoundHere(s: State, bound: seq<Pod>, d: Decision) {
    && s.tree.Some? && s.tree.value.usage.Keys == s.tree.value.shape.Keys
    && ValidPlacement(s.tree.value.shape) && Sound(s.tree.value, bound, d) && BookedAsChosen(s, d.chosen)
  }

  /** Evicting its victims leaves the starved pod out; each of them has the very priority of the
      pod it is evicted for. */
  ghost predicate OutAfter(s: State, d: Decision) {
    && s.tree.Some? && StillOut(s.tree.value.shape, DeletePods(s, UIDs(d.selected)), d)
    && forall v :: v in d.selected ==> v.priority == d.beneficiary.pod.priority
  }

  ghost predicate InVain(s: State, bound: seq<Pod>, d: Decision) {
    SoundHere(s, bound, d) && OutAfter(s, d)
  }

  ghost predicate StillOut(t: Shape, after: State, d: Decision) {
    after.tree.Some? && !CanFit(t, after.tree.value.usage, d.leaf, d.beneficiary.pod.req)
  }

  lemma SiteInVain(nmax: Resource, amax: Resource)
    requires nmax == TWO || amax == TWO
    ensures InVain(WithBoth(Site(nmax, amax)), [HELD, LENT], Verdict())
  {
    SiteSoundHere(nmax, amax);
    SiteOutAfter(nmax, amax);
  }

  lemma SiteSoundHere(nmax: Resource, amax: Resource)
    requires nmax == TWO || amax == TWO
    ensures SoundHere(WithBoth(Site(nmax, amax)), [HELD, LENT], Verdict())
  {
    SiteUsage(nmax, amax, X, "cpu");
    SitePlacement(nmax, amax);
    SiteSound(nmax, amax);
    SiteBooked(nmax, amax);
  }

  lemma SiteOutAfter(nmax: Resource, amax: Resource)
    requires nmax == TWO || amax == TWO
    ensures OutAfter(WithBoth(Site(nmax, amax)), Verdict())
  {
    SiteUsage(nmax, amax, X, "cpu");
    SiteFull(nmax, amax, if nmax == TWO then N else A);
    SiteEvicted(nmax, amax);
  }

  lemma SiteMax(nmax: Resource, amax: Resource)
    ensures var t := Site(nmax, amax);
      && "root" in t && N in t && A in t && X in t && t["root"].max == map[] && t[X].max == map[]
      && t[N].max == nmax && t[A].max == amax
  {
    Literals();
  }

  lemma SiteWithin(q: string)
    requires var t := Site(map[], TWO); q in t && OnPath(t, FenceBoundary(t, X), q)
    ensures Site(map[], TWO)[q].max == map[]
  {
    SiteBoundary(map[], TWO);
    SiteChains(map[], TWO);
    SiteMax(map[], TWO);
  }

  lemma SiteBelow(q: string)
    requires var t := Site(TWO, map[]); q in t && BelowBoundary(t, X, q)
    ensures Site(TWO, map[])[q].max == map[]
  {
    SiteBoundary(TWO, map[]);
    SiteChains(TWO, map[]);
    SiteMax(TWO, map[]);
  }

  lemma SiteOver()
    ensures var s := WithBoth(Site(TWO, map[]));
      && s.tree.Some? && FenceBoundary(s.tree.value.shape, X) == N && N in s.tree.value.shape && N in s.tree.value.usage
      && !WithinMaxHere(s.tree.value.shape[N].max, Used(s.tree.value.usage[N]))
  {
    SiteMax(TWO, map[]);
    SiteBoundary(TWO, map[]);
    SiteUsage(TWO, map[], N, "cpu");
    assert TWO["cpu"] == 2 && ONE["cpu"] == 1;
  }

  /** First cause: a group between the starved leaf and the fence boundary stays full, while
      the boundary and everything above it are within max. */
  lemma FullGroup() returns (run: seq<State>, ops: seq<Op>, bound: seq<Pod>, d: Decision)
    ensures IsRun(run, ops) && run[0] == Init(0) && InVain(run[|run| - 1], bound, d)
    ensures var t := run[|run| - 1].tree.value;
      forall q :: q in t.shape && OnPath(t.shape, FenceBoundary(t.shape, d.leaf), q) ==>
        WithinMaxHere(t.shape[q].max, Used(t.usage[q]))
  {
    assert NonNegative(TWO);
    run, ops := SiteRun(map[], TWO);
    bound, d := [HELD, LENT], Verdict();
    SiteUsage(map[], TWO, X, "cpu");
    SiteInVain(map[], TWO);
    var t := run[|run| - 1].tree.value;
    forall q | q in t.shape && OnPath(t.shape, FenceBoundary(t.shape, X), q)
      ensures WithinMaxHere(t.shape[q].max, Used(t.usage[q]))
    {
      SiteWithin(q);
    }
  }

  /** Second cause: the boundary itself is over its max, while every queue of the path below it
      has room once the victims are gone. */
  lemma BoundaryOverMax() returns (run: seq<State>, ops: seq<Op>, bound: seq<Pod>, d: Decision)
    ensures IsRun(run, ops) && run[0] == Init(0) && InVain(run[|run| - 1], bound, d)
    ensures var s := run[|run| - 1];
      forall q :: q in s.tree.value.shape && BelowBoundary(s.tree.value.shape, d.leaf, q) ==>
        RoomWithout(s, s.tree.value, d.selected, q, d.beneficiary.pod.req)
    ensures var t, b := run[|run| - 1].tree.value, FenceBoundary(run[|run| - 1].tree.value.shape, d.leaf);
      b in t.shape && !WithinMaxHere(t.shape[b].max, Used(t.usage[b]))
  {
    assert NonNegative(TWO);
    run, ops := SiteRun(TWO, map[]);
    bound, d := [HELD, LENT], Verdict();
    SiteUsage(TWO, map[], X, "cpu");
    SiteInVain(TWO, map[]);
    SiteOver();
    var s := run[|run| - 1];
    forall q | q in s.tree.value.shape && BelowBoundary(s.tree.value.shape, X, q)
      ensures RoomWithout(s, s.tree.value, POOL, q, ONE)
    {
      SiteBelow(q);
    }
  }
}
