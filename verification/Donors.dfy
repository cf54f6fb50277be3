/** Picking eviction candidates from donor queues, each within its reclaimable budget:
    the part shared by queue-level reclaim and node-level preemption
    (pkg/framework/reclaim.go, pkg/plugins/capacity/postfilter.go). */
module Donors {
  import opened Vectors
  import opened Sums
  import opened Paths
  import opened QueueTree
  import opened Victims
  import Sorting

  /** A bound pod; `req` is its effective request. */
  datatype Pod = Pod(uid: string, ns: string, sa: string, priority: int, req: Resource)

  /** A pod chosen for eviction and the donor leaf it resolves to. */
  datatype Choice = Choice(pod: Pod, leaf: string)

  type Choices = map<string, Choice>

  /** The candidate pods of each donor leaf. */
  type Groups = map<string, seq<Pod>>

  function AsVictim(p: Pod): Victim {
    Victim(p.uid, p.priority, p.req, true)
  }

  /** What a queue can give back. */
  function Budget(t: Tree, leaf: string): Resource
    requires leaf in t.shape && leaf in t.usage
  {
    Reclaimable(Used(t.usage[leaf]), t.shape[leaf].guaranteed)
  }

  function Share(c: Choice, leaf: string, limit: int, d: string): int {
    if c.leaf == leaf && c.pod.priority <= limit then Get(c.pod.req, d) else 0
  }

  /** What evicting the chosen pods of `leaf`, up to a priority, frees. */
  ghost function DonorSum(chosen: Choices, leaf: string, limit: int, d: string): int {
    Sum(map u | u in chosen :: Share(chosen[u], leaf, limit, d))
  }

  ghost predicate ChoicesNonNegative(chosen: Choices) {
    forall u :: u in chosen ==> NonNegative(chosen[u].pod.req)
  }

  ghost predicate DistinctUIDs(pods: seq<Pod>) {
    forall i, j :: 0 <= i < j < |pods| ==> pods[i].uid != pods[j].uid
  }

  ghost predicate ApartUIDs(a: seq<Pod>, b: seq<Pod>) {
    forall i, j :: 0 <= i < |a| && 0 <= j < |b| ==> a[i].uid != b[j].uid
  }

  /** The donors are queues of the tree, requests are non-negative, and no uid occurs twice. */
  ghost predicate ProperGroups(t: Shape, groups: Groups) {
    && groups.Keys <= t.Keys
    && (forall leaf, i :: leaf in groups && 0 <= i < |groups[leaf]| ==> NonNegative(groups[leaf][i].req))
    && (forall leaf :: leaf in groups ==> DistinctUIDs(groups[leaf]))
    && forall leaf, leaf' :: leaf in groups && leaf' in groups && leaf != leaf' ==>
      ApartUIDs(groups[leaf], groups[leaf'])
  }

  /** The victims are the chosen pods, each once. */
  ghost predicate Lists(victims: seq<Victim>, chosen: Choices) {
    && (forall i, j :: 0 <= i < j < |victims| ==> victims[i].uid != victims[j].uid)
    && (forall v :: v in victims ==> v.uid in chosen && v == AsVictim(chosen[v.uid].pod))
    && (forall u :: u in chosen ==> chosen[u].pod.uid == u && AsVictim(chosen[u].pod) in victims)
  }

  /** Each choice is a candidate of its donor, no more important than allowed. */
  ghost predicate FromGroups(chosen: Choices, groups: Groups, limit: int) {
    forall u :: u in chosen ==>
      chosen[u].leaf in groups && chosen[u].pod in groups[chosen[u].leaf] && chosen[u].pod.priority <= limit
  }

  /** What is taken from a donor is within its budget. */
  ghost predicate WithinBudget(t: Tree, chosen: Choices, limit: int, leaf: string)
    requires leaf in t.shape && leaf in t.usage
  {
    forall d :: DonorSum(chosen, leaf, limit, d) <= Get(Budget(t, leaf), d)
  }

  /** The pod could not be taken: its donor has nothing to give, or taking it on top of the
      chosen pods that are no more important would exceed the budget. */
  ghost predicate Refused(t: Tree, chosen: Choices, leaf: string, p: Pod)
    requires leaf in t.shape && leaf in t.usage
  {
    IsEmpty(Budget(t, leaf)) ||
    exists d :: DonorSum(chosen, leaf, p.priority, d) + Get(p.req, d) > Get(Budget(t, leaf), d)
  }

  /** No candidate of the donor was passed over without need. */
  ghost predicate Exhausted(t: Tree, chosen: Choices, leaf: string, pods: seq<Pod>, limit: int)
    requires leaf in t.shape && leaf in t.usage
  {
    forall p :: p in pods && p.priority <= limit && p.uid !in chosen ==> Refused(t, chosen, leaf, p)
  }

  // ---------------------------------------------------------------- grouping by donor

  /** A preemptor confined to `boundary` may take from `leaf`; `excluded` is its own leaf,
      when that is off limits. */
  predicate Reachable(leaf: string, boundary: string, excluded: Option<string>) {
    PathWithinSubtree(leaf, boundary) && excluded != Some(leaf)
  }

  /** The groups hold the first `n` pods whose leaf is within reach, each under its leaf. */
  ghost predicate Grouped(pods: seq<Pod>, homes: seq<Option<string>>, boundary: string, excluded: Option<string>,
                          n: nat, groups: Groups)
    requires n <= |pods| && |homes| == |pods|
  {
    && (forall leaf :: leaf in groups ==> Reachable(leaf, boundary, excluded) && groups[leaf] != [])
    && (forall leaf, p :: leaf in groups && p in groups[leaf] ==>
      exists i :: 0 <= i < n && pods[i] == p && homes[i] == Some(leaf))
    && (forall i :: 0 <= i < n && homes[i].Some? && Reachable(homes[i].value, boundary, excluded) ==>
          homes[i].value in groups && pods[i] in groups[homes[i].value])
    && (forall leaf :: leaf in groups ==> DistinctUIDs(groups[leaf]))
  }

  method GroupPods(pods: seq<Pod>, homes: seq<Option<string>>, boundary: string, excluded: Option<string>)
    returns (groups: Groups)
    requires |homes| == |pods| && DistinctUIDs(pods)
    ensures Grouped(pods, homes, boundary, excluded, |pods|, groups)
  {
    groups := map[];
    for n := 0 to |pods|
      invariant Grouped(pods, homes, boundary, excluded, n, groups)
    {
      if homes[n].Some? && Reachable(homes[n].value, boundary, excluded) {
        var leaf := homes[n].value;
        var before := if leaf in groups then groups[leaf] else [];
        GroupOneMore(pods, homes, boundary, excluded, n, groups, before);
        groups := groups[leaf := before + [pods[n]]];
      }
    }
  }

  lemma GroupOneMore(pods: seq<Pod>, homes: seq<Option<string>>, boundary: string, excluded: Option<string>, n: nat,
                     groups: Groups, before: seq<Pod>)
    requires n < |pods| && |homes| == |pods| && DistinctUIDs(pods)
    requires Grouped(pods, homes, boundary, excluded, n, groups)
    requires homes[n].Some? && Reachable(homes[n].value, boundary, excluded)
    requires before == if homes[n].value in groups then groups[homes[n].value] else []
    ensures Grouped(pods, homes, boundary, excluded, n + 1, groups[homes[n].value := before + [pods[n]]])
  {
    var leaf := homes[n].value;
    var groups' := groups[leaf := before + [pods[n]]];
    forall x, p | x in groups' && p in groups'[x]
      ensures exists i :: 0 <= i < n + 1 && pods[i] == p && homes[i] == Some(x)
    {
      if x == leaf && p !in before {
        assert pods[n] == p;
      } else {
        var i :| 0 <= i < n && pods[i] == p && homes[i] == Some(x);
        assert i < n + 1;
      }
    }
    forall k | 0 <= k < |before| ensures before[k].uid != pods[n].uid {
      assert before[k] in before;
      var i :| 0 <= i < n && pods[i] == before[k] && homes[i] == Some(leaf);
    }
  }

  /** Groups of distinct pods on queues of the tree are proper. */
  lemma GroupsProper(t: Shape, pods: seq<Pod>, homes: seq<Option<string>>, boundary: string, excluded: Option<string>,
                     groups: Groups)
    requires |homes| == |pods| && DistinctUIDs(pods) && Grouped(pods, homes, boundary, excluded, |pods|, groups)
    requires forall i :: 0 <= i < |pods| ==> NonNegative(pods[i].req) && (homes[i].Some? ==> homes[i].value in t)
    ensures ProperGroups(t, groups)
  {
    forall leaf | leaf in groups ensures leaf in t {
      var p := groups[leaf][0];
      assert p in groups[leaf];
    }
    forall leaf, i | leaf in groups && 0 <= i < |groups[leaf]| ensures NonNegative(groups[leaf][i].req) {
      assert groups[leaf][i] in groups[leaf];
    }
    forall leaf, leaf' | leaf in groups && leaf' in groups && leaf != leaf'
      ensures ApartUIDs(groups[leaf], groups[leaf'])
    {
      forall i, j | 0 <= i < |groups[leaf]| && 0 <= j < |groups[leaf']|
        ensures groups[leaf][i].uid != groups[leaf'][j].uid
      {
        assert groups[leaf][i] in groups[leaf] && groups[leaf'][j] in groups[leaf'];
        var x :| 0 <= x < |pods| && pods[x] == groups[leaf][i] && homes[x] == Some(leaf);
        var y :| 0 <= y < |pods| && pods[y] == groups[leaf'][j] && homes[y] == Some(leaf');
      }
    }
  }

  // ---------------------------------------------------------------- sums

  lemma DonorSumAdd(chosen: Choices, c: Choice, leaf: string, limit: int, d: string)
    requires c.pod.uid !in chosen
    ensures DonorSum(chosen[c.pod.uid := c], leaf, limit, d)
      == DonorSum(chosen, leaf, limit, d) + Share(c, leaf, limit, d)
  {
    var m := map u | u in chosen :: Share(chosen[u], leaf, limit, d);
    var chosen' := chosen[c.pod.uid := c];
    SumUpdate(m, c.pod.uid, Share(c, leaf, limit, d));
    assert m[c.pod.uid := Share(c, leaf, limit, d)] == map u | u in chosen' :: Share(chosen'[u], leaf, limit, d);
  }

  /** Fewer pods, or a lower limit, free no more. */
  lemma DonorSumMonotone(a: Choices, b: Choices, leaf: string, low: int, high: int, d: string)
    requires low <= high && (forall u :: u in a ==> u in b && a[u] == b[u]) && ChoicesNonNegative(b)
    ensures 0 <= DonorSum(a, leaf, low, d) <= DonorSum(b, leaf, high, d)
  {
    var x := map u | u in a :: Share(a[u], leaf, low, d);
    SumNonNegative(x);
    SumMonotone(x, map u | u in b :: Share(b[u], leaf, high, d));
  }

  /** A donor nothing was chosen from frees nothing. */
  lemma DonorSumNone(chosen: Choices, leaf: string, limit: int, d: string)
    requires forall u :: u in chosen ==> chosen[u].leaf != leaf
    ensures DonorSum(chosen, leaf, limit, d) == 0
  {
    SumSupport(map[], map u | u in chosen :: Share(chosen[u], leaf, limit, d));
  }

  // ---------------------------------------------------------------- the walk over one donor

  ghost predicate SortedPods(pods: seq<Pod>) {
    forall i, j :: 0 <= i < j < |pods| ==> pods[i].priority <= pods[j].priority
  }

  /** Any order by priority: the source's sort is not stable. */
  method SortByPriority(pods: seq<Pod>) returns (sorted: seq<Pod>)
    ensures SortedPods(sorted) && multiset(sorted) == multiset(pods)
  {
    sorted := Sorting.Sort(pods, (a: Pod, b: Pod) => a.priority < b.priority);
  }

  /** The donor's chosen pods are among the first `i`. */
  ghost predicate FromPrefix(leaf: string, pods: seq<Pod>, i: nat, chosen: Choices)
    requires i <= |pods|
  {
    forall u :: u in chosen && chosen[u].leaf == leaf ==> chosen[u].pod in pods[..i]
  }

  ghost predicate RefusedBefore(t: Tree, leaf: string, pods: seq<Pod>, i: nat, limit: int, chosen: Choices)
    requires leaf in t.shape && leaf in t.usage && i <= |pods|
  {
    forall j :: 0 <= j < i && pods[j].priority <= limit && pods[j].uid !in chosen ==> Refused(t, chosen, leaf, pods[j])
  }

  /** Part way through one donor's sorted pods: `evicted` is what its chosen pods free. */
  ghost predicate DonorState(t: Tree, leaf: string, pods: seq<Pod>, i: nat, limit: int, chosen: Choices,
                             evicted: Resource)
    requires leaf in t.shape && leaf in t.usage && i <= |pods|
  {
    && (forall d :: Get(evicted, d) == DonorSum(chosen, leaf, limit, d))
    && FitIn(evicted, Budget(t, leaf))
    && FromPrefix(leaf, pods, i, chosen)
    && RefusedBefore(t, leaf, pods, i, limit, chosen)
    && (forall j :: i <= j < |pods| ==> pods[j].uid !in chosen)
    && ChoicesNonNegative(chosen)
  }

  lemma TakeSum(leaf: string, p: Pod, limit: int, chosen: Choices, evicted: Resource)
    requires (forall d :: Get(evicted, d) == DonorSum(chosen, leaf, limit, d)) && p.uid !in chosen &&
      p.priority <= limit
    ensures forall d :: Get(Add(evicted, p.req), d) == DonorSum(chosen[p.uid := Choice(p, leaf)], leaf, limit, d)
  {
    var c := Choice(p, leaf);
    var chosen' := chosen[p.uid := c];
    forall d ensures Get(Add(evicted, p.req), d) == DonorSum(chosen', leaf, limit, d) {
      DonorSumAdd(chosen, c, leaf, limit, d);
    }
  }

  lemma TakeRefused(t: Tree, leaf: string, pods: seq<Pod>, i: nat, limit: int, chosen: Choices, chosen': Choices)
    requires leaf in t.shape && leaf in t.usage && i < |pods| && RefusedBefore(t, leaf, pods, i, limit, chosen)
    requires chosen' == chosen[pods[i].uid := Choice(pods[i], leaf)] && pods[i].uid !in chosen &&
      ChoicesNonNegative(chosen')
    ensures RefusedBefore(t, leaf, pods, i + 1, limit, chosen')
  {
    forall j | 0 <= j < i + 1 && pods[j].priority <= limit && pods[j].uid !in chosen'
      ensures Refused(t, chosen', leaf, pods[j])
    {
      StillRefused(t, chosen, chosen', leaf, pods[j]);
    }
  }

  lemma TakePrefix(leaf: string, pods: seq<Pod>, i: nat, chosen: Choices)
    requires i < |pods| && FromPrefix(leaf, pods, i, chosen)
    ensures FromPrefix(leaf, pods, i + 1, chosen)
    ensures FromPrefix(leaf, pods, i + 1, chosen[pods[i].uid := Choice(pods[i], leaf)])
  {
    assert pods[..i + 1] == pods[..i] + [pods[i]];
  }

  /** Taking a pod that fits. */
  lemma TakePod(t: Tree, leaf: string, pods: seq<Pod>, i: nat, limit: int, chosen: Choices, evicted: Resource)
    requires leaf in t.shape && leaf in t.usage && i < |pods| && DistinctUIDs(pods) && NonNegative(pods[i].req)
    requires DonorState(t, leaf, pods, i, limit, chosen, evicted) && pods[i].priority <= limit
    requires FitIn(Add(evicted, pods[i].req), Budget(t, leaf))
    ensures DonorState(t, leaf, pods, i + 1, limit, chosen[pods[i].uid := Choice(pods[i], leaf)],
      Add(evicted, pods[i].req))
  {
    TakeSum(leaf, pods[i], limit, chosen, evicted);
    TakeRefused(t, leaf, pods, i, limit, chosen, chosen[pods[i].uid := Choice(pods[i], leaf)]);
    TakePrefix(leaf, pods, i, chosen);
  }

  lemma StillRefused(t: Tree, a: Choices, b: Choices, leaf: string, p: Pod)
    requires leaf in t.shape && leaf in t.usage && Refused(t, a, leaf, p)
    requires (forall u :: u in a ==> u in b && a[u] == b[u]) && ChoicesNonNegative(b)
    ensures Refused(t, b, leaf, p)
  {
    if !IsEmpty(Budget(t, leaf)) {
      var d :| DonorSum(a, leaf, p.priority, d) + Get(p.req, d) > Get(Budget(t, leaf), d);
      DonorSumMonotone(a, b, leaf, p.priority, p.priority, d);
      assert DonorSum(b, leaf, p.priority, d) + Get(p.req, d) > Get(Budget(t, leaf), d);
    }
  }

  /** Passing over a pod that does not fit, or is too important. */
  lemma SkipPod(t: Tree, leaf: string, pods: seq<Pod>, i: nat, limit: int, chosen: Choices, evicted: Resource)
    requires leaf in t.shape && leaf in t.usage && i < |pods| && SortedPods(pods)
    requires DonorState(t, leaf, pods, i, limit, chosen, evicted)
    requires pods[i].priority <= limit ==> !FitIn(Add(evicted, pods[i].req), Budget(t, leaf))
    ensures DonorState(t, leaf, pods, i + 1, limit, chosen, evicted)
  {
    var p := pods[i];
    TakePrefix(leaf, pods, i, chosen);
    if p.priority <= limit {
      var cand := Add(evicted, p.req);
      var d :| d in cand && cand[d] > Get(Budget(t, leaf), d);
      assert Get(cand, d) == Get(evicted, d) + Get(p.req, d);
      SameUpTo(chosen, leaf, p.priority, limit, d);
      assert DonorSum(chosen, leaf, p.priority, d) + Get(p.req, d) > Get(Budget(t, leaf), d);
    }
  }

  /** When no chosen pod of the donor is above `low`, the limit does not matter. */
  lemma SameUpTo(chosen: Choices, leaf: string, low: int, high: int, d: string)
    requires low <= high && forall u :: u in chosen && chosen[u].leaf == leaf ==> chosen[u].pod.priority <= low
    ensures DonorSum(chosen, leaf, low, d) == DonorSum(chosen, leaf, high, d)
  {
    assert (map u | u in chosen :: Share(chosen[u], leaf, low, d))
        == (map u | u in chosen :: Share(chosen[u], leaf, high, d));
  }

  /** Adding one more victim. */
  lemma ListOneMore(victims: seq<Victim>, chosen: Choices, p: Pod, leaf: string)
    requires Lists(victims, chosen) && p.uid !in chosen
    ensures Lists(victims + [AsVictim(p)], chosen[p.uid := Choice(p, leaf)])
  {}

  /** `b` adds to `a` choices from `leaf` only. */
  ghost predicate Extends(a: Choices, b: Choices, leaf: string) {
    && (forall u :: u in a ==> u in b && b[u] == a[u])
    && forall u :: u in b && u !in a ==> b[u].leaf == leaf
  }

  /** The victims so far are those of `chosen0` and pods of the donor's group. */
  ghost predicate Progress(chosen0: Choices, victims: seq<Victim>, chosen: Choices, leaf: string, group: seq<Pod>,
                           limit: int)
  {
    && Lists(victims, chosen)
    && Extends(chosen0, chosen, leaf)
    && forall u :: u in chosen && u !in chosen0 ==> chosen[u].pod in group && chosen[u].pod.priority <= limit
  }

  lemma ProgressTake(chosen0: Choices, victims: seq<Victim>, chosen: Choices, leaf: string, group: seq<Pod>,
                     limit: int, p: Pod)
    requires Progress(chosen0, victims, chosen, leaf, group, limit) && p in group && p.priority <= limit &&
      p.uid !in chosen
    ensures Progress(chosen0, victims + [AsVictim(p)], chosen[p.uid := Choice(p, leaf)], leaf, group, limit)
  {
    ListOneMore(victims, chosen, p, leaf);
  }

  /** The loop over one donor's pods, cheapest first. */
  method WalkDonor(t: Tree, leaf: string, pods: seq<Pod>, limit: int, victims0: seq<Victim>, chosen0: Choices)
    returns (victims: seq<Victim>, chosen: Choices, evicted: Resource)
    requires leaf in t.shape && leaf in t.usage && DistinctUIDs(pods) && SortedPods(pods)
    requires forall i :: 0 <= i < |pods| ==> NonNegative(pods[i].req)
    requires DonorState(t, leaf, pods, 0, limit, chosen0, map[]) && Lists(victims0, chosen0)
    ensures DonorState(t, leaf, pods, |pods|, limit, chosen, evicted)
    ensures Progress(chosen0, victims, chosen, leaf, pods, limit)
  {
    victims, chosen, evicted := victims0, chosen0, map[];
    for i := 0 to |pods|
      invariant DonorState(t, leaf, pods, i, limit, chosen, evicted)
      invariant Progress(chosen0, victims, chosen, leaf, pods, limit)
    {
      var p := pods[i];
      if p.priority <= limit && FitIn(Add(evicted, p.req), Budget(t, leaf)) {
        TakePod(t, leaf, pods, i, limit, chosen, evicted);
        ProgressTake(chosen0, victims, chosen, leaf, pods, limit, p);
        evicted, victims, chosen := Add(evicted, p.req), victims + [AsVictim(p)], chosen[p.uid := Choice(p, leaf)];
      } else {
        SkipPod(t, leaf, pods, i, limit, chosen, evicted);
      }
    }
  }

  /** Takes what one donor can give: each candidate, cheapest first, that still fits. */
  method PickFromDonor(t: Tree, leaf: string, group: seq<Pod>, limit: int, victims0: seq<Victim>, chosen0: Choices)
    returns (victims: seq<Victim>, chosen: Choices)
    requires leaf in t.shape && leaf in t.usage && DistinctUIDs(group)
    requires forall p :: p in group ==> NonNegative(p.req) && p.uid !in chosen0
    requires Lists(victims0, chosen0) && ChoicesNonNegative(chosen0) && forall u :: u in chosen0 ==>
      chosen0[u].leaf != leaf
    ensures Progress(chosen0, victims, chosen, leaf, group, limit) && ChoicesNonNegative(chosen)
    ensures WithinBudget(t, chosen, limit, leaf) && Exhausted(t, chosen, leaf, group, limit)
  {
    victims, chosen := victims0, chosen0;
    forall d ensures DonorSum(chosen, leaf, limit, d) == 0 {
      DonorSumNone(chosen, leaf, limit, d);
    }
    if IsEmpty(Budget(t, leaf)) {
      return;
    }
    var pods := SortByPriority(group);
    SortedDistinct(group, pods);
    var evicted;
    victims, chosen, evicted := WalkDonor(t, leaf, pods, limit, victims0, chosen0);
    DonorDone(t, leaf, group, pods, limit, chosen, evicted);
  }

  lemma SortedDistinct(group: seq<Pod>, pods: seq<Pod>)
    requires DistinctUIDs(group) && multiset(pods) == multiset(group)
    ensures DistinctUIDs(pods) && forall p :: p in pods <==> p in group
  {
    forall p ensures p in pods <==> p in group {
      assert p in pods <==> p in multiset(pods);
      assert p in group <==> p in multiset(group);
    }
    forall i, j | 0 <= i < j < |pods| ensures pods[i].uid != pods[j].uid {
      if pods[i].uid == pods[j].uid {
        TwiceInBag(group, pods, i, j);
      }
    }
  }

  /** Two entries of a bag with one uid would be two entries of the group. */
  lemma TwiceInBag(group: seq<Pod>, pods: seq<Pod>, i: nat, j: nat)
    requires i < j < |pods| && multiset(pods) == multiset(group) && pods[i].uid == pods[j].uid
    ensures !DistinctUIDs(group)
  {
    var p, q := pods[i], pods[j];
    if p == q {
      Sorting.CountedTwice(pods, i, j);
      var x, y := Sorting.TwoPositions(group, p);
      assert group[x].uid == group[y].uid;
    } else {
      assert p in multiset(pods) && q in multiset(pods);
      var x :| 0 <= x < |group| && group[x] == p;
      var y :| 0 <= y < |group| && group[y] == q;
      assert group[x].uid == group[y].uid;
    }
  }

  lemma DonorDone(t: Tree, leaf: string, group: seq<Pod>, pods: seq<Pod>, limit: int, chosen: Choices,
                  evicted: Resource)
    requires leaf in t.shape && leaf in t.usage && (forall p :: p in pods <==> p in group)
    requires DonorState(t, leaf, pods, |pods|, limit, chosen, evicted)
    ensures WithinBudget(t, chosen, limit, leaf) && Exhausted(t, chosen, leaf, group, limit)
  {
    forall d ensures DonorSum(chosen, leaf, limit, d) <= Get(Budget(t, leaf), d) {
      assert Get(evicted, d) == DonorSum(chosen, leaf, limit, d);
    }
    forall p | p in group && p.priority <= limit && p.uid !in chosen ensures Refused(t, chosen, leaf, p) {
      var j :| 0 <= j < |pods| && pods[j] == p;
    }
  }

  // ---------------------------------------------------------------- the walk over all donors

  /** The donor gave no more than its budget and nothing was passed over without need. */
  ghost predicate DonorServed(t: Tree, groups: Groups, limit: int, chosen: Choices, leaf: string)
    requires leaf in groups && leaf in t.shape && leaf in t.usage
  {
    WithinBudget(t, chosen, limit, leaf) && Exhausted(t, chosen, leaf, groups[leaf], limit)
  }

  /** The outcome of picking victims from all donors. */
  ghost predicate Picked(t: Tree, groups: Groups, limit: int, victims: seq<Victim>, chosen: Choices)
    requires groups.Keys <= t.shape.Keys && t.usage.Keys == t.shape.Keys
  {
    && Lists(victims, chosen)
    && ChoicesNonNegative(chosen)
    && FromGroups(chosen, groups, limit)
    && forall leaf {:trigger DonorServed(t, groups, limit, chosen, leaf)} :: leaf in groups ==>
      DonorServed(t, groups, limit, chosen, leaf)
  }

  /** Serving one donor leaves the others as they were. */
  lemma OthersServed(t: Tree, groups: Groups, limit: int, a: Choices, b: Choices, leaf: string, other: string)
    requires other in groups && other in t.shape && other in t.usage && other != leaf
    requires Extends(a, b, leaf) && ChoicesNonNegative(b) && DonorServed(t, groups, limit, a, other)
    ensures DonorServed(t, groups, limit, b, other)
  {
    forall d ensures DonorSum(b, other, limit, d) == DonorSum(a, other, limit, d) {
      SumSupport(map u | u in a :: Share(a[u], other, limit, d), map u | u in b :: Share(b[u], other, limit, d));
    }
    forall p | p in groups[other] && p.priority <= limit && p.uid !in b ensures Refused(t, b, other, p) {
      StillRefused(t, a, b, other, p);
    }
  }

  /** The pods of a donor not walked yet are not among the chosen. */
  lemma GroupUnseen(t: Shape, groups: Groups, limit: int, chosen: Choices, done: set<string>, leaf: string)
    requires ProperGroups(t, groups) && FromGroups(chosen, groups, limit) && leaf in groups && leaf !in done
    requires forall u :: u in chosen ==> chosen[u].pod.uid == u && chosen[u].leaf in done
    ensures forall p :: p in groups[leaf] ==> NonNegative(p.req) && p.uid !in chosen
  {
    forall p | p in groups[leaf] ensures NonNegative(p.req) && p.uid !in chosen {
      var i :| 0 <= i < |groups[leaf]| && groups[leaf][i] == p;
      forall u | u in chosen ensures u != p.uid {
        var c := chosen[u];
        assert ApartUIDs(groups[leaf], groups[c.leaf]);
        var j :| 0 <= j < |groups[c.leaf]| && groups[c.leaf][j] == c.pod;
      }
    }
  }

  /** Serves the donors one by one, in whatever order the map is walked. */
  method PickVictims(t: Tree, groups: Groups, limit: int) returns (victims: seq<Victim>, chosen: Choices)
    requires t.usage.Keys == t.shape.Keys && ProperGroups(t.shape, groups)
    ensures Picked(t, groups, limit, victims, chosen)
  {
    victims, chosen := [], map[];
    var todo := groups.Keys;
    ghost var done: set<string> := {};
    while todo != {}
      invariant done !! todo && done + todo == groups.Keys
      invariant Lists(victims, chosen) && ChoicesNonNegative(chosen) && FromGroups(chosen, groups, limit)
      invariant forall u :: u in chosen ==> chosen[u].leaf in done
      invariant forall leaf {:trigger DonorServed(t, groups, limit, chosen, leaf)} :: leaf in done ==>
        DonorServed(t, groups, limit, chosen, leaf)
      decreases todo
    {
      var leaf :| leaf in todo;
      GroupUnseen(t.shape, groups, limit, chosen, done, leaf);
      victims, chosen := ServeDonor(t, groups, limit, leaf, done, victims, chosen);
      done, todo := done + {leaf}, todo - {leaf};
    }
  }

  method ServeDonor(t: Tree, groups: Groups, limit: int, leaf: string, ghost done: set<string>, victims0: seq<Victim>,
                    chosen0: Choices)
    returns (victims: seq<Victim>, chosen: Choices)
    requires t.usage.Keys == t.shape.Keys && ProperGroups(t.shape, groups) && done <= groups.Keys && leaf in groups &&
      leaf !in done
    requires Lists(victims0, chosen0) && ChoicesNonNegative(chosen0) && FromGroups(chosen0, groups, limit)
    requires forall u :: u in chosen0 ==> chosen0[u].leaf in done
    requires forall p :: p in groups[leaf] ==> NonNegative(p.req) && p.uid !in chosen0
    requires forall x {:trigger DonorServed(t, groups, limit, chosen0, x)} :: x in done ==>
      DonorServed(t, groups, limit, chosen0, x)
    ensures Lists(victims, chosen) && ChoicesNonNegative(chosen) && FromGroups(chosen, groups, limit)
    ensures forall u :: u in chosen ==> chosen[u].leaf in done + {leaf}
    ensures forall x {:trigger DonorServed(t, groups, limit, chosen, x)} :: x in done + {leaf} ==>
      DonorServed(t, groups, limit, chosen, x)
  {
    assert DistinctUIDs(groups[leaf]);
    victims, chosen := PickFromDonor(t, leaf, groups[leaf], limit, victims0, chosen0);
    forall x | x in done ensures DonorServed(t, groups, limit, chosen, x) {
      OthersServed(t, groups, limit, chosen0, chosen, leaf, x);
    }
    assert DonorServed(t, groups, limit, chosen, leaf);
  }
}
