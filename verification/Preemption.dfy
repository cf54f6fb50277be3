/** Node-level preemption (pkg/plugins/capacity/postfilter.go): choosing one node and a set
    of victims on it whose eviction makes room, within donor budgets, the asker's fence and
    disruption budgets. */
module Preemption {
  import opened Vectors
  import opened QueueTree
  import opened Fences
  import opened Ledger
  import opened Placement
  import opened Victims
  import opened VictimsInPlace
  import opened Donors
  import opened Evictions
  import opened Reclaim
  import Sorting

  /** A pod on a node, with what the eligibility filter looks at. */
  datatype NodePod = NodePod(pod: Pod, ours: bool, deleting: bool, gangMember: bool)

  datatype NodeInfo = NodeInfo(name: string, inPool: bool, allocatable: Resource, requested: Resource,
                               pods: seq<NodePod>)

  /** A disruption budget: how many disruptions it still allows, and the pods it covers. */
  datatype DisruptionBudget = DisruptionBudget(key: string, allowed: int, covers: set<string>)

  function Available(n: NodeInfo): Resource {
    ClampNonNeg(Sub(n.allocatable, n.requested))
  }

  function Deficit(n: NodeInfo, req: Resource): Resource {
    ClampNonNeg(Sub(req, Available(n)))
  }

  /** The pod may be considered at all: one of ours, staying, no gang member, and of
      strictly lower priority than the incoming pod. */
  predicate Evictable(p: NodePod, incoming: int) {
    p.ours && !p.deleting && !p.gangMember && p.pod.priority < incoming
  }

  function EvictablePods(pods: seq<NodePod>, incoming: int): seq<Pod> {
    if pods == [] then []
    else
      var rest := EvictablePods(pods[..|pods| - 1], incoming);
      var p := pods[|pods| - 1];
      if Evictable(p, incoming) then rest + [p.pod] else rest
  }

  ghost predicate DistinctNodePods(pods: seq<NodePod>) {
    forall i, j :: 0 <= i < j < |pods| ==> pods[i].pod.uid != pods[j].pod.uid
  }

  /** `p` is one of the node's pods that may be considered. */
  ghost predicate EvictableOn(pods: seq<NodePod>, incoming: int, p: Pod) {
    exists i :: 0 <= i < |pods| && pods[i].pod == p && pods[i].ours && !pods[i].deleting && !pods[i].gangMember &&
      p.priority < incoming
  }

  /** Exactly the evictable pods of the node are considered, each once. */
  lemma {:induction false} EvictablePodsAre(pods: seq<NodePod>, incoming: int)
    requires DistinctNodePods(pods)
    ensures forall p :: p in EvictablePods(pods, incoming) <==> EvictableOn(pods, incoming, p)
    ensures DistinctUIDs(EvictablePods(pods, incoming))
    decreases |pods|
  {
    if pods != [] {
      var n := |pods| - 1;
      var rest := EvictablePods(pods[..n], incoming);
      EvictablePodsAre(pods[..n], incoming);
      forall p ensures EvictableOn(pods, incoming, p)
          <==> EvictableOn(pods[..n], incoming, p) || (pods[n].pod == p && Evictable(pods[n], incoming))
      {
        EvictableOnSnoc(pods, n, incoming, p);
      }
      forall p | p in rest ensures p.uid != pods[n].pod.uid {
        var i :| 0 <= i < n && pods[..n][i].pod == p;
        assert pods[i].pod == p;
      }
    }
  }

  lemma EvictableOnSnoc(pods: seq<NodePod>, n: nat, incoming: int, p: Pod)
    requires |pods| == n + 1
    ensures EvictableOn(pods, incoming, p)
       <==> EvictableOn(pods[..n], incoming, p) || (pods[n].pod == p && Evictable(pods[n], incoming))
  {
    assert forall i :: 0 <= i < n ==> pods[..n][i] == pods[i];
  }

  /** How many of the victims a budget covers. */
  function Disruptions(b: DisruptionBudget, victims: seq<Victim>): nat {
    if victims == [] then 0
    else Disruptions(b, victims[..|victims| - 1]) + (if victims[|victims| - 1].uid in b.covers then 1 else 0)
  }

  /** The disruptions a budget can bear. */
  function Bearable(b: DisruptionBudget): nat {
    if b.allowed > 0 then b.allowed else 0
  }

  ghost predicate DistinctKeys(budgets: seq<DisruptionBudget>) {
    forall i, j :: 0 <= i < j < |budgets| ==> budgets[i].key != budgets[j].key
  }

  /** `remaining` is what each budget met so far has left after `kept`. */
  ghost predicate Accounted(budgets: seq<DisruptionBudget>, kept: seq<Victim>, remaining: map<string, int>) {
    forall i :: 0 <= i < |budgets| ==>
      && Disruptions(budgets[i], kept) <= Bearable(budgets[i])
      && (budgets[i].key in remaining ==>
            remaining[budgets[i].key] == budgets[i].allowed - Disruptions(budgets[i], kept))
      && (budgets[i].key !in remaining ==> Disruptions(budgets[i], kept) == 0)
  }

  /** A budget covering the victim has nothing left. */
  ghost predicate Blocked(budgets: seq<DisruptionBudget>, kept: seq<Victim>, v: Victim) {
    exists i :: 0 <= i < |budgets| && v.uid in budgets[i].covers &&
      Disruptions(budgets[i], kept) >= Bearable(budgets[i])
  }

  lemma DisruptionsSnoc(b: DisruptionBudget, kept: seq<Victim>, v: Victim)
    ensures Disruptions(b, kept + [v]) == Disruptions(b, kept) + (if v.uid in b.covers then 1 else 0)
  {
    assert (kept + [v])[..|kept|] == kept;
  }

  /** The first pass over a victim's budgets: each is looked up once, and one with nothing
      left blocks the victim. */
  method CheckBudgets(budgets: seq<DisruptionBudget>, v: Victim, ghost kept: seq<Victim>, before: map<string, int>)
    returns (blocked: bool, remaining: map<string, int>)
    requires DistinctKeys(budgets) && Accounted(budgets, kept, before)
    ensures Accounted(budgets, kept, remaining)
    ensures blocked ==> Blocked(budgets, kept, v)
    ensures !blocked ==> forall i :: 0 <= i < |budgets| && v.uid in budgets[i].covers ==>
      budgets[i].key in remaining && remaining[budgets[i].key] > 0
  {
    remaining := before;
    for i := 0 to |budgets|
      invariant Accounted(budgets, kept, remaining)
      invariant forall j :: 0 <= j < i && v.uid in budgets[j].covers ==>
        budgets[j].key in remaining && remaining[budgets[j].key] > 0
    {
      if v.uid in budgets[i].covers {
        if budgets[i].key !in remaining {
          remaining := remaining[budgets[i].key := budgets[i].allowed];
        }
        if remaining[budgets[i].key] <= 0 {
          return true, remaining;
        }
      }
    }
    blocked := false;
  }

  /** The second pass: every covering budget is charged. */
  method ChargeBudgets(budgets: seq<DisruptionBudget>, v: Victim, ghost kept: seq<Victim>, before: map<string, int>)
    returns (remaining: map<string, int>)
    requires DistinctKeys(budgets) && Accounted(budgets, kept, before)
    requires forall i :: 0 <= i < |budgets| && v.uid in budgets[i].covers ==>
      budgets[i].key in before && before[budgets[i].key] > 0
    ensures Accounted(budgets, kept + [v], remaining)
  {
    remaining := before;
    for i := 0 to |budgets|
      invariant remaining.Keys == before.Keys
      invariant forall j :: i <= j < |budgets| && budgets[j].key in before ==>
        remaining[budgets[j].key] == before[budgets[j].key]
      invariant forall j :: 0 <= j < i && budgets[j].key in before ==>
        remaining[budgets[j].key] == before[budgets[j].key] - (if v.uid in budgets[j].covers then 1 else 0)
    {
      if v.uid in budgets[i].covers {
        remaining := remaining[budgets[i].key := remaining[budgets[i].key] - 1];
      }
    }
    forall i | 0 <= i < |budgets|
      ensures Disruptions(budgets[i], kept + [v])
           == Disruptions(budgets[i], kept) + (if v.uid in budgets[i].covers then 1 else 0)
    {
      DisruptionsSnoc(budgets[i], kept, v);
    }
  }

  /** The victim was spared because, counting only kept victims that are no more important,
      a budget covering it had nothing left. */
  ghost predicate Spared(budgets: seq<DisruptionBudget>, kept: seq<Victim>, v: Victim) {
    exists k :: 0 <= k <= |kept| && (forall j :: 0 <= j < k ==> kept[j].priority <= v.priority) &&
      Blocked(budgets, kept[..k], v)
  }

  /** Part way through the sorted victims: each of the first `n` is kept or spared. */
  ghost predicate Filtered(budgets: seq<DisruptionBudget>, sorted: seq<Victim>, n: nat, kept: seq<Victim>)
    requires n <= |sorted|
  {
    && multiset(kept) <= multiset(sorted[..n])
    && (forall i :: 0 <= i < n ==> sorted[i] in kept || Spared(budgets, kept, sorted[i]))
    && (forall j :: 0 <= j < |kept| ==> kept[j] in sorted[..n])
  }

  lemma SpareNext(budgets: seq<DisruptionBudget>, sorted: seq<Victim>, n: nat, kept: seq<Victim>)
    requires n < |sorted| && SortedByPriority(sorted) && Filtered(budgets, sorted, n, kept) &&
      Blocked(budgets, kept, sorted[n])
    ensures Filtered(budgets, sorted, n + 1, kept)
  {
    assert sorted[..n + 1] == sorted[..n] + [sorted[n]];
    assert kept[..|kept|] == kept;
    forall j | 0 <= j < |kept| ensures kept[j].priority <= sorted[n].priority {
      assert kept[j] in sorted[..n];
    }
    assert Spared(budgets, kept, sorted[n]);
  }

  lemma KeepNext(budgets: seq<DisruptionBudget>, sorted: seq<Victim>, n: nat, kept: seq<Victim>)
    requires n < |sorted| && Filtered(budgets, sorted, n, kept)
    ensures Filtered(budgets, sorted, n + 1, kept + [sorted[n]])
  {
    assert sorted[..n + 1] == sorted[..n] + [sorted[n]];
    var more := kept + [sorted[n]];
    forall i | 0 <= i < n + 1 ensures sorted[i] in more || Spared(budgets, more, sorted[i]) {
      if i < n && sorted[i] !in kept {
        StaysSpared(budgets, kept, sorted[n], sorted[i]);
      }
    }
  }

  lemma AllFiltered(budgets: seq<DisruptionBudget>, victims: seq<Victim>, sorted: seq<Victim>, kept: seq<Victim>)
    requires multiset(sorted) == multiset(victims) && Filtered(budgets, sorted, |sorted|, kept)
    ensures multiset(kept) <= multiset(victims)
    ensures forall v :: v in victims && v !in kept ==> Spared(budgets, kept, v)
  {
    assert sorted[..|sorted|] == sorted;
    forall v | v in victims && v !in kept ensures Spared(budgets, kept, v) {
      assert v in multiset(sorted);
    }
  }

  /** Drops victims whose eviction would breach a disruption budget, spending the budgets on
      the least important victims first. */
  method FilterProtected(victims: seq<Victim>, budgets: seq<DisruptionBudget>) returns (kept: seq<Victim>)
    requires DistinctKeys(budgets)
    ensures multiset(kept) <= multiset(victims)
    ensures forall i :: 0 <= i < |budgets| ==> Disruptions(budgets[i], kept) <= Bearable(budgets[i])
    ensures forall v :: v in victims && v !in kept ==> Spared(budgets, kept, v)
  {
    var sorted := SortVictims(victims);
    var remaining: map<string, int> := map[];
    kept := [];
    for n := 0 to |sorted|
      invariant Accounted(budgets, kept, remaining) && Filtered(budgets, sorted, n, kept)
    {
      var blocked;
      blocked, remaining := CheckBudgets(budgets, sorted[n], kept, remaining);
      if blocked {
        SpareNext(budgets, sorted, n, kept);
      } else {
        remaining := ChargeBudgets(budgets, sorted[n], kept, remaining);
        KeepNext(budgets, sorted, n, kept);
        kept := kept + [sorted[n]];
      }
    }
    AllFiltered(budgets, victims, sorted, kept);
  }

  method SortVictims(victims: seq<Victim>) returns (sorted: seq<Victim>)
    ensures SortedByPriority(sorted) && multiset(sorted) == multiset(victims)
  {
    sorted := Sorting.Sort(victims, (a: Victim, b: Victim) => a.priority < b.priority);
  }

  lemma StaysSpared(budgets: seq<DisruptionBudget>, kept: seq<Victim>, v: Victim, w: Victim)
    requires Spared(budgets, kept, w)
    ensures Spared(budgets, kept + [v], w)
  {
    var k :| 0 <= k <= |kept| && (forall j :: 0 <= j < k ==> kept[j].priority <= w.priority) &&
      Blocked(budgets, kept[..k], w);
    assert (kept + [v])[..k] == kept[..k];
  }

  lemma {:induction false} DisruptionsConcat(b: DisruptionBudget, x: seq<Victim>, y: seq<Victim>)
    ensures Disruptions(b, x + y) == Disruptions(b, x) + Disruptions(b, y)
    decreases |y|
  {
    if y == [] {
      assert x + y == x;
    } else {
      var n := |y| - 1;
      DisruptionsConcat(b, x, y[..n]);
      assert x + y == (x + y[..n]) + [y[n]] && y == y[..n] + [y[n]];
      DisruptionsSnoc(b, x + y[..n], y[n]);
    }
  }

  lemma DisruptionsRemoveAt(b: DisruptionBudget, y: seq<Victim>, k: nat)
    requires k < |y|
    ensures Disruptions(b, y) == Disruptions(b, y[..k] + y[k + 1..]) + (if y[k].uid in b.covers then 1 else 0)
  {
    DisruptionsBetween(b, y[..k], y[k], y[k + 1..]);
    assert y == y[..k] + [y[k]] + y[k + 1..];
  }

  lemma DisruptionsBetween(b: DisruptionBudget, x: seq<Victim>, v: Victim, y: seq<Victim>)
    ensures Disruptions(b, x + [v] + y) == Disruptions(b, x + y) + (if v.uid in b.covers then 1 else 0)
  {
    DisruptionsSnoc(b, x, v);
    DisruptionsConcat(b, x + [v], y);
    DisruptionsConcat(b, x, y);
  }

  lemma BagWithout(x: seq<Victim>, y: seq<Victim>, k: nat)
    requires x != [] && multiset(x) <= multiset(y) && k < |y| && y[k] == x[|x| - 1]
    ensures multiset(x[..|x| - 1]) <= multiset(y[..k] + y[k + 1..])
  {
    var n := |x| - 1;
    assert x == x[..n] + [x[n]];
    RemoveAt(y, k);
    forall w ensures multiset(x[..n])[w] <= multiset(y[..k] + y[k + 1..])[w] {
      assert multiset(x)[w] <= multiset(y)[w];
    }
  }

  /** Fewer victims disrupt no more. */
  lemma {:induction false} DisruptionsMonotone(b: DisruptionBudget, x: seq<Victim>, y: seq<Victim>)
    requires multiset(x) <= multiset(y)
    ensures Disruptions(b, x) <= Disruptions(b, y)
    decreases |x|
  {
    if x != [] {
      var v := x[|x| - 1];
      assert v in multiset(x) && v in multiset(y);
      var k :| 0 <= k < |y| && y[k] == v;
      BagWithout(x, y, k);
      DisruptionsMonotone(b, x[..|x| - 1], y[..k] + y[k + 1..]);
      DisruptionsRemoveAt(b, y, k);
    }
  }

  // ---------------------------------------------------------------- one node

  /** The search on one node: the pool, what the disruption budgets leave, the selection. */
  datatype Attempt = Attempt(victims: seq<Victim>, chosen: Choices, kept: seq<Victim>, selected: seq<Victim>)

  /** What the incoming pod asks for. */
  datatype Ask = Ask(leaf: string, req: Resource, priority: int)

  ghost predicate ProperNode(n: NodeInfo) {
    n.name != "" && DistinctNodePods(n.pods) && forall i :: 0 <= i < |n.pods| ==> NonNegative(n.pods[i].pod.req)
  }

  /** The node is worth a search: in the pool and short of something. */
  predicate Searched(n: NodeInfo, ask: Ask) {
    n.inPool && !IsEmpty(Deficit(n, ask.req))
  }

  /** The victims of a node that may be put forward: the pool, and what the disruption
      budgets leave of it. */
  ghost predicate Screened(t: Tree, n: NodeInfo, ask: Ask, budgets: seq<DisruptionBudget>, a: Attempt)
    requires t.usage.Keys == t.shape.Keys
  {
    && VictimPool(t, EvictablePods(n.pods, ask.priority), ask.leaf, None, ask.priority - 1, a.victims, a.chosen)
    && multiset(a.kept) <= multiset(a.victims)
    && forall i :: 0 <= i < |budgets| ==> Disruptions(budgets[i], a.kept) <= Bearable(budgets[i])
  }

  /** A set of victims the node search may put forward. */
  ghost predicate Proposed(t: Tree, n: NodeInfo, ask: Ask, budgets: seq<DisruptionBudget>, a: Attempt)
    requires t.usage.Keys == t.shape.Keys
  {
    Screened(t, n, ask, budgets, a) && Drawn(Deficit(n, ask.req), a.kept, a.selected)
  }

  /** What the search on one node came to. */
  ghost predicate Attempted(t: Tree, n: NodeInfo, ask: Ask, budgets: seq<DisruptionBudget>, a: Attempt)
    requires t.usage.Keys == t.shape.Keys
  {
    if !Searched(n, ask) then a.selected == []
    else
      && Screened(t, n, ask, budgets, a)
      && (forall v :: v in a.victims && v !in a.kept ==> Spared(budgets, a.kept, v))
      && a.selected == Select(Deficit(n, ask.req), a.kept)
  }

  method TryNode(t: Tree, leaves: seq<string>, n: NodeInfo, ask: Ask, budgets: seq<DisruptionBudget>)
    returns (a: Attempt)
    requires t.usage.Keys == t.shape.Keys && ValidPlacement(t.shape)
    requires (forall p :: p in leaves <==> IsLeaf(t.shape, p)) && ProperNode(n) && DistinctKeys(budgets)
    ensures Attempted(t, n, ask, budgets, a)
  {
    if !Searched(n, ask) {
      return Attempt([], map[], [], []);
    }
    var pods := EvictablePods(n.pods, ask.priority);
    EvictablePodsAre(n.pods, ask.priority);
    forall i | 0 <= i < |pods| ensures NonNegative(pods[i].req) {
      assert pods[i] in pods;
    }
    var victims, chosen := BuildVictims(t, leaves, pods, ask.leaf, None, ask.priority - 1);
    var kept := FilterProtected(victims, budgets);
    var selected := SelectVictims(Deficit(n, ask.req), kept);
    return Attempt(victims, chosen, kept, selected);
  }

  /** The attempt at `k` is best: its set is as small as any other node's, and smaller than
      those of the nodes tried before it. */
  ghost predicate Best(attempts: seq<Attempt>, k: nat, a: Attempt) {
    && k < |attempts| && attempts[k] == a && a.selected != []
    && (forall i :: 0 <= i < |attempts| && attempts[i].selected != [] ==> |a.selected| <= |attempts[i].selected|)
    && (forall i :: 0 <= i < k && attempts[i].selected != [] ==> |a.selected| < |attempts[i].selected|)
  }

  /** `attempts` holds what the searches on the first nodes came to, node by node. */
  ghost predicate AllAttempted(t: Tree, nodes: seq<NodeInfo>, ask: Ask, budgets: seq<DisruptionBudget>,
                               attempts: seq<Attempt>)
    requires t.usage.Keys == t.shape.Keys
    decreases |attempts|
  {
    |attempts| <= |nodes| && (attempts == [] ||
      var n := |attempts| - 1;
      Attempted(t, nodes[n], ask, budgets, attempts[n]) && AllAttempted(t, nodes, ask, budgets, attempts[..n]))
  }

  lemma {:induction false} AttemptedAt(t: Tree, nodes: seq<NodeInfo>, ask: Ask, budgets: seq<DisruptionBudget>,
                                       attempts: seq<Attempt>, i: nat)
    requires t.usage.Keys == t.shape.Keys && AllAttempted(t, nodes, ask, budgets, attempts) && i < |attempts|
    ensures Attempted(t, nodes[i], ask, budgets, attempts[i])
    decreases |attempts|
  {
    var n := |attempts| - 1;
    if i < n {
      AttemptedAt(t, nodes, ask, budgets, attempts[..n], i);
    }
  }

  /** No attempt found a set. */
  ghost predicate NoneFound(attempts: seq<Attempt>) {
    forall i :: 0 <= i < |attempts| ==> attempts[i].selected == []
  }

  /** Tries every candidate node and keeps the first with the fewest victims. `attempts` are
      the searches this call made, one per node, and `k` is the node it settled on. */
  method PostFilter(t: Tree, leaves: seq<string>, nodes: seq<NodeInfo>, ask: Ask, budgets: seq<DisruptionBudget>)
    returns (best: string, a: Attempt, ghost attempts: seq<Attempt>, ghost k: nat)
    requires t.usage.Keys == t.shape.Keys && ValidPlacement(t.shape)
    requires (forall p :: p in leaves <==> IsLeaf(t.shape, p)) && DistinctKeys(budgets)
    requires forall i :: 0 <= i < |nodes| ==> ProperNode(nodes[i])
    ensures |attempts| == |nodes| && AllAttempted(t, nodes, ask, budgets, attempts)
    ensures best == "" ==> NoneFound(attempts)
    ensures best != "" ==> k < |nodes| && nodes[k].name == best && Best(attempts, k, a)
    ensures best != "" ==> Proposed(t, nodes[k], ask, budgets, a)
    ensures best != "" ==>
      exists i :: 0 <= i < |nodes| && nodes[i].name == best && Proposed(t, nodes[i], ask, budgets, a)
  {
    best, a, attempts, k := "", Attempt([], map[], [], []), [], 0;
    for i := 0 to |nodes|
      invariant |attempts| == i && AllAttempted(t, nodes, ask, budgets, attempts)
      invariant best == "" ==> NoneFound(attempts)
      invariant best != "" ==> k < i && nodes[k].name == best && Best(attempts, k, a)
    {
      var x := TryNode(t, leaves, nodes[i], ask, budgets);
      AttemptedSnoc(t, nodes, ask, budgets, attempts, x);
      BestStep(attempts, k, a, x);
      attempts := attempts + [x];
      if x.selected != [] && (best == "" || |x.selected| < |a.selected|) {
        best, a, k := nodes[i].name, x, i;
      }
    }
    if best != "" {
      BestProposed(t, nodes, ask, budgets, attempts, k, a);
    }
  }

  lemma AttemptedSnoc(t: Tree, nodes: seq<NodeInfo>, ask: Ask, budgets: seq<DisruptionBudget>,
                      attempts: seq<Attempt>, x: Attempt)
    requires t.usage.Keys == t.shape.Keys && |attempts| < |nodes|
    requires AllAttempted(t, nodes, ask, budgets, attempts)
    requires Attempted(t, nodes[|attempts|], ask, budgets, x)
    ensures AllAttempted(t, nodes, ask, budgets, attempts + [x])
  {
    assert (attempts + [x])[..|attempts|] == attempts;
  }

  lemma BestProposed(t: Tree, nodes: seq<NodeInfo>, ask: Ask, budgets: seq<DisruptionBudget>,
                     attempts: seq<Attempt>, k: nat, a: Attempt)
    requires t.usage.Keys == t.shape.Keys && AllAttempted(t, nodes, ask, budgets, attempts) && Best(attempts, k, a)
    ensures Proposed(t, nodes[k], ask, budgets, a)
  {
    AttemptedAt(t, nodes, ask, budgets, attempts, k);
    ScreenedSelection(t, nodes[k], ask, budgets, a);
  }

  /** A set selected from what the disruption budgets leave covers the deficit. */
  lemma ScreenedSelection(t: Tree, n: NodeInfo, ask: Ask, budgets: seq<DisruptionBudget>, a: Attempt)
    requires t.usage.Keys == t.shape.Keys && Screened(t, n, ask, budgets, a)
    ensures Select(Deficit(n, ask.req), a.kept) != [] ==>
      Drawn(Deficit(n, ask.req), a.kept, Select(Deficit(n, ask.req), a.kept))
  {
    DrawnFromChosen(a.victims, a.chosen, a.kept);
    if Select(Deficit(n, ask.req), a.kept) != [] {
      SelectIsDrawn(Deficit(n, ask.req), a.kept);
    }
  }

  lemma BestStep(attempts: seq<Attempt>, k: nat, a: Attempt, x: Attempt)
    ensures NoneFound(attempts) && x.selected == [] ==> NoneFound(attempts + [x])
    ensures NoneFound(attempts) && x.selected != [] ==> Best(attempts + [x], |attempts|, x)
    ensures Best(attempts, k, a) && x.selected != [] && |x.selected| < |a.selected| ==>
      Best(attempts + [x], |attempts|, x)
    ensures Best(attempts, k, a) && !(x.selected != [] && |x.selected| < |a.selected|) ==> Best(attempts + [x], k, a)
  {}

  // ---------------------------------------------------------------- what the chosen set guarantees

  lemma ProposedFromChosen(t: Tree, n: NodeInfo, ask: Ask, budgets: seq<DisruptionBudget>, a: Attempt)
    requires t.usage.Keys == t.shape.Keys && Proposed(t, n, ask, budgets, a)
    ensures multiset(a.selected) <= multiset(a.victims) && RequestsNonNegative(multiset(a.selected))
    ensures forall v :: v in a.selected ==> v.uid in a.chosen && v == AsVictim(a.chosen[v.uid].pod)
  {
    assert multiset(a.selected) <= multiset(a.victims);
    DrawnFromChosen(a.victims, a.chosen, a.selected);
  }

  /** What the node has left on one dimension: allocatable less requested, or nothing. */
  function Left(n: NodeInfo, d: string): int {
    var left := Get(n.allocatable, d) - Get(n.requested, d);
    if left > 0 then left else 0
  }

  /** The set makes the pod fit the node: on every dimension the request is at most what the node
      has left plus what the victims free. */
  lemma PreemptionMakesRoom(t: Tree, n: NodeInfo, ask: Ask, budgets: seq<DisruptionBudget>, a: Attempt, d: string)
    requires t.usage.Keys == t.shape.Keys && Proposed(t, n, ask, budgets, a)
    ensures Get(ask.req, d) <= Left(n, d) + Freed(multiset(a.selected), d)
  {
    assert Get(Available(n), d) == Left(n, d);
    if d in Deficit(n, ask.req) {
      assert Deficit(n, ask.req)[d] <= Freed(multiset(a.selected), d);
    } else {
      ProposedFromChosen(t, n, ask, budgets, a);
      FreedBelow(multiset{}, multiset(a.selected), d);
    }
  }

  lemma DeficitIs(n: NodeInfo, req: Resource, d: string)
    ensures Get(Deficit(n, req), d) == if Get(req, d) > Left(n, d) then Get(req, d) - Left(n, d) else 0
  {
    assert Get(Available(n), d) == Left(n, d);
  }

  /** A node is searched exactly when it is in the pool and, on some dimension, the request
      exceeds what the node has left. */
  lemma SearchedExact(n: NodeInfo, ask: Ask)
    ensures Searched(n, ask) <==> n.inPool && exists d :: Get(ask.req, d) > Left(n, d)
  {
    forall d ensures Get(Deficit(n, ask.req), d) > 0 <==> Get(ask.req, d) > Left(n, d) {
      DeficitIs(n, ask.req, d);
    }
    if d :| Get(ask.req, d) > Left(n, d) {
      assert Get(Deficit(n, ask.req), d) > 0;
    }
    if d :| d in Deficit(n, ask.req) && Deficit(n, ask.req)[d] != 0 {
      assert Get(Deficit(n, ask.req), d) > 0;
    }
  }

  /** A selection that comes back empty was hopeless: some dimension of the need exceeds what all
      the victims free together. */
  lemma NothingCovers(t: Tree, n: NodeInfo, ask: Ask, budgets: seq<DisruptionBudget>, a: Attempt, need: Resource)
    returns (d: string)
    requires t.usage.Keys == t.shape.Keys && Screened(t, n, ask, budgets, a)
    requires NonNegative(need) && !IsEmpty(need) && Select(need, a.kept) == []
    ensures d in need && need[d] > Freed(multiset(a.kept), d)
  {
    DrawnFromChosen(a.victims, a.chosen, a.kept);
    assert forall v :: v in multiset(a.kept) ==> v in a.kept && v.preemptable;
    if Covers(need, multiset(a.kept)) {
      CoverGrows(need, a.kept, multiset(a.kept));
      SelectFeasible(need, a.kept);
      assert false;
    }
    d :| d in need && need[d] > Freed(multiset(a.kept), d);
  }

  /** A node that is searched and yields nothing cannot make room: even with all the victims that
      the disruption budgets leave, the pod does not fit. */
  lemma FruitlessNode(t: Tree, nodes: seq<NodeInfo>, ask: Ask, budgets: seq<DisruptionBudget>, attempts: seq<Attempt>,
                      i: nat)
    requires t.usage.Keys == t.shape.Keys && AllAttempted(t, nodes, ask, budgets, attempts)
    requires i < |attempts| && attempts[i].selected == []
    ensures nodes[i].inPool && (exists d :: Get(ask.req, d) > Left(nodes[i], d)) ==>
      && Screened(t, nodes[i], ask, budgets, attempts[i])
      && exists d :: Get(ask.req, d) > Left(nodes[i], d) + Freed(multiset(attempts[i].kept), d)
  {
    var n, a := nodes[i], attempts[i];
    AttemptedAt(t, nodes, ask, budgets, attempts, i);
    SearchedExact(n, ask);
    if Searched(n, ask) {
      var d := NothingCovers(t, n, ask, budgets, a, Deficit(n, ask.req));
      DeficitIs(n, ask.req, d);
      assert Get(ask.req, d) > Left(n, d) + Freed(multiset(a.kept), d);
    }
  }

  /** Its victims are evictable pods of that node, strictly below the incoming priority, and
      inside the asker's fence. */
  lemma PreemptionVictimsLegal(t: Tree, n: NodeInfo, ask: Ask, budgets: seq<DisruptionBudget>, a: Attempt, v: Victim)
    requires t.usage.Keys == t.shape.Keys && Proposed(t, n, ask, budgets, a) && v in a.selected &&
      DistinctNodePods(n.pods)
    ensures v.uid in a.chosen && v == AsVictim(a.chosen[v.uid].pod) && v.priority < ask.priority
    ensures EvictableOn(n.pods, ask.priority, a.chosen[v.uid].pod)
    ensures WithinFence(t.shape, ask.leaf, a.chosen[v.uid].leaf)
  {
    ProposedFromChosen(t, n, ask, budgets, a);
    EvictablePodsAre(n.pods, ask.priority);
    assert LegalDonor(t.shape, EvictablePods(n.pods, ask.priority), ask.leaf, a.chosen[v.uid]);
  }

  /** It keeps each leaf at or above the smaller of what it used and what it is guaranteed. */
  lemma PreemptionKeepsGuarantee(s: State, t: Tree, n: NodeInfo, ask: Ask, budgets: seq<DisruptionBudget>, a: Attempt,
                                 leaf: string, d: string)
    requires t.usage.Keys == t.shape.Keys && Proposed(t, n, ask, budgets, a)
    requires DecidedOn(s, t, a.chosen) && IsLeaf(t.shape, leaf)
    ensures var s' := DeletePods(s, UIDs(a.selected));
      && s'.tree.Some? && leaf in s'.tree.value.usage
      && KeepsGuarantee(Used(t.usage[leaf]), Used(s'.tree.value.usage[leaf]), t.shape[leaf].guaranteed, d)
  {
    ProposedFromChosen(t, n, ask, budgets, a);
    EvictionKeepsGuarantee(s, t, EvictablePods(n.pods, ask.priority), ask.leaf, None, ask.priority - 1,
                           a.victims, a.chosen, a.selected, leaf, d);
  }

  // ---------------------------------------------------------------- disruption budgets

  /** The victims, of at most a priority, that a budget covers. */
  ghost function CoveredBy(b: DisruptionBudget, victims: seq<Victim>, priority: int): set<Victim> {
    set v | v in victims && v.uid in b.covers && v.priority <= priority
  }

  /** On victims of at most that priority, the count is the number of victims covered. */
  lemma {:induction false} DisruptionsCount(b: DisruptionBudget, victims: seq<Victim>, priority: int)
    requires DistinctVictims(victims) && forall v :: v in victims ==> v.priority <= priority
    ensures Disruptions(b, victims) == |CoveredBy(b, victims, priority)|
    decreases |victims|
  {
    if victims != [] {
      var n := |victims| - 1;
      var x := victims[n];
      DisruptionsCount(b, victims[..n], priority);
      CoveredSnoc(b, victims[..n], x, priority);
      assert victims == victims[..n] + [x];
    }
  }

  lemma CoveredSnoc(b: DisruptionBudget, front: seq<Victim>, x: Victim, priority: int)
    requires x !in front && x.priority <= priority
    ensures |CoveredBy(b, front + [x], priority)|
         == |CoveredBy(b, front, priority)| + (if x.uid in b.covers then 1 else 0)
  {
    var before := CoveredBy(b, front, priority);
    assert CoveredBy(b, front + [x], priority) == if x.uid in b.covers then before + {x} else before;
  }

  /** It uses each disruption budget no more often than the budget allows: at most that many of the
      victims are covered by it. */
  lemma PreemptionRespectsBudgets(t: Tree, n: NodeInfo, ask: Ask, budgets: seq<DisruptionBudget>, a: Attempt, i: nat)
    requires t.usage.Keys == t.shape.Keys && Proposed(t, n, ask, budgets, a) && i < |budgets|
    ensures Disruptions(budgets[i], a.selected) <= Bearable(budgets[i])
    ensures var covered := |CoveredBy(budgets[i], a.selected, ask.priority)|;
      covered == 0 || covered <= budgets[i].allowed
  {
    DisruptionsMonotone(budgets[i], a.selected, a.kept);
    ProposedFromChosen(t, n, ask, budgets, a);
    DrawnFromChosen(a.victims, a.chosen, a.selected);
    DisruptionsCount(budgets[i], a.selected, ask.priority);
  }

  /** The budget covers the victim, and bears no more once the kept ones that matter no more are gone. */
  ghost predicate UsedUp(b: DisruptionBudget, kept: seq<Victim>, v: Victim) {
    v.uid in b.covers && |CoveredBy(b, kept, v.priority)| >= b.allowed
  }

  /** A victim is only left out for a budget that covers it and already covers, among the kept ones
      that matter no more, as many as it allows. */
  lemma SparedMeans(budgets: seq<DisruptionBudget>, kept: seq<Victim>, v: Victim)
    requires Spared(budgets, kept, v) && DistinctVictims(kept)
    ensures exists i :: 0 <= i < |budgets| && UsedUp(budgets[i], kept, v)
  {
    var k :| 0 <= k <= |kept| && (forall j :: 0 <= j < k ==> kept[j].priority <= v.priority) &&
      Blocked(budgets, kept[..k], v);
    var i :| 0 <= i < |budgets| && v.uid in budgets[i].covers &&
      Disruptions(budgets[i], kept[..k]) >= Bearable(budgets[i]);
    DisruptionsCount(budgets[i], kept[..k], v.priority);
    CoveredGrows(budgets[i], kept[..k], kept, v.priority);
  }

  lemma CoveredGrows(b: DisruptionBudget, part: seq<Victim>, all: seq<Victim>, priority: int)
    requires forall v :: v in part ==> v in all
    ensures |CoveredBy(b, part, priority)| <= |CoveredBy(b, all, priority)|
  {
    SubsetSize(CoveredBy(b, part, priority), CoveredBy(b, all, priority));
  }

  lemma SubsetSize(a: set<Victim>, b: set<Victim>)
    requires a <= b
    ensures |a| <= |b|
  {
    assert b == a + (b - a);
  }
}
