/** What a reclaim tick decides, read off the state that placing the pod would leave, and what it
    spares, read off the queues' own counters (pkg/framework/reclaim.go). */
module ReclaimLaws {
  import opened Vectors
  import opened QueueTree
  import opened Fences
  import opened Ledger
  import opened Placement
  import opened Victims
  import opened Donors
  import opened Reclaim
  import opened CallLaws

  /** On every dimension of `req` the queue's usage is at most what it is guaranteed. */
  ghost predicate WithinGuarantee(t: Tree, leaf: string, req: Resource)
    requires leaf in t.shape && leaf in t.usage
  {
    forall d :: d in req ==>
      Get(t.usage[leaf].confirmed, d) + Get(t.usage[leaf].inflight, d) <= Get(t.shape[leaf].guaranteed, d)
  }

  /** Each queue of the path is within max on every dimension of `req` it bounds. */
  ghost predicate WithinMaxes(t: Tree, leaf: string, req: Resource)
    requires t.usage.Keys == t.shape.Keys
  {
    forall q, d :: q in t.shape && OnPath(t.shape, leaf, q) && d in req && d in t.shape[q].max ==>
      Get(t.usage[q].confirmed, d) + Get(t.usage[q].inflight, d) <= t.shape[q].max[d]
  }

  /** `t'` is the tree once the pod is reserved at the leaf. */
  ghost predicate Placed(s: State, uid: string, leaf: string, req: Resource, t': Tree) {
    s.tree.Some? && s.tree.value.usage.Keys == s.tree.value.shape.Keys && uid !in s.book &&
    Step(s, OpReserve(uid, leaf, req)).tree == Some(t')
  }

  /** Exactly when a pod may reclaim at the leaf it resolves to: the leaf guarantees something, and
      placing the pod there keeps the leaf within its guarantee and yet breaks some max. */
  lemma ClaimExact(s: State, p: Pod, leaf: string, t': Tree)
    requires Placed(s, p.uid, leaf, p.req, t') && Route(s.tree.value.shape, p.ns, p.sa) == Some(leaf)
    ensures t'.shape == s.tree.value.shape && t'.usage.Keys == t'.shape.Keys && leaf in t'.shape
    ensures Starved(s.tree.value, p, leaf) <==>
      && (exists d :: Get(t'.shape[leaf].guaranteed, d) != 0)
      && WithinGuarantee(t', leaf, p.req)
      && !WithinMaxes(t', leaf, p.req)
  {
    var t := s.tree.value;
    RouteInNamespace(t.shape, p.ns, p.sa);
    ReserveLaw(s, p.uid, leaf, p.req);
    GateMeansRoom(s, p.uid, leaf, p.req);
    GuaranteesSomething(t.shape[leaf].guaranteed);
    assert OnPath(t.shape, leaf, leaf);
    forall d | d in p.req
      ensures Get(t'.usage[leaf].confirmed, d) + Get(t'.usage[leaf].inflight, d)
           == Get(Used(t.usage[leaf]), d) + p.req[d]
    {
      assert ShiftedAt(t, t', leaf, p.req, 0, 1, leaf, d);
    }
  }

  lemma GuaranteesSomething(r: Resource)
    ensures !IsEmpty(r) <==> exists d :: Get(r, d) != 0
  {
    if d :| Get(r, d) != 0 {
      assert d in r;
    }
    if d :| d in r && r[d] != 0 {
      assert Get(r, d) != 0;
    }
  }

  /** A decision is only ever taken for a queue's own guarantee: once the pod is in, the leaf it
      resolves to, which guarantees something, uses no more than that on any dimension of the pod. */
  lemma DecisionWithinGuarantee(s: State, bound: seq<Pod>, d: Decision, t': Tree)
    requires s.tree.Some? && s.tree.value.usage.Keys == s.tree.value.shape.Keys && Sound(s.tree.value, bound, d)
    requires Placed(s, d.beneficiary.pod.uid, d.leaf, d.beneficiary.pod.req, t')
    ensures t'.shape == s.tree.value.shape && t'.usage.Keys == t'.shape.Keys && d.leaf in t'.shape
    ensures exists k :: Get(t'.shape[d.leaf].guaranteed, k) != 0
    ensures WithinGuarantee(t', d.leaf, d.beneficiary.pod.req) && !WithinMaxes(t', d.leaf, d.beneficiary.pod.req)
  {
    ClaimExact(s, d.beneficiary.pod, d.leaf, t');
  }

  /** A turn is skipped exactly when the pod resolves nowhere, would fit, would take its leaf beyond
      the guarantee, or its leaf guarantees nothing. */
  lemma SkippedExact(s: State, bound: seq<Pod>, queue: seq<Pending>, turns: seq<Turn>, i: nat, leaf: string, t': Tree)
    requires s.tree.Some? && s.tree.value.usage.Keys == s.tree.value.shape.Keys
    requires AllFailed(s.tree.value, bound, queue, turns) && i < |turns|
    requires Placed(s, queue[i].pod.uid, leaf, queue[i].pod.req, t')
    ensures Route(s.tree.value.shape, queue[i].pod.ns, queue[i].pod.sa) == None ==> turns[i] == Skipped
    ensures Route(s.tree.value.shape, queue[i].pod.ns, queue[i].pod.sa) == Some(leaf) ==>
      && t'.usage.Keys == t'.shape.Keys && leaf in t'.shape
      && (turns[i] == Skipped <==>
          || WithinMaxes(t', leaf, queue[i].pod.req)
          || !WithinGuarantee(t', leaf, queue[i].pod.req)
          || forall d :: Get(t'.shape[leaf].guaranteed, d) == 0)
  {
    FailedAt(s.tree.value, bound, queue, turns, i);
    if Route(s.tree.value.shape, queue[i].pod.ns, queue[i].pod.sa) == Some(leaf) {
      ClaimExact(s, queue[i].pod, leaf, t');
    }
  }

  // ---------------------------------------------------------------- what is spared

  /** What a queue uses beyond its guarantee on one dimension, or nothing. */
  function Excess(t: Tree, leaf: string, d: string): int
    requires leaf in t.shape && leaf in t.usage
  {
    var over := Get(t.usage[leaf].confirmed, d) + Get(t.usage[leaf].inflight, d) - Get(t.shape[leaf].guaranteed, d);
    if over > 0 then over else 0
  }

  lemma BudgetIsExcess(t: Tree, leaf: string, d: string)
    requires leaf in t.shape && leaf in t.usage && NonNegative(t.shape[leaf].guaranteed)
    ensures Get(Budget(t, leaf), d) == Excess(t, leaf, d)
  {
    NonNegativeGet(t.shape[leaf].guaranteed, d);
  }

  /** From no queue is more taken than it uses beyond its guarantee. */
  lemma TakenWithinExcess(t: Tree, pods: seq<Pod>, asker: string, excluded: Option<string>, limit: int,
                          victims: seq<Victim>, chosen: Choices, leaf: string, d: string)
    requires t.usage.Keys == t.shape.Keys && VictimPool(t, pods, asker, excluded, limit, victims, chosen)
    requires leaf in t.shape && NonNegative(t.shape[leaf].guaranteed)
    ensures DonorSum(chosen, leaf, limit, d) <= Excess(t, leaf, d)
  {
    assert WithinBudget(t, chosen, limit, leaf);
    BudgetIsExcess(t, leaf, d);
  }

  /** No pod within reach is left out without need: the queue uses nothing beyond its guarantee, or
      taking the pod, on top of the chosen ones that matter no more, exceeds what it does. */
  lemma SparedOnlyForNeed(t: Tree, pods: seq<Pod>, asker: string, excluded: Option<string>, limit: int,
                          victims: seq<Victim>, chosen: Choices, p: Pod, leaf: string)
    requires t.usage.Keys == t.shape.Keys && VictimPool(t, pods, asker, excluded, limit, victims, chosen)
    requires WellFormed(t.shape) && asker in t.shape && leaf in t.shape
    requires p in pods && p.priority <= limit && p.uid !in chosen && Route(t.shape, p.ns, p.sa) == Some(leaf)
    requires excluded != Some(leaf) && OnPath(t.shape, leaf, FenceBoundary(t.shape, asker))
    ensures (forall d :: Excess(t, leaf, d) == 0) ||
      exists d :: DonorSum(chosen, leaf, p.priority, d) + Get(p.req, d) > Excess(t, leaf, d)
  {
    WithinFenceIsSubtree(t.shape, asker, leaf);
    assert WellPlaced(t.shape, leaf);
    forall d ensures Get(Budget(t, leaf), d) == Excess(t, leaf, d) {
      BudgetIsExcess(t, leaf, d);
    }
    assert Refused(t, chosen, leaf, p);
    if !IsEmpty(Budget(t, leaf)) {
      var d :| DonorSum(chosen, leaf, p.priority, d) + Get(p.req, d) > Get(Budget(t, leaf), d);
      assert DonorSum(chosen, leaf, p.priority, d) + Get(p.req, d) > Excess(t, leaf, d);
    }
  }
}
