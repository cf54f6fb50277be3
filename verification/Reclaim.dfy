/** Queue-level reclaim (pkg/framework/reclaim.go): who may reclaim, which victims may be
    taken, and what evicting them does to donors and to the fence boundary. */
module Reclaim {
  import opened Vectors
  import opened Sums
  import opened Paths
  import opened QueueTree
  import opened Fences
  import opened Ledger
  import opened Balance
  import opened Placement
  import opened Victims
  import opened VictimsInPlace
  import opened Donors
  import opened Evictions
  import Sorting

  /** Placing `need` at the leaf keeps it within its own guaranteed share. */
  predicate Entitled(t: Tree, leaf: string, need: Resource)
    requires t.usage.Keys == t.shape.Keys
  {
    && leaf in t.shape
    && !IsEmpty(t.shape[leaf].guaranteed)
    && forall d :: d in need ==> Get(Used(t.usage[leaf]), d) + need[d] <= Get(t.shape[leaf].guaranteed, d)
  }

  ghost predicate Homes(t: Shape, pods: seq<Pod>, homes: seq<Option<string>>) {
    && |homes| == |pods|
    && forall i :: 0 <= i < |pods| ==> homes[i] == Route(t, pods[i].ns, pods[i].sa)
  }

  /** Where each pod resolves to. */
  method ResolveAll(t: Shape, leaves: seq<string>, pods: seq<Pod>) returns (homes: seq<Option<string>>)
    requires ValidPlacement(t) && forall p :: p in leaves <==> IsLeaf(t, p)
    ensures Homes(t, pods, homes)
  {
    homes := [];
    for i := 0 to |pods|
      invariant |homes| == i && forall j :: 0 <= j < i ==> homes[j] == Route(t, pods[j].ns, pods[j].sa)
    {
      var r := Resolve(t, leaves, pods[i].ns, pods[i].sa);
      homes := homes + [r];
    }
  }

  /** A bound pod on the leaf it resolves to, inside the preemptor's fence. */
  ghost predicate LegalDonor(t: Shape, pods: seq<Pod>, asker: string, c: Choice) {
    && c.pod in pods
    && Route(t, c.pod.ns, c.pod.sa) == Some(c.leaf)
    && IsLeaf(t, c.leaf)
    && WithinFence(t, asker, c.leaf)
  }

  /** Picking victims for a preemptor: the legal donors' pods, each donor within budget. */
  ghost predicate VictimPool(t: Tree, pods: seq<Pod>, asker: string, excluded: Option<string>, limit: int,
                             victims: seq<Victim>, chosen: Choices)
    requires t.usage.Keys == t.shape.Keys
  {
    && Lists(victims, chosen)
    && ChoicesNonNegative(chosen)
    && (forall u :: u in chosen ==>
          LegalDonor(t.shape, pods, asker, chosen[u]) && excluded != Some(chosen[u].leaf) &&
            chosen[u].pod.priority <= limit)
    && (forall leaf {:trigger WithinBudget(t, chosen, limit, leaf)} :: leaf in t.shape ==>
      WithinBudget(t, chosen, limit, leaf))
    && (forall i {:trigger pods[i]} :: 0 <= i < |pods| && pods[i].priority <= limit && pods[i].uid !in chosen ==>
          PassedOver(t, asker, excluded, chosen, pods[i]))
  }

  /** Why a pod of low enough priority was not picked: it resolves to no leaf within reach,
      or its donor's budget has no room for it. */
  ghost predicate PassedOver(t: Tree, asker: string, excluded: Option<string>, chosen: Choices, p: Pod)
    requires t.usage.Keys == t.shape.Keys
  {
    match Route(t.shape, p.ns, p.sa)
    case None => true
    case Some(leaf) =>
      || excluded == Some(leaf)
      || !PathWithinSubtree(leaf, FenceBoundary(t.shape, asker))
      || (leaf in t.shape && Refused(t, chosen, leaf, p))
  }

  /** Groups the pods by leaf, drops what the fence hides, and serves each donor. */
  method BuildVictims(t: Tree, leaves: seq<string>, pods: seq<Pod>, asker: string, excluded: Option<string>, limit: int)
    returns (victims: seq<Victim>, chosen: Choices)
    requires t.usage.Keys == t.shape.Keys && ValidPlacement(t.shape)
    requires forall p :: p in leaves <==> IsLeaf(t.shape, p)
    requires DistinctUIDs(pods) && forall i :: 0 <= i < |pods| ==> NonNegative(pods[i].req)
    ensures VictimPool(t, pods, asker, excluded, limit, victims, chosen)
  {
    var homes := ResolveAll(t.shape, leaves, pods);
    var boundary := FenceBoundary(t.shape, asker);
    var groups := GroupPods(pods, homes, boundary, excluded);
    HomesAreLeaves(t.shape, pods, homes);
    GroupsProper(t.shape, pods, homes, boundary, excluded, groups);
    victims, chosen := PickVictims(t, groups, limit);
    PoolFromGroups(t, pods, homes, asker, excluded, limit, groups, victims, chosen);
  }

  lemma HomesAreLeaves(t: Shape, pods: seq<Pod>, homes: seq<Option<string>>)
    requires Homes(t, pods, homes)
    ensures forall i :: 0 <= i < |pods| && homes[i].Some? ==> IsLeaf(t, homes[i].value)
  {
    forall i | 0 <= i < |pods| && homes[i].Some? ensures IsLeaf(t, homes[i].value) {
      RouteInNamespace(t, pods[i].ns, pods[i].sa);
    }
  }

  /** A leaf within reach is inside the asker's fence; an asker whose leaf is gone from the
      tree reaches nothing. */
  lemma ReachableFrom(t: Shape, asker: string, ns: string, sa: string, leaf: string)
    requires ValidPlacement(t) && Route(t, ns, sa) == Some(leaf) && PathWithinSubtree(leaf, FenceBoundary(t, asker))
    ensures WithinFence(t, asker, leaf)
  {
    RouteInNamespace(t, ns, sa);
    assert Marked(t[leaf]) && NamespaceOf(leaf) != "";
    NothingBelowEmpty(leaf);
  }

  lemma PoolFromGroups(t: Tree, pods: seq<Pod>, homes: seq<Option<string>>, asker: string, excluded: Option<string>,
                       limit: int, groups: Groups, victims: seq<Victim>, chosen: Choices)
    requires t.usage.Keys == t.shape.Keys && ValidPlacement(t.shape)
    requires groups.Keys <= t.shape.Keys && Homes(t.shape, pods, homes)
    requires Grouped(pods, homes, FenceBoundary(t.shape, asker), excluded, |pods|, groups)
    requires Picked(t, groups, limit, victims, chosen)
    ensures VictimPool(t, pods, asker, excluded, limit, victims, chosen)
  {
    HomesAreLeaves(t.shape, pods, homes);
    forall u | u in chosen
      ensures LegalDonor(t.shape, pods, asker, chosen[u]) && excluded != Some(chosen[u].leaf)
    {
      var c := chosen[u];
      var i :| 0 <= i < |pods| && pods[i] == c.pod && homes[i] == Some(c.leaf);
      ReachableFrom(t.shape, asker, pods[i].ns, pods[i].sa, c.leaf);
    }
    forall leaf | leaf in t.shape ensures WithinBudget(t, chosen, limit, leaf) {
      if leaf in groups {
        assert DonorServed(t, groups, limit, chosen, leaf);
      } else {
        forall d ensures DonorSum(chosen, leaf, limit, d) <= Get(Budget(t, leaf), d) {
          DonorSumNone(chosen, leaf, limit, d);
        }
      }
    }
    forall i | 0 <= i < |pods| && pods[i].priority <= limit && pods[i].uid !in chosen
      ensures PassedOver(t, asker, excluded, chosen, pods[i])
    {
      PassedOverFromGroups(t, pods, homes, asker, excluded, limit, groups, victims, chosen, i);
    }
  }

  lemma PassedOverFromGroups(t: Tree, pods: seq<Pod>, homes: seq<Option<string>>, asker: string,
                             excluded: Option<string>, limit: int, groups: Groups, victims: seq<Victim>,
                             chosen: Choices, i: nat)
    requires t.usage.Keys == t.shape.Keys && groups.Keys <= t.shape.Keys && Homes(t.shape, pods, homes)
    requires Grouped(pods, homes, FenceBoundary(t.shape, asker), excluded, |pods|, groups)
    requires Picked(t, groups, limit, victims, chosen)
    requires i < |pods| && pods[i].priority <= limit && pods[i].uid !in chosen
    ensures PassedOver(t, asker, excluded, chosen, pods[i])
  {
    if homes[i].Some? && Reachable(homes[i].value, FenceBoundary(t.shape, asker), excluded) {
      assert DonorServed(t, groups, limit, chosen, homes[i].value);
    }
  }

  /** The decision for one starved pod. */
  method ReclaimFor(t: Tree, leaves: seq<string>, bound: seq<Pod>, starved: string, need: Resource, priority: int)
    returns (victims: seq<Victim>, chosen: Choices, selected: seq<Victim>)
    requires t.usage.Keys == t.shape.Keys && ValidPlacement(t.shape)
    requires forall p :: p in leaves <==> IsLeaf(t.shape, p)
    requires DistinctUIDs(bound) && forall i :: 0 <= i < |bound| ==> NonNegative(bound[i].req)
    ensures VictimPool(t, bound, starved, Some(starved), priority, victims, chosen)
    ensures selected == Select(need, victims)
  {
    victims, chosen := BuildVictims(t, leaves, bound, starved, Some(starved), priority);
    selected := SelectVictims(need, victims);
  }

  // ---------------------------------------------------------------- one tick

  datatype Pending = Pending(pod: Pod, created: int)

  /** Served strictly earlier: higher priority, then the older pod. */
  predicate Outranks(a: Pending, b: Pending) {
    if a.pod.priority != b.pod.priority then a.pod.priority > b.pod.priority else a.created < b.created
  }

  /** Higher priorities first and, among equals, the pods created earlier. */
  ghost predicate Ranked(s: seq<Pending>) {
    forall i, j :: 0 <= i < j < |s| ==>
      s[i].pod.priority > s[j].pod.priority || (s[i].pod.priority == s[j].pod.priority && s[i].created <= s[j].created)
  }

  datatype Decision = Decision(beneficiary: Pending, leaf: string, victims: seq<Victim>, chosen: Choices,
                               selected: seq<Victim>)

  /** The pod is starved: its queue is below its guarantee and yet has no room for it. */
  ghost predicate Starved(t: Tree, p: Pod, leaf: string)
    requires t.usage.Keys == t.shape.Keys
  {
    Route(t.shape, p.ns, p.sa) == Some(leaf) && !CanFit(t.shape, t.usage, leaf, p.req) && Entitled(t, leaf, p.req)
  }

  /** One pending pod's turn: skipped, or a search of the pool built for it. */
  datatype Turn = Skipped | Search(victims: seq<Victim>, chosen: Choices)

  /** The turn came to nothing: it was skipped because the pod is not starved, or the pool
      built for it does not suffice. */
  ghost predicate Failed(t: Tree, bound: seq<Pod>, p: Pod, turn: Turn)
    requires t.usage.Keys == t.shape.Keys
  {
    match Route(t.shape, p.ns, p.sa)
    case None => turn == Skipped
    case Some(leaf) =>
      && (turn.Search? <==> Starved(t, p, leaf))
      && (turn.Search? ==> VictimPool(t, bound, leaf, Some(leaf), p.priority, turn.victims, turn.chosen))
      && (turn.Search? ==> Select(p.req, turn.victims) == [])
  }

  /** The first pods of the queue had their turns in vain. */
  ghost predicate AllFailed(t: Tree, bound: seq<Pod>, queue: seq<Pending>, turns: seq<Turn>)
    requires t.usage.Keys == t.shape.Keys
    decreases |turns|
  {
    |turns| <= |queue| && (turns == [] ||
      var n := |turns| - 1;
      Failed(t, bound, queue[n].pod, turns[n]) && AllFailed(t, bound, queue, turns[..n]))
  }

  lemma FailedSnoc(t: Tree, bound: seq<Pod>, queue: seq<Pending>, turns: seq<Turn>, turn: Turn)
    requires t.usage.Keys == t.shape.Keys && AllFailed(t, bound, queue, turns)
    requires |turns| < |queue| && Failed(t, bound, queue[|turns|].pod, turn)
    ensures AllFailed(t, bound, queue, turns + [turn])
  {
    assert (turns + [turn])[..|turns|] == turns;
  }

  lemma {:induction false} FailedAt(t: Tree, bound: seq<Pod>, queue: seq<Pending>, turns: seq<Turn>, i: nat)
    requires t.usage.Keys == t.shape.Keys && AllFailed(t, bound, queue, turns) && i < |turns|
    ensures Failed(t, bound, queue[i].pod, turns[i])
    decreases |turns|
  {
    if i < |turns| - 1 {
      FailedAt(t, bound, queue, turns[..|turns| - 1], i);
    }
  }

  ghost predicate Sound(t: Tree, bound: seq<Pod>, d: Decision)
    requires t.usage.Keys == t.shape.Keys
  {
    && Starved(t, d.beneficiary.pod, d.leaf)
    && VictimPool(t, bound, d.leaf, Some(d.leaf), d.beneficiary.pod.priority, d.victims, d.chosen)
    && d.selected == Select(d.beneficiary.pod.req, d.victims)
    && d.selected != []
  }

  /** A pod of the store, with what the tick's filter looks at. */
  datatype Seen = Seen(pod: Pod, created: int, ours: bool, deleting: bool, gangMember: bool, placed: bool)

  /** One of ours, staying, and no gang member. */
  predicate Considered(p: Seen) {
    p.ours && !p.deleting && !p.gangMember
  }

  ghost predicate PendingIn(store: seq<Seen>, p: Pending) {
    exists i :: 0 <= i < |store| && store[i].ours && !store[i].deleting && !store[i].gangMember && !store[i].placed &&
      p == Pending(store[i].pod, store[i].created)
  }

  ghost predicate BoundIn(store: seq<Seen>, p: Pod) {
    exists i :: 0 <= i < |store| && store[i].ours && !store[i].deleting && !store[i].gangMember && store[i].placed &&
      p == store[i].pod
  }

  ghost predicate ProperStore(store: seq<Seen>) {
    && (forall i, j :: 0 <= i < j < |store| ==> store[i].pod.uid != store[j].pod.uid)
    && forall i :: 0 <= i < |store| ==> NonNegative(store[i].pod.req)
  }

  lemma StoreSnoc(store: seq<Seen>, n: nat)
    requires n < |store|
    ensures var x := store[n];
      forall p :: PendingIn(store[..n + 1], p)
             <==> PendingIn(store[..n], p) || (Considered(x) && !x.placed && p == Pending(x.pod, x.created))
    ensures var x := store[n];
      forall p :: BoundIn(store[..n + 1], p) <==> BoundIn(store[..n], p) || (Considered(x) && x.placed && p == x.pod)
  {
    var x, now, next := store[n], store[..n], store[..n + 1];
    assert next == now + [x];
    forall p
      ensures PendingIn(next, p)
         <==> PendingIn(now, p) || (Considered(x) && !x.placed && p == Pending(x.pod, x.created))
    {
      PendingSnoc(now, x, p);
    }
    forall p ensures BoundIn(next, p) <==> BoundIn(now, p) || (Considered(x) && x.placed && p == x.pod) {
      BoundSnoc(now, x, p);
    }
  }

  lemma PendingSnoc(store: seq<Seen>, x: Seen, p: Pending)
    ensures PendingIn(store + [x], p)
       <==> PendingIn(store, p) || (Considered(x) && !x.placed && p == Pending(x.pod, x.created))
  {
    var next := store + [x];
    assert forall i :: 0 <= i < |store| ==> next[i] == store[i];
    assert next[|store|] == x;
  }

  lemma BoundSnoc(store: seq<Seen>, x: Seen, p: Pod)
    ensures BoundIn(store + [x], p) <==> BoundIn(store, p) || (Considered(x) && x.placed && p == x.pod)
  {
    var next := store + [x];
    assert forall i :: 0 <= i < |store| ==> next[i] == store[i];
    assert next[|store|] == x;
  }

  /** Splits the store into the pods still to be placed and those bound. */
  method SplitPods(store: seq<Seen>) returns (pending: seq<Pending>, bound: seq<Pod>)
    requires ProperStore(store)
    ensures forall p :: p in pending <==> PendingIn(store, p)
    ensures forall p :: p in bound <==> BoundIn(store, p)
    ensures DistinctUIDs(bound) && forall i :: 0 <= i < |bound| ==> NonNegative(bound[i].req)
  {
    pending, bound := [], [];
    for n := 0 to |store|
      invariant forall p :: p in pending <==> PendingIn(store[..n], p)
      invariant forall p :: p in bound <==> BoundIn(store[..n], p)
      invariant DistinctUIDs(bound)
    {
      StoreSnoc(store, n);
      if Considered(store[n]) {
        if store[n].placed {
          NewUID(store, n, bound);
          bound := bound + [store[n].pod];
        } else {
          pending := pending + [Pending(store[n].pod, store[n].created)];
        }
      }
    }
    assert store[..|store|] == store;
    forall i | 0 <= i < |bound| ensures NonNegative(bound[i].req) {
      assert BoundIn(store, bound[i]);
    }
  }

  lemma NewUID(store: seq<Seen>, n: nat, bound: seq<Pod>)
    requires ProperStore(store) && n < |store| && DistinctUIDs(bound)
    requires forall p :: p in bound ==> BoundIn(store[..n], p)
    ensures DistinctUIDs(bound + [store[n].pod])
  {
    forall i | 0 <= i < |bound| ensures bound[i].uid != store[n].pod.uid {
      assert BoundIn(store[..n], bound[i]);
      var j :| 0 <= j < n && store[..n][j].pod == bound[i];
      assert store[j].pod == bound[i];
    }
  }

  /** One tick: at most one reclaim, for the first pod, in service order, whose search finds
      victims. `pending` and `bound` are the pods the filter leaves, `queue` the order this tick
      served the pending ones in, and `turns` the searches it made in vain. */
  method ReclaimOnce(t: Tree, leaves: seq<string>, store: seq<Seen>)
    returns (r: Option<Decision>, ghost pending: seq<Pending>, ghost bound: seq<Pod>, ghost queue: seq<Pending>,
             ghost turns: seq<Turn>)
    requires t.usage.Keys == t.shape.Keys && ValidPlacement(t.shape) && ProperStore(store)
    requires forall p :: p in leaves <==> IsLeaf(t.shape, p)
    ensures forall p :: p in pending <==> PendingIn(store, p)
    ensures forall p :: p in bound <==> BoundIn(store, p)
    ensures Ranked(queue) && multiset(queue) == multiset(pending) && AllFailed(t, bound, queue, turns)
    ensures r == None ==> |turns| == |queue|
    ensures r.Some? ==> PendingIn(store, r.value.beneficiary)
    ensures r.Some? ==> Sound(t, bound, r.value)
    ensures r.Some? ==> |turns| < |queue| && queue[|turns|] == r.value.beneficiary
    ensures r.Some? ==> ServedBefore(pending, r.value.beneficiary, queue[..|turns|])
  {
    var waiting, placed := SplitPods(store);
    pending, bound := waiting, placed;
    r, queue, turns := ServePending(t, leaves, waiting, placed);
  }

  /** Serves the pending pods in order until one search finds victims. */
  method ServePending(t: Tree, leaves: seq<string>, pending: seq<Pending>, bound: seq<Pod>)
    returns (r: Option<Decision>, ghost queue: seq<Pending>, ghost turns: seq<Turn>)
    requires t.usage.Keys == t.shape.Keys && ValidPlacement(t.shape)
    requires forall p :: p in leaves <==> IsLeaf(t.shape, p)
    requires DistinctUIDs(bound) && forall i :: 0 <= i < |bound| ==> NonNegative(bound[i].req)
    ensures Ranked(queue) && multiset(queue) == multiset(pending) && AllFailed(t, bound, queue, turns)
    ensures r == None ==> |turns| == |queue|
    ensures r.Some? ==> r.value.beneficiary in pending && Sound(t, bound, r.value)
    ensures r.Some? ==> |turns| < |queue| && queue[|turns|] == r.value.beneficiary
    ensures r.Some? ==> ServedBefore(pending, r.value.beneficiary, queue[..|turns|])
  {
    var ranked := RankPending(pending);
    r, queue, turns := None, ranked, [];
    for i := 0 to |ranked|
      invariant r == None && |turns| == i && queue == ranked && AllFailed(t, bound, queue, turns)
    {
      ghost var turn;
      r, turn := Serve(t, leaves, ranked[i], bound);
      if r.Some? {
        EarlierIn(pending, ranked, i);
        return;
      }
      FailedSnoc(t, bound, queue, turns, turn);
      turns := turns + [turn];
    }
  }

  /** A pending pod that was not served has a lower priority than `x`, or the same and is no older. */
  ghost predicate ServedBefore(pending: seq<Pending>, x: Pending, served: seq<Pending>) {
    forall p :: p in pending && p !in served ==>
      p.pod.priority < x.pod.priority || (p.pod.priority == x.pod.priority && p.created >= x.created)
  }

  lemma EarlierIn(pending: seq<Pending>, queue: seq<Pending>, i: nat)
    requires multiset(queue) == multiset(pending) && Ranked(queue) && i < |queue|
    ensures queue[i] in pending && ServedBefore(pending, queue[i], queue[..i])
  {
    assert queue[i] in multiset(queue);
    forall p | p in pending && p !in queue[..i]
      ensures p.pod.priority < queue[i].pod.priority ||
        (p.pod.priority == queue[i].pod.priority && p.created >= queue[i].created)
    {
      assert p in multiset(queue);
      assert forall j :: 0 <= j < i ==> queue[j] == queue[..i][j];
    }
  }

  method Serve(t: Tree, leaves: seq<string>, p: Pending, bound: seq<Pod>)
    returns (r: Option<Decision>, ghost turn: Turn)
    requires t.usage.Keys == t.shape.Keys && ValidPlacement(t.shape)
    requires forall q :: q in leaves <==> IsLeaf(t.shape, q)
    requires DistinctUIDs(bound) && forall i :: 0 <= i < |bound| ==> NonNegative(bound[i].req)
    ensures r == None ==> Failed(t, bound, p.pod, turn)
    ensures r.Some? ==> r.value.beneficiary == p && Sound(t, bound, r.value)
  {
    turn := Skipped;
    var home := Resolve(t.shape, leaves, p.pod.ns, p.pod.sa);
    if home == None {
      return None, turn;
    }
    var leaf, need := home.value, p.pod.req;
    if CanFit(t.shape, t.usage, leaf, need) || !Entitled(t, leaf, need) {
      return None, turn;
    }
    var victims, chosen, selected := ReclaimFor(t, leaves, bound, leaf, need, p.pod.priority);
    turn := Search(victims, chosen);
    if selected == [] {
      return None, turn;
    }
    return Some(Decision(p, leaf, victims, chosen, selected)), turn;
  }

  /** What is selected from a pool for a non-negative need covers it. */
  lemma PoolSelection(t: Tree, bound: seq<Pod>, leaf: string, priority: int, victims: seq<Victim>, chosen: Choices,
                      need: Resource)
    requires t.usage.Keys == t.shape.Keys && VictimPool(t, bound, leaf, Some(leaf), priority, victims, chosen)
    requires NonNegative(need)
    ensures Select(need, victims) != [] ==> Drawn(need, victims, Select(need, victims))
  {
    DrawnFromChosen(victims, chosen, victims);
    if Select(need, victims) != [] {
      SelectIsDrawn(need, victims);
    }
  }

  method RankPending(pending: seq<Pending>) returns (queue: seq<Pending>)
    ensures Ranked(queue) && multiset(queue) == multiset(pending)
  {
    queue := Sorting.Sort(pending, Outranks);
  }

  // ---------------------------------------------------------------- what evicting them does

  /** The engine's state when the decision is taken on tree `t`, each candidate booked on the
      leaf it resolves to for its effective request. */
  ghost predicate DecidedOn(s: State, t: Tree, chosen: Choices) {
    Inv(s) && s.tree == Some(t) && BookedAsChosen(s, chosen)
  }

  /** min(used, guaranteed) <= after <= used, on one dimension. */
  predicate KeepsGuarantee(used: Resource, after: Resource, guaranteed: Resource, d: string) {
    Get(after, d) <= Get(used, d) && (Get(after, d) >= Get(used, d) || Get(after, d) >= Get(guaranteed, d))
  }

  /** Releasing victims drawn from a pool leaves every leaf, on every dimension, with at
      least the smaller of what it used and what it is guaranteed. */
  lemma EvictionKeepsGuarantee(s: State, t: Tree, pods: seq<Pod>, asker: string, excluded: Option<string>, limit: int,
                               victims: seq<Victim>, chosen: Choices, selected: seq<Victim>, leaf: string, d: string)
    requires t.usage.Keys == t.shape.Keys && VictimPool(t, pods, asker, excluded, limit, victims, chosen)
    requires DecidedOn(s, t, chosen) && IsLeaf(t.shape, leaf)
    requires multiset(selected) <= multiset(victims)
    ensures var s' := DeletePods(s, UIDs(selected));
      && s'.tree.Some? && leaf in s'.tree.value.usage
      && KeepsGuarantee(Used(t.usage[leaf]), Used(s'.tree.value.usage[leaf]), t.shape[leaf].guaranteed, d)
  {
    DrawnFromChosen(victims, chosen, selected);
    UIDSetIs(selected);
    DeletedUsage(s, UIDs(selected), leaf, d);
    assert UIDSet(selected) <= chosen.Keys;
    EvictedAtLeaf(s, chosen, UIDSet(selected), leaf, limit, d);
    assert WithinBudget(t, chosen, limit, leaf);
    assert DonorSum(chosen, leaf, limit, d) <= Get(Budget(t, leaf), d);
  }

  /** Every reclaim decision spares what it must: each victim is a bound pod inside the
      starved leaf's fence, outside that leaf, with priority at most the starved pod's. */
  lemma ReclaimVictimsLegal(t: Tree, bound: seq<Pod>, starved: string, priority: int,
                            victims: seq<Victim>, chosen: Choices, selected: seq<Victim>, v: Victim)
    requires t.usage.Keys == t.shape.Keys && VictimPool(t, bound, starved, Some(starved), priority, victims, chosen)
    requires multiset(selected) <= multiset(victims) && v in selected
    ensures v.uid in chosen && v == AsVictim(chosen[v.uid].pod) && chosen[v.uid].pod in bound
    ensures Route(t.shape, chosen[v.uid].pod.ns, chosen[v.uid].pod.sa) == Some(chosen[v.uid].leaf)
    ensures WithinFence(t.shape, starved, chosen[v.uid].leaf) && chosen[v.uid].leaf != starved && v.priority <= priority
  {
    DrawnFromChosen(victims, chosen, selected);
    assert LegalDonor(t.shape, bound, starved, chosen[v.uid]);
  }

  /** Reclaim never grows usage at the fence boundary or above: releasing the victims and
      adding the need leaves each of those queues no higher than before on every needed
      dimension. */
  lemma ReclaimNeverGrows(s: State, t: Tree, bound: seq<Pod>, starved: string, need: Resource, priority: int,
                          victims: seq<Victim>, chosen: Choices, selected: seq<Victim>, q: string, d: string)
    requires t.usage.Keys == t.shape.Keys && VictimPool(t, bound, starved, Some(starved), priority, victims, chosen)
    requires DecidedOn(s, t, chosen) && starved in t.shape && Drawn(need, victims, selected)
    requires OnPath(t.shape, FenceBoundary(t.shape, starved), q)
    ensures var s' := DeletePods(s, UIDs(selected));
      && s'.tree.Some? && q in t.shape && q in s'.tree.value.usage
      && (d in need ==> Get(Used(s'.tree.value.usage[q]), d) + need[d] <= Get(Used(t.usage[q]), d))
  {
    DrawnFromChosen(victims, chosen, selected);
    UIDSetIs(selected);
    ChainShorter(t.shape, FenceBoundary(t.shape, starved));
    forall i | 0 <= i < |selected| ensures BookedBelow(t.shape, s.book, selected[i], q) {
      assert selected[i] in selected;
      VictimBelowBoundary(s, t, bound, starved, priority, victims, chosen, selected[i], q);
    }
    DeletedUsage(s, UIDs(selected), q, d);
    EvictedAbove(t.shape, s.book, selected, q, d);
  }

  /** So a queue at the boundary or above that was within max has room for the starved pod
      once the victims are gone. */
  lemma ReclaimAdmits(s: State, t: Tree, bound: seq<Pod>, starved: string, need: Resource, priority: int,
                      victims: seq<Victim>, chosen: Choices, selected: seq<Victim>, q: string)
    requires t.usage.Keys == t.shape.Keys && VictimPool(t, bound, starved, Some(starved), priority, victims, chosen)
    requires DecidedOn(s, t, chosen) && starved in t.shape && Drawn(need, victims, selected)
    requires OnPath(t.shape, FenceBoundary(t.shape, starved), q)
    requires q in t.shape && WithinMaxHere(t.shape[q].max, Used(t.usage[q]))
    ensures var s' := DeletePods(s, UIDs(selected));
      s'.tree.Some? && q in s'.tree.value.usage && FitsHere(t.shape[q].max, Used(s'.tree.value.usage[q]), need)
  {
    var s' := DeletePods(s, UIDs(selected));
    ReclaimNeverGrows(s, t, bound, starved, need, priority, victims, chosen, selected, q, "");
    forall d | d in need && d in t.shape[q].max
      ensures need[d] <= t.shape[q].max[d] - Get(Used(s'.tree.value.usage[q]), d)
    {
      ReclaimNeverGrows(s, t, bound, starved, need, priority, victims, chosen, selected, q, d);
    }
  }

  /** What is left at `q` once the victims are gone takes the need. */
  ghost predicate RoomWithout(s: State, t: Tree, selected: seq<Victim>, q: string, need: Resource)
    requires q in t.shape && q in t.usage
  {
    forall d :: d in need && d in t.shape[q].max ==>
      need[d] <= t.shape[q].max[d] - (Get(Used(t.usage[q]), d) - Evicted(t.shape, s.book, UIDSet(selected), q, d))
  }

  /** `q` is on the asker's path, strictly below its fence boundary. */
  predicate BelowBoundary(t: Shape, asker: string, q: string) {
    OnPath(t, asker, q) && !OnPath(t, FenceBoundary(t, asker), q)
  }

  lemma FitsWithout(s: State, t: Tree, selected: seq<Victim>, q: string, need: Resource)
    requires Inv(s) && s.tree == Some(t) && q in t.shape && q in t.usage
    ensures var s' := DeletePods(s, UIDs(selected));
      && s'.tree.Some? && s'.tree.value.shape == t.shape && q in s'.tree.value.usage
      && (FitsHere(t.shape[q].max, Used(s'.tree.value.usage[q]), need) <==> RoomWithout(s, t, selected, q, need))
  {
    var s' := DeletePods(s, UIDs(selected));
    UIDSetIs(selected);
    DeletePodsTree(s, UIDs(selected));
    DeletedUsage(s, UIDs(selected), q, "");
    forall d | d in need && d in t.shape[q].max
      ensures Get(Used(s'.tree.value.usage[q]), d)
           == Get(Used(t.usage[q]), d) - Evicted(t.shape, s.book, UIDSet(selected), q, d)
    {
      DeletedUsage(s, UIDs(selected), q, d);
    }
  }

  /** A queue of the asker's path that reclaim gives no guarantee for: it lies below the fence
      boundary, or it was over max already. */
  predicate Unprotected(t: Tree, asker: string, q: string)
    requires q in t.shape && q in t.usage
  {
    OnPath(t.shape, asker, q) && (BelowBoundary(t.shape, asker, q) || !WithinMaxHere(t.shape[q].max, Used(t.usage[q])))
  }

  /** Exactly when: evicting the victims lets the starved pod in if and only if each queue of
      its path that lies below the fence boundary, or was over max, then has room for it. */
  lemma ReclaimAdmitsExact(s: State, t: Tree, bound: seq<Pod>, starved: string, need: Resource, priority: int,
                           victims: seq<Victim>, chosen: Choices, selected: seq<Victim>)
    requires t.usage.Keys == t.shape.Keys && VictimPool(t, bound, starved, Some(starved), priority, victims, chosen)
    requires DecidedOn(s, t, chosen) && starved in t.shape && Drawn(need, victims, selected)
    ensures var s' := DeletePods(s, UIDs(selected));
      && s'.tree.Some?
      && (CanFit(t.shape, s'.tree.value.usage, starved, need) <==>
          forall q :: q in t.shape && Unprotected(t, starved, q) ==> RoomWithout(s, t, selected, q, need))
  {
    var s' := DeletePods(s, UIDs(selected));
    DeletePodsTree(s, UIDs(selected));
    forall q | q in t.shape && OnPath(t.shape, starved, q)
      ensures q in s'.tree.value.usage
      ensures FitsHere(t.shape[q].max, Used(s'.tree.value.usage[q]), need)
         <==> !Unprotected(t, starved, q) || RoomWithout(s, t, selected, q, need)
    {
      FitsWithout(s, t, selected, q, need);
      if !Unprotected(t, starved, q) {
        ReclaimAdmits(s, t, bound, starved, need, priority, victims, chosen, selected, q);
      }
    }
  }

  /** In particular, a queue of the pod's path without room keeps the pod out when none of the
      victims lies below that queue. */
  lemma EvictionInVain(s: State, t: Tree, starved: string, need: Resource, chosen: Choices, selected: seq<Victim>,
                       q: string)
    requires t.usage.Keys == t.shape.Keys && DecidedOn(s, t, chosen)
    requires q in t.shape && OnPath(t.shape, starved, q) && !FitsHere(t.shape[q].max, Used(t.usage[q]), need)
    requires forall v :: v in selected ==> v.uid in chosen && !OnPath(t.shape, chosen[v.uid].leaf, q)
    ensures var s' := DeletePods(s, UIDs(selected));
      s'.tree.Some? && !CanFit(t.shape, s'.tree.value.usage, starved, need)
  {
    UIDSetIs(selected);
    FitsWithout(s, t, selected, q, need);
    forall d ensures Evicted(t.shape, s.book, UIDSet(selected), q, d) == 0 {
      NothingFreed(t.shape, s.book, UIDSet(selected), q, d);
    }
  }

  lemma NothingFreed(t: Shape, book: map<string, Booking>, uids: set<string>, q: string, d: string)
    requires forall u :: u in book && u in uids ==> !OnPath(t, book[u].leaf, q)
    ensures Evicted(t, book, uids, q, d) == 0
  {
    SumSupport(map[], map u | u in book && u in uids :: Weight(t, book[u], q, d));
  }

  /** A victim's leaf is below the boundary, so its booking counts there and above. */
  lemma VictimBelowBoundary(s: State, t: Tree, bound: seq<Pod>, starved: string, priority: int,
                            victims: seq<Victim>, chosen: Choices, v: Victim, q: string)
    requires t.usage.Keys == t.shape.Keys && VictimPool(t, bound, starved, Some(starved), priority, victims, chosen)
    requires DecidedOn(s, t, chosen) && starved in t.shape && v.uid in chosen && v == AsVictim(chosen[v.uid].pod)
    requires OnPath(t.shape, FenceBoundary(t.shape, starved), q)
    ensures BookedBelow(t.shape, s.book, v, q)
  {
    var leaf := chosen[v.uid].leaf;
    assert LegalDonor(t.shape, bound, starved, chosen[v.uid]);
    WithinFenceIsSubtree(t.shape, starved, leaf);
    OnPathTrans(t.shape, leaf, FenceBoundary(t.shape, starved), q);
  }
}
