/** Two laws about max: gated admission never over-commits a queue, and a rebuild
    keeps every gang exactly when the whole ledger fits. */
module Limits {
  import opened Vectors
  import opened Sums
  import opened QueueTree
  import opened Ledger
  import opened Balance

  // ---------------------------------------------------------------- never above max

  /** No queue of the tree is above its max on any dimension it bounds. */
  ghost predicate WithinMax(t: Tree) {
    && t.usage.Keys == t.shape.Keys
    && forall q :: q in t.shape ==> WithinMaxHere(t.shape[q].max, Used(t.usage[q]))
  }

  /** The call is one the scheduler makes behind a gate: a reservation directly after
      a fit check at the same leaf, a gang admission, a bind observed for a pod
      already booked, or any kind of release. No tree swap. */
  ghost predicate Gated(s: State, op: Op) {
    && RequestNonNegative(op)
    && match op
       case OpRebuild(_, _, _) => false
       case OpReserve(_, leaf, req) => s.tree.Some? ==> CanFit(s.tree.value.shape, s.tree.value.usage, leaf, req)
       case OpObserveBound(uid, _, _) => uid in s.book
       case _ => true
  }

  lemma ReserveWithinMax(t: Tree, leaf: string, r: Resource)
    requires WithinMax(t) && CanFit(t.shape, t.usage, leaf, r)
    ensures WithinMax(t.(usage := Roll(t.shape, t.usage, leaf, Reserve, r)))
  {
    var u' := Roll(t.shape, t.usage, leaf, Reserve, r);
    forall q | q in t.shape ensures WithinMaxHere(t.shape[q].max, Used(u'[q])) {
      assert WithinMaxHere(t.shape[q].max, Used(t.usage[q]));
    }
  }

  lemma LowerWithinMax(t: Tree, leaf: string, op: RollUp, r: Resource)
    requires WithinMax(t) && NonNegative(r) && op in {Unreserve, Commit, Release}
    ensures WithinMax(t.(usage := Roll(t.shape, t.usage, leaf, op, r)))
  {
    var u' := Roll(t.shape, t.usage, leaf, op, r);
    forall q | q in t.shape ensures WithinMaxHere(t.shape[q].max, Used(u'[q])) {
      assert WithinMaxHere(t.shape[q].max, Used(t.usage[q]));
      forall d ensures Get(Used(u'[q]), d) <= Get(Used(t.usage[q]), d) {
        NonNegativeGet(r, d);
      }
    }
  }

  lemma AdmitGangWithinMax(t: Tree, leaf: string, g: string, need: Resource)
    requires WithinMax(t)
    ensures WithinMax(TreeAdmitGang(t, leaf, g, need).0)
  {
    if CanFit(t.shape, t.usage, leaf, need) {
      ReserveWithinMax(t, leaf, need);
      assert WithinMax(t.(usage := Roll(t.shape, t.usage, leaf, Reserve, need)));
    }
  }

  /** What stays true along a gated run. */
  ghost predicate Safe(s: State) {
    Inv(s) && BooksNonNegative(s.book) && s.tree.Some? && WithinMax(s.tree.value)
  }

  lemma DeleteWithinMax(s: State, uid: string)
    requires Safe(s)
    ensures Safe(ObserveDeleted(s, uid))
  {
    DeleteInv(s, uid);
    if uid in s.book {
      var rec := s.book[uid];
      LowerWithinMax(s.tree.value, rec.leaf, ReleaseOp(rec), rec.req);
    }
  }

  lemma {:induction false} DeletePodsWithinMax(s: State, uids: seq<string>)
    requires Safe(s)
    ensures Safe(DeletePods(s, uids))
    decreases |uids|
  {
    if uids != [] {
      DeletePodsWithinMax(s, uids[..|uids| - 1]);
      DeleteWithinMax(DeletePods(s, uids[..|uids| - 1]), uids[|uids| - 1]);
    }
  }

  lemma ReleaseGangWithinMax(s: State, key: string)
    requires Safe(s)
    ensures Safe(ReleaseGang(s, key))
  {
    ReleaseGangInv(s, key);
    var t := s.tree.value;
    if key in s.gangBook && key in t.gangs {
      LowerWithinMax(t, t.gangs[key].leaf, Unreserve, t.gangs[key].held);
    }
  }

  lemma {:induction false} ReleaseGangsWithinMax(s: State, keys: seq<string>)
    requires Safe(s)
    ensures Safe(ReleaseGangs(s, keys))
    decreases |keys|
  {
    if keys != [] {
      ReleaseGangsWithinMax(s, keys[..|keys| - 1]);
      ReleaseGangWithinMax(ReleaseGangs(s, keys[..|keys| - 1]), keys[|keys| - 1]);
    }
  }

  lemma CommitWithinMax(s: State, uid: string)
    requires Safe(s)
    ensures WithinMax(CommitPod(s, uid).tree.value)
  {
    if uid in s.book {
      LowerWithinMax(s.tree.value, s.book[uid].leaf, Commit, s.book[uid].req);
    }
  }

  lemma AdmitGangCallWithinMax(s: State, leaf: string, key: string, need: Resource)
    requires s.tree.Some? && WithinMax(s.tree.value)
    ensures AdmitGang(s, leaf, key, need).0.tree.Some? && WithinMax(AdmitGang(s, leaf, key, need).0.tree.value)
  {
    AdmitGangWithinMax(s.tree.value, leaf, key, need);
  }

  lemma AdmitGangWWCallWithinMax(s: State, leaf: string, key: string, need: Resource, rank: WoundWaitKey, now: int)
    requires s.tree.Some? && WithinMax(s.tree.value)
    ensures AdmitGangWW(s, leaf, key, need, rank, now).0.tree.Some?
    ensures WithinMax(AdmitGangWW(s, leaf, key, need, rank, now).0.tree.value)
  {
    AdmitGangWithinMax(s.tree.value, leaf, key, need);
    assert AdmitGangWW(s, leaf, key, need, rank, now).0.tree.value
        in {s.tree.value, TreeAdmitGang(s.tree.value, leaf, key, need).0};
  }

  lemma ReserveCallWithinMax(s: State, uid: string, leaf: string, req: Resource)
    requires s.tree.Some? && WithinMax(s.tree.value) && CanFit(s.tree.value.shape, s.tree.value.usage, leaf, req)
    ensures WithinMax(Book(s, uid, leaf, req).tree.value)
  {
    ReserveWithinMax(s.tree.value, leaf, req);
  }

  /** One gated call keeps every queue within max. */
  lemma GatedStepWithinMax(s: State, op: Op)
    requires Safe(s) && Enabled(s, op) && Gated(s, op)
    ensures Step(s, op).tree.Some? && WithinMax(Step(s, op).tree.value)
  {
    match op
    case OpAdmitGang(leaf, key, need) => AdmitGangCallWithinMax(s, leaf, key, need);
    case OpAdmitGangWW(leaf, key, need, rank, now) => AdmitGangWWCallWithinMax(s, leaf, key, need, rank, now);
    case OpReleaseGang(key) => ReleaseGangWithinMax(s, key);
    case OpReserve(uid, leaf, req) => ReserveCallWithinMax(s, uid, leaf, req);
    case OpUnreserve(uid) => DeleteWithinMax(s, uid);
    case OpCommit(uid) => CommitWithinMax(s, uid);
    case OpObserveBound(uid, leaf, req) => CommitWithinMax(s, uid);
    case OpObserveDeleted(uid) => DeleteWithinMax(s, uid);
    case OpGCBookings(_, order) => DeletePodsWithinMax(s, order);
    case OpGCGangs(_, order) => ReleaseGangsWithinMax(s, order);
  }

  /** In every gated run over a freshly built tree, no queue anywhere in the tree ever
      exceeds its max on any bounded dimension. */
  lemma {:induction false} RunWithinMax(run: seq<State>, ops: seq<Op>, shape: Shape, k: nat)
    requires IsRun(run, ops) && k < |run| && WellFormed(shape)
    requires run[0].tree == Some(EmptyTree(shape)) && run[0].book == map[] && run[0].gangBook == map[]
    requires forall i :: 0 <= i < k ==> Gated(run[i], ops[i])
    ensures Safe(run[k])
    decreases k
  {
    if k > 0 {
      RunWithinMax(run, ops, shape, k - 1);
      StepInv(run[k - 1], ops[k - 1]);
      StepBooksNonNegative(run[k - 1], ops[k - 1]);
      GatedStepWithinMax(run[k - 1], ops[k - 1]);
    } else {
      EmptyTreeSafe(run[0], shape);
    }
  }

  lemma EmptyTreeSafe(s: State, shape: Shape)
    requires WellFormed(shape) && s.tree == Some(EmptyTree(shape)) && s.book == map[] && s.gangBook == map[]
    ensures Safe(s)
  {
    BalancedSeedPods(shape, map[], []);
    assert Survivors(shape, map[], []) == map[];
    forall q | q in shape ensures WithinMaxHere(shape[q].max, Used(ZERO)) {
      assert WellPlaced(shape, q);
    }
  }

  // ---------------------------------------------------------------- rebuild and gangs

  /** Everything the ledger books at or below `q`: pods and gangs. */
  ghost function LedgerSum(t: Shape, s: State, q: string, d: string): int {
    PodSum(t, s.book, Committed, q, d) + PodSum(t, s.book, Reserved, q, d) + HoldSum(t, s.gangBook, q, d)
  }

  /** The ledger stays within max along gang `g`'s path, on the dimensions it lists. */
  ghost predicate LedgerFits(t: Shape, s: State, g: string)
    requires g in s.gangBook
  {
    forall q, d :: OnPath(t, s.gangBook[g].leaf, q) && q in t && d in s.gangBook[g].held && d in t[q].max ==>
      LedgerSum(t, s, q, d) <= t[q].max[d]
  }

  /** Orphaned bookings count nowhere in the new tree. */
  lemma SurvivorsSum(t: Shape, book: map<string, Booking>, order: seq<string>, st: BookState, q: string, d: string)
    requires Enumerates(order, book.Keys)
    ensures PodSum(t, Survivors(t, book, order), st, q, d) == PodSum(t, book, st, q, d)
  {
    var left := Survivors(t, book, order);
    SumSupport(map u | u in left :: PodShare(t, left[u], st, q, d),
               map u | u in book :: PodShare(t, book[u], st, q, d));
  }

  /** Holds recorded in the gang ledger sum to no more than the ledger does. */
  lemma HoldSumBelow(t: Shape, gangs: map<string, Hold>, gangBook: map<string, Hold>, q: string, d: string)
    requires forall g :: g in gangs ==> g in gangBook && gangs[g] == gangBook[g]
    requires forall g :: g in gangBook ==> NonNegative(gangBook[g].held)
    ensures HoldSum(t, gangs, q, d) <= HoldSum(t, gangBook, q, d)
  {
    SumMonotone(map g | g in gangs :: HoldShare(t, gangs[g], q, d),
                map g | g in gangBook :: HoldShare(t, gangBook[g], q, d));
  }

  /** Usage in the tree being re-seeded, read off the ledger. */
  lemma SeededUsage(t: Tree, s: State, pods: seq<string>, q: string, d: string)
    requires Enumerates(pods, s.book.Keys) && Balanced(t, Survivors(t.shape, s.book, pods)) && q in t.usage
    ensures Get(Used(t.usage[q]), d)
         == PodSum(t.shape, s.book, Committed, q, d) + PodSum(t.shape, s.book, Reserved, q, d)
           + HoldSum(t.shape, t.gangs, q, d)
  {
    assert BalancedAt(t, Survivors(t.shape, s.book, pods), q, d);
    SurvivorsSum(t.shape, s.book, pods, Committed, q, d);
    SurvivorsSum(t.shape, s.book, pods, Reserved, q, d);
  }

  /** Room for a gang still to come at one queue of its path, when the ledger fits. */
  lemma GangRoom(t: Tree, s: State, pods: seq<string>, g: string, q: string, d: string)
    requires Inv(s) && BooksNonNegative(s.book) && Enumerates(pods, s.book.Keys)
    requires Balanced(t, Survivors(t.shape, s.book, pods)) && HoldsRecorded(t, SurvivingGangs(t.shape, s.gangBook))
    requires g in s.gangBook && g !in t.gangs && IsLeaf(t.shape, s.gangBook[g].leaf) && LedgerFits(t.shape, s, g)
    requires q in t.shape && OnPath(t.shape, s.gangBook[g].leaf, q) && d in s.gangBook[g].held && d in t.shape[q].max
    ensures Get(Used(t.usage[q]), d) + s.gangBook[g].held[d] <= t.shape[q].max[d]
    ensures s.gangBook[g].held[d] <= t.shape[q].max[d]
  {
    var h := s.gangBook[g];
    SeededUsage(t, s, pods, q, d);
    HoldSumSet(t.shape, t.gangs, g, h, q, d);
    HoldSumBelow(t.shape, t.gangs[g := h], s.gangBook, q, d);
    PodSumNonNegative(t.shape, s.book, Committed, q, d);
    PodSumNonNegative(t.shape, s.book, Reserved, q, d);
    HoldSumNonNegative(t.shape, t.gangs, q, d);
    assert LedgerSum(t.shape, s, q, d) <= t.shape[q].max[d];
  }

  /** A gang still to come fits, when the whole ledger does. */
  lemma NextGangFits(t: Tree, s: State, pods: seq<string>, g: string)
    requires Inv(s) && BooksNonNegative(s.book) && Enumerates(pods, s.book.Keys)
    requires Balanced(t, Survivors(t.shape, s.book, pods)) && HoldsRecorded(t, SurvivingGangs(t.shape, s.gangBook))
    requires g in s.gangBook && g !in t.gangs && IsLeaf(t.shape, s.gangBook[g].leaf) && LedgerFits(t.shape, s, g)
    ensures CanFit(t.shape, t.usage, s.gangBook[g].leaf, s.gangBook[g].held)
    ensures FitsMax(t.shape, s.gangBook[g].leaf, s.gangBook[g].held)
  {
    var h := s.gangBook[g];
    forall q, d | q in t.shape && OnPath(t.shape, h.leaf, q) && d in h.held && d in t.shape[q].max
      ensures Get(Used(t.usage[q]), d) + h.held[d] <= t.shape[q].max[d] && h.held[d] <= t.shape[q].max[d]
    {
      GangRoom(t, s, pods, g, q, d);
    }
  }

  lemma {:induction false} SeedGangsKeep(t: Tree, gangBook: map<string, Hold>, order: seq<string>, n: nat)
    requires n <= |order| && forall g :: g in order ==> g in gangBook
    ensures SeedGangs(t, gangBook, order[..n]).gangs.Keys <= SeedGangs(t, gangBook, order).gangs.Keys
    decreases |order|
  {
    if n < |order| {
      SeedGangsKeep(t, gangBook, order[..|order| - 1], n);
      assert order[..|order| - 1][..n] == order[..n];
    } else {
      assert order[..n] == order;
    }
  }

  lemma {:induction false} SeedGangsOnly(t: Tree, gangBook: map<string, Hold>, order: seq<string>)
    requires t.gangs == map[] && forall g :: g in order ==> g in gangBook
    ensures forall g :: g in SeedGangs(t, gangBook, order).gangs ==> g in order
    decreases |order|
  {
    if order != [] {
      SeedGangsOnly(t, gangBook, order[..|order| - 1]);
    }
  }

  /** A gang on a surviving leaf loses its hold in a rebuild only if the ledger
      over-commits some queue on its path, whatever order the maps are walked in. */
  lemma RebuildKeepsGang(s: State, shape: Shape, pods: seq<string>, gangs: seq<string>, g: string)
    requires Inv(s) && BooksNonNegative(s.book) && Enabled(s, OpRebuild(shape, pods, gangs))
    requires g in s.gangBook && IsLeaf(shape, s.gangBook[g].leaf) && LedgerFits(shape, s, g)
    ensures g in Rebuild(s, shape, pods, gangs).tree.value.gangs
  {
    var i :| 0 <= i < |gangs| && gangs[i] == g;
    var t0 := Tree(shape, SeedPods(shape, s.book, pods), map[]);
    assert gangs[..i + 1] == gangs[..i] + [g];
    SeededNext(s, shape, pods, gangs[..i], g);
    SeedGangsKeep(t0, s.gangBook, gangs, i + 1);
  }

  /** The gang after `front` gets its hold when its turn comes. */
  lemma SeededNext(s: State, shape: Shape, pods: seq<string>, front: seq<string>, g: string)
    requires Inv(s) && BooksNonNegative(s.book) && WellFormed(shape) && Enumerates(pods, s.book.Keys)
    requires (forall x :: x in front ==> x in s.gangBook) && g in s.gangBook && g !in front
    requires IsLeaf(shape, s.gangBook[g].leaf) && LedgerFits(shape, s, g)
    ensures g in SeedGangs(Tree(shape, SeedPods(shape, s.book, pods), map[]), s.gangBook, front + [g]).gangs
  {
    var t0 := Tree(shape, SeedPods(shape, s.book, pods), map[]);
    var t := SeedGangs(t0, s.gangBook, front);
    SeededSoFar(s, shape, pods, front, t);
    NextGangFits(t, s, pods, g);
    AdmitsWhatFits(t, s.gangBook[g].leaf, g, s.gangBook[g].held);
    SeedGangsSnoc(t0, s.gangBook, front, g);
  }

  lemma SeededSoFar(s: State, shape: Shape, pods: seq<string>, front: seq<string>, t: Tree)
    requires Enumerates(pods, s.book.Keys) && forall x :: x in front ==> x in s.gangBook
    requires t == SeedGangs(Tree(shape, SeedPods(shape, s.book, pods), map[]), s.gangBook, front)
    ensures t.shape == shape && Balanced(t, Survivors(shape, s.book, pods))
    ensures HoldsRecorded(t, SurvivingGangs(shape, s.gangBook)) && forall g :: g in t.gangs ==> g in front
  {
    var t0 := Tree(shape, SeedPods(shape, s.book, pods), map[]);
    BalancedSeedPods(shape, s.book, pods);
    BalancedSeedGangs(t0, Survivors(shape, s.book, pods), s.gangBook, front);
    SeedGangsOnly(t0, s.gangBook, front);
  }

  lemma AdmitsWhatFits(t: Tree, leaf: string, g: string, need: Resource)
    requires g != "" && StrictlyGtZero(need) && IsLeaf(t.shape, leaf)
    requires FitsMax(t.shape, leaf, need) && CanFit(t.shape, t.usage, leaf, need)
    ensures g in TreeAdmitGang(t, leaf, g, need).0.gangs
  {}

  /** Admitting a gang lowers nothing. */
  lemma AdmissionGrows(t: Tree, leaf: string, g: string, need: Resource, q: string, d: string)
    requires q in t.usage
    ensures var t' := TreeAdmitGang(t, leaf, g, need).0;
      t'.shape == t.shape && t'.usage.Keys == t.usage.Keys && Get(Used(t'.usage[q]), d) >= Get(Used(t.usage[q]), d)
  {
    if StrictlyGtZero(need) {
      NonNegativeGet(need, d);
    }
  }

  /** A queue has no room for the need on some dimension. */
  lemma NoRoomAt(t: Tree, leaf: string, need: Resource) returns (q: string, d: string)
    requires !CanFit(t.shape, t.usage, leaf, need)
    ensures q in t.shape && q in t.usage && OnPath(t.shape, leaf, q)
    ensures d in need && d in t.shape[q].max && need[d] > t.shape[q].max[d] - Get(Used(t.usage[q]), d)
  {
    q :| q in t.shape && q in t.usage && OnPath(t.shape, leaf, q) && !FitsHere(t.shape[q].max, Used(t.usage[q]), need);
    d :| d in need && d in t.shape[q].max && need[d] > t.shape[q].max[d] - Get(Used(t.usage[q]), d);
  }

  lemma NoRoomMeans(t: Tree, leaf: string, need: Resource, q: string, d: string)
    requires q in t.shape && q in t.usage && OnPath(t.shape, leaf, q)
    requires d in need && d in t.shape[q].max && need[d] > t.shape[q].max[d] - Get(Used(t.usage[q]), d)
    ensures !CanFit(t.shape, t.usage, leaf, need)
  {
    assert !FitsHere(t.shape[q].max, Used(t.usage[q]), need);
  }

  /** A gang that finds no room in a tree finds none once another gang has got in. */
  lemma RefusalStays(t: Tree, leaf: string, need: Resource, other: string, g: string, more: Resource)
    requires !CanFit(t.shape, t.usage, leaf, need)
    ensures var t' := TreeAdmitGang(t, other, g, more).0; !CanFit(t'.shape, t'.usage, leaf, need)
  {
    var q, d := NoRoomAt(t, leaf, need);
    AdmissionGrows(t, other, g, more, q, d);
    NoRoomMeans(TreeAdmitGang(t, other, g, more).0, leaf, need, q, d);
  }

  lemma {:induction false} RefusalLasts(t: Tree, gangBook: map<string, Hold>, order: seq<string>, n: nat,
                                        leaf: string, need: Resource)
    requires n <= |order| && forall g :: g in order ==> g in gangBook
    requires var at := SeedGangs(t, gangBook, order[..n]); !CanFit(at.shape, at.usage, leaf, need)
    ensures var end := SeedGangs(t, gangBook, order); !CanFit(end.shape, end.usage, leaf, need)
    decreases |order|
  {
    if n == |order| {
      assert order[..n] == order;
    } else {
      var front, g := order[..|order| - 1], order[|order| - 1];
      assert front[..n] == order[..n];
      RefusalLasts(t, gangBook, front, n, leaf, need);
      RefusalStays(SeedGangs(t, gangBook, front), leaf, need, gangBook[g].leaf, g, gangBook[g].held);
    }
  }

  lemma {:induction false} SeedGangsShape(t: Tree, gangBook: map<string, Hold>, order: seq<string>)
    requires forall g :: g in order ==> g in gangBook
    ensures SeedGangs(t, gangBook, order).shape == t.shape
    decreases |order|
  {
    if order != [] {
      SeedGangsShape(t, gangBook, order[..|order| - 1]);
    }
  }

  /** The gang after `front` either gets its hold or does not fit. */
  lemma SeededOrRefused(t0: Tree, gangBook: map<string, Hold>, front: seq<string>, g: string)
    requires t0.gangs == map[] && (forall x :: x in front ==> x in gangBook) && g in gangBook && g !in front
    requires g != "" && StrictlyGtZero(gangBook[g].held)
    requires IsLeaf(SeedGangs(t0, gangBook, front).shape, gangBook[g].leaf)
    ensures var t, h := SeedGangs(t0, gangBook, front), gangBook[g];
      || g in SeedGangs(t0, gangBook, front + [g]).gangs
      || !FitsMax(t.shape, h.leaf, h.held) || !CanFit(t.shape, t.usage, h.leaf, h.held)
  {
    SeedGangsSnoc(t0, gangBook, front, g);
    SeedGangsOnly(t0, gangBook, front);
  }

  /** The holds after a rebuild are maximal: a gang on a live leaf that lost its hold would
      not fit the finished tree either, whatever order the maps were walked in. */
  lemma RebuildMaximal(s: State, shape: Shape, pods: seq<string>, gangs: seq<string>, g: string)
    requires Inv(s) && Enabled(s, OpRebuild(shape, pods, gangs))
    requires g in s.gangBook && IsLeaf(shape, s.gangBook[g].leaf)
    ensures var t, h := Rebuild(s, shape, pods, gangs).tree.value, s.gangBook[g];
      g !in t.gangs ==> !FitsMax(t.shape, h.leaf, h.held) || !CanFit(t.shape, t.usage, h.leaf, h.held)
  {
    var i :| 0 <= i < |gangs| && gangs[i] == g;
    MaximalAt(Tree(shape, SeedPods(shape, s.book, pods), map[]), s.gangBook, gangs, i);
  }

  lemma MaximalAt(t0: Tree, gangBook: map<string, Hold>, gangs: seq<string>, i: nat)
    requires t0.gangs == map[] && Enumerates(gangs, gangBook.Keys) && i < |gangs| && gangs[i] != ""
    requires StrictlyGtZero(gangBook[gangs[i]].held) && IsLeaf(t0.shape, gangBook[gangs[i]].leaf)
    ensures var t, h := SeedGangs(t0, gangBook, gangs), gangBook[gangs[i]];
      gangs[i] !in t.gangs ==> !FitsMax(t.shape, h.leaf, h.held) || !CanFit(t.shape, t.usage, h.leaf, h.held)
  {
    var h, front := gangBook[gangs[i]], gangs[..i];
    SeedGangsShape(t0, gangBook, front);
    SeedGangsShape(t0, gangBook, gangs);
    SeededOrRefused(t0, gangBook, front, gangs[i]);
    assert gangs[..i + 1] == front + [gangs[i]];
    SeedGangsKeep(t0, gangBook, gangs, i + 1);
    if !CanFit(t0.shape, SeedGangs(t0, gangBook, front).usage, h.leaf, h.held) {
      RefusalLasts(t0, gangBook, gangs, i, h.leaf, h.held);
    }
  }

  /** The dimensions the admitted gangs list are within max along their paths. */
  ghost predicate HoldersWithinMax(t: Tree, gangBook: map<string, Hold>, order: seq<string>)
    requires forall g :: g in order ==> g in gangBook
  {
    forall g, q, d :: g in order && OnPath(t.shape, gangBook[g].leaf, q) && q in t.shape && q in t.usage
                      && d in gangBook[g].held && d in t.shape[q].max ==>
      Get(Used(t.usage[q]), d) <= t.shape[q].max[d]
  }

  /** Of distinct gangs that are all admitted, those before the last were already. */
  lemma AdmittedBefore(t: Tree, gangBook: map<string, Hold>, order: seq<string>, n: nat)
    requires t.gangs == map[] && n + 1 == |order| && forall g :: g in order ==> g in gangBook
    requires forall i, j :: 0 <= i < j < |order| ==> order[i] != order[j]
    requires forall g :: g in order ==> g in SeedGangs(t, gangBook, order).gangs
    ensures order[n] !in SeedGangs(t, gangBook, order[..n]).gangs
    ensures forall g :: g in order[..n] ==> g in SeedGangs(t, gangBook, order[..n]).gangs
  {
    SeedGangsOnly(t, gangBook, order[..n]);
    forall g | g in order[..n] ensures g in SeedGangs(t, gangBook, order[..n]).gangs {
      assert g in SeedGangs(t, gangBook, order).gangs;
    }
  }

  /** Seeding gangs that are all admitted leaves each of their paths within max. */
  lemma {:induction false} AdmittedWithinMax(t: Tree, gangBook: map<string, Hold>, order: seq<string>)
    requires t.gangs == map[] && forall g :: g in order ==> g in gangBook
    requires forall i, j :: 0 <= i < j < |order| ==> order[i] != order[j]
    requires forall g :: g in order ==> g in SeedGangs(t, gangBook, order).gangs
    ensures HoldersWithinMax(SeedGangs(t, gangBook, order), gangBook, order)
    decreases |order|
  {
    if order != [] {
      var n := |order| - 1;
      AdmittedBefore(t, gangBook, order, n);
      AdmittedWithinMax(t, gangBook, order[..n]);
      assert order == order[..n] + [order[n]] && order[n] in order;
      AdmittedNext(t, gangBook, order[..n], order[n]);
    }
  }

  lemma AdmittedNext(t: Tree, gangBook: map<string, Hold>, front: seq<string>, next: string)
    requires next in gangBook && forall g :: g in front ==> g in gangBook
    requires HoldersWithinMax(SeedGangs(t, gangBook, front), gangBook, front)
    requires next !in SeedGangs(t, gangBook, front).gangs && next in SeedGangs(t, gangBook, front + [next]).gangs
    ensures HoldersWithinMax(SeedGangs(t, gangBook, front + [next]), gangBook, front + [next])
  {
    SeedGangsSnoc(t, gangBook, front, next);
    HoldersWithinMaxStep(SeedGangs(t, gangBook, front), gangBook, front, next);
  }

  lemma HoldersWithinMaxStep(t: Tree, gangBook: map<string, Hold>, order: seq<string>, next: string)
    requires next in gangBook && next !in t.gangs && forall g :: g in order ==> g in gangBook
    requires HoldersWithinMax(t, gangBook, order)
    requires next in TreeAdmitGang(t, gangBook[next].leaf, next, gangBook[next].held).0.gangs
    ensures var h := gangBook[next];
      HoldersWithinMax(TreeAdmitGang(t, h.leaf, next, h.held).0, gangBook, order + [next])
  {
    var h := gangBook[next];
    var t' := TreeAdmitGang(t, h.leaf, next, h.held).0;
    forall g, q, d | g in order + [next] && OnPath(t.shape, gangBook[g].leaf, q) && q in t.shape && q in t.usage
                     && d in gangBook[g].held && d in t.shape[q].max
      ensures Get(Used(t'.usage[q]), d) <= t.shape[q].max[d]
    {
      if OnPath(t.shape, h.leaf, q) && d in h.held {
        assert FitsHere(t.shape[q].max, Used(t.usage[q]), h.held);
      } else {
        assert g in order;
      }
    }
  }

  /** Exactly when: a rebuild keeps every gang's hold if and only if every booked gang's queue
      is still a leaf and the whole ledger stays within max along its path. The answer is the
      same for every order the maps are walked in. */
  lemma RebuildKeepsAllGangs(s: State, shape: Shape, pods: seq<string>, gangs: seq<string>)
    requires Inv(s) && BooksNonNegative(s.book) && Enabled(s, OpRebuild(shape, pods, gangs))
    ensures Rebuild(s, shape, pods, gangs).tree.value.gangs == s.gangBook
       <==> forall g :: g in s.gangBook ==> IsLeaf(shape, s.gangBook[g].leaf) && LedgerFits(shape, s, g)
  {
    if forall g :: g in s.gangBook ==> IsLeaf(shape, s.gangBook[g].leaf) && LedgerFits(shape, s, g) {
      FitsMeansKept(s, shape, pods, gangs);
    }
    if Rebuild(s, shape, pods, gangs).tree.value.gangs == s.gangBook {
      KeptMeansLeaf(s, shape, pods, gangs);
      KeptMeansFits(s, shape, pods, gangs);
    }
  }

  lemma KeptMeansLeaf(s: State, shape: Shape, pods: seq<string>, gangs: seq<string>)
    requires Inv(s) && Enabled(s, OpRebuild(shape, pods, gangs))
    requires Rebuild(s, shape, pods, gangs).tree.value.gangs == s.gangBook
    ensures forall g :: g in s.gangBook ==> IsLeaf(shape, s.gangBook[g].leaf)
  {
    BalancedSeedPods(shape, s.book, pods);
    BalancedSeedGangs(Tree(shape, SeedPods(shape, s.book, pods), map[]), Survivors(shape, s.book, pods), s.gangBook,
      gangs);
  }

  lemma FitsMeansKept(s: State, shape: Shape, pods: seq<string>, gangs: seq<string>)
    requires Inv(s) && BooksNonNegative(s.book) && Enabled(s, OpRebuild(shape, pods, gangs))
    requires forall g :: g in s.gangBook ==> IsLeaf(shape, s.gangBook[g].leaf) && LedgerFits(shape, s, g)
    ensures Rebuild(s, shape, pods, gangs).tree.value.gangs == s.gangBook
  {
    RebuildInv(s, shape, pods, gangs);
    forall g | g in s.gangBook ensures g in Rebuild(s, shape, pods, gangs).tree.value.gangs {
      RebuildKeepsGang(s, shape, pods, gangs, g);
    }
  }

  lemma KeptMeansFits(s: State, shape: Shape, pods: seq<string>, gangs: seq<string>)
    requires Inv(s) && Enabled(s, OpRebuild(shape, pods, gangs))
    requires Rebuild(s, shape, pods, gangs).tree.value.gangs == s.gangBook
    ensures forall g :: g in s.gangBook ==> LedgerFits(shape, s, g)
  {
    var t0 := Tree(shape, SeedPods(shape, s.book, pods), map[]);
    var left := Survivors(shape, s.book, pods);
    var t := SeedGangs(t0, s.gangBook, gangs);
    BalancedSeedPods(shape, s.book, pods);
    AdmittedWithinMax(t0, s.gangBook, gangs);
    BalancedSeedGangs(t0, left, s.gangBook, gangs);
    forall g, q, d | g in s.gangBook && OnPath(shape, s.gangBook[g].leaf, q) && q in shape
                     && d in s.gangBook[g].held && d in shape[q].max
      ensures LedgerSum(shape, s, q, d) <= shape[q].max[d]
    {
      assert g in gangs;
      SeededUsage(t, s, pods, q, d);
    }
  }

  /** When every hold is kept, each queue's usage in the new tree is the ledger sum. */
  lemma RebuildUsage(s: State, shape: Shape, pods: seq<string>, gangs: seq<string>, q: string, d: string)
    requires Inv(s) && Enabled(s, OpRebuild(shape, pods, gangs)) && q in shape
    requires Rebuild(s, shape, pods, gangs).tree.value.gangs == s.gangBook
    ensures q in Rebuild(s, shape, pods, gangs).tree.value.usage
    ensures Get(Used(Rebuild(s, shape, pods, gangs).tree.value.usage[q]), d) == LedgerSum(shape, s, q, d)
  {
    BalancedSeedPods(shape, s.book, pods);
    BalancedSeedGangs(Tree(shape, SeedPods(shape, s.book, pods), map[]), Survivors(shape, s.book, pods), s.gangBook,
      gangs);
    SeededUsage(Rebuild(s, shape, pods, gangs).tree.value, s, pods, q, d);
  }
}
