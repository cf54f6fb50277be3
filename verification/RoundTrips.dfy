/** What one call books another gives back exactly: the counters return to the very same
    vectors, with no stray zero entries left behind. */
module RoundTrips {
  import opened Vectors
  import opened QueueTree
  import opened Ledger
  import opened Balance

  /** No counter of any queue stores a zero. */
  ghost predicate Exact(u: Usage) {
    forall q :: q in u ==> Canonical(u[q].confirmed) && Canonical(u[q].inflight)
  }

  ghost predicate ExactState(s: State) {
    s.tree.Some? ==> Exact(s.tree.value.usage)
  }

  // ---------------------------------------------------------------- every run stays exact

  lemma RollExact(t: Shape, u: Usage, leaf: string, op: RollUp, r: Resource)
    requires Exact(u)
    ensures Exact(Roll(t, u, leaf, op, r)) && Exact(Mutate(t, u, leaf, op, r))
  {}

  lemma AdmitExact(t: Tree, leaf: string, gang: string, need: Resource)
    requires Exact(t.usage)
    ensures Exact(TreeAdmitGang(t, leaf, gang, need).0.usage)
  {
    RollExact(t.shape, t.usage, leaf, Reserve, need);
  }

  lemma ReleaseExact(s: State, key: string)
    requires ExactState(s)
    ensures ExactState(ReleaseGang(s, key))
  {
    if s.tree.Some? && key in s.tree.value.gangs {
      var h := s.tree.value.gangs[key];
      RollExact(s.tree.value.shape, s.tree.value.usage, h.leaf, Unreserve, h.held);
    }
  }

  lemma {:induction false} ReleaseGangsExact(s: State, keys: seq<string>)
    requires ExactState(s)
    ensures ExactState(ReleaseGangs(s, keys))
    decreases |keys|
  {
    if keys != [] {
      ReleaseGangsExact(s, keys[..|keys| - 1]);
      ReleaseExact(ReleaseGangs(s, keys[..|keys| - 1]), keys[|keys| - 1]);
    }
  }

  lemma {:induction false} DeletePodsExact(s: State, uids: seq<string>)
    requires ExactState(s)
    ensures ExactState(DeletePods(s, uids))
    decreases |uids|
  {
    if uids != [] {
      DeletePodsExact(s, uids[..|uids| - 1]);
      BookedExact(DeletePods(s, uids[..|uids| - 1]), uids[|uids| - 1]);
    }
  }

  lemma {:induction false} SeedPodsExact(t: Shape, book: map<string, Booking>, order: seq<string>)
    requires forall u :: u in order ==> u in book
    ensures Exact(SeedPods(t, book, order))
    decreases |order|
  {
    if order != [] {
      SeedPodsExact(t, book, order[..|order| - 1]);
    }
  }

  lemma {:induction false} SeedGangsExact(t: Tree, gangBook: map<string, Hold>, order: seq<string>)
    requires Exact(t.usage) && forall g :: g in order ==> g in gangBook
    ensures Exact(SeedGangs(t, gangBook, order).usage)
    decreases |order|
  {
    if order != [] {
      var n := |order| - 1;
      SeedGangsExact(t, gangBook, order[..n]);
      AdmitExact(SeedGangs(t, gangBook, order[..n]), gangBook[order[n]].leaf, order[n], gangBook[order[n]].held);
    }
  }

  lemma AdmitStepExact(s: State, leaf: string, key: string, need: Resource, rank: WoundWaitKey, now: int)
    requires ExactState(s)
    ensures ExactState(AdmitGang(s, leaf, key, need).0) && ExactState(AdmitGangWW(s, leaf, key, need, rank, now).0)
  {
    if s.tree.Some? {
      AdmitExact(s.tree.value, leaf, key, need);
    }
  }

  lemma OnTreeExact(s: State, rec: Booking, op: RollUp)
    requires ExactState(s)
    ensures OnTree(s, rec, op).Some? ==> Exact(OnTree(s, rec, op).value.usage)
  {
    if s.tree.Some? {
      RollExact(s.tree.value.shape, s.tree.value.usage, rec.leaf, op, rec.req);
    }
  }

  lemma BookedExact(s: State, uid: string)
    requires ExactState(s)
    ensures ExactState(Unbook(s, uid)) && ExactState(CommitPod(s, uid)) && ExactState(ObserveDeleted(s, uid))
  {
    if uid in s.book {
      OnTreeExact(s, s.book[uid], Unreserve);
      OnTreeExact(s, s.book[uid], Commit);
      OnTreeExact(s, s.book[uid], ReleaseOp(s.book[uid]));
    }
  }

  lemma BookingExact(s: State, uid: string, leaf: string, req: Resource)
    requires ExactState(s)
    ensures ExactState(Book(s, uid, leaf, req)) && ExactState(ObserveBound(s, uid, leaf, req))
  {
    BookedExact(s, uid);
    OnTreeExact(s, Booking(Reserved, leaf, req), Reserve);
    OnTreeExact(s, Booking(Committed, leaf, req), Allocate);
  }

  lemma StepExact(s: State, op: Op)
    requires ExactState(s) && Enabled(s, op)
    ensures ExactState(Step(s, op))
  {
    match op
    case OpRebuild(shape, pods, gangs) =>
      SeedPodsExact(shape, s.book, pods);
      SeedGangsExact(Tree(shape, SeedPods(shape, s.book, pods), map[]), s.gangBook, gangs);
    case OpAdmitGang(leaf, key, need) => AdmitStepExact(s, leaf, key, need, WoundWaitKey(0, 0, ""), 0);
    case OpAdmitGangWW(leaf, key, need, rank, now) => AdmitStepExact(s, leaf, key, need, rank, now);
    case OpReleaseGang(key) => ReleaseExact(s, key);
    case OpGCBookings(_, order) => DeletePodsExact(s, order);
    case OpGCGangs(_, order) => ReleaseGangsExact(s, order);
    case OpReserve(uid, leaf, req) => BookingExact(s, uid, leaf, req);
    case OpUnreserve(uid) => BookedExact(s, uid);
    case OpCommit(uid) => BookedExact(s, uid);
    case OpObserveBound(uid, leaf, req) => BookingExact(s, uid, leaf, req);
    case OpObserveDeleted(uid) => BookedExact(s, uid);
  }

  /** In every state of every run from the empty engine the counters are exact. */
  lemma {:induction false} RunExact(run: seq<State>, ops: seq<Op>, timeout: int, k: nat)
    requires IsRun(run, ops) && run[0] == Init(timeout) && k < |run|
    ensures ExactState(run[k])
    decreases k
  {
    if k > 0 {
      RunExact(run, ops, timeout, k - 1);
      StepExact(run[k - 1], ops[k - 1]);
    }
  }

  // ---------------------------------------------------------------- what undoes what

  /** `undo` takes back what `op` does to the counters. */
  predicate Undoes(undo: RollUp, op: RollUp) {
    (op == Reserve && undo == Unreserve) || (op == Allocate && undo == Release)
  }

  lemma ApplyBack(c: Counters, op: RollUp, undo: RollUp, r: Resource)
    requires Canonical(c.confirmed) && Canonical(c.inflight) && Undoes(undo, op)
    ensures Apply(undo, Apply(op, c, r), r) == c
  {
    SubAdd(c.confirmed, r);
    SubAdd(c.inflight, r);
  }

  /** A roll-up followed by its opposite leaves every queue as it was; an interior or unknown
      path is refused both times. */
  lemma MutateBack(t: Shape, u: Usage, leaf: string, op: RollUp, undo: RollUp, r: Resource)
    requires Exact(u) && Undoes(undo, op)
    ensures Mutate(t, Mutate(t, u, leaf, op, r), leaf, undo, r) == u
  {
    forall q | q in u ensures Apply(undo, Apply(op, u[q], r), r) == u[q] {
      ApplyBack(u[q], op, undo, r);
    }
  }

  /** Committing a reservation leaves the counters as allocating at once would have. */
  lemma CommitIsAllocate(t: Shape, u: Usage, leaf: string, r: Resource)
    requires Exact(u)
    ensures Mutate(t, Mutate(t, u, leaf, Reserve, r), leaf, Commit, r) == Mutate(t, u, leaf, Allocate, r)
  {
    forall q | q in u ensures Apply(Commit, Apply(Reserve, u[q], r), r) == Apply(Allocate, u[q], r) {
      SubAdd(u[q].inflight, r);
    }
  }

  /** Unreserve undoes Reserve, whether or not the reservation was accepted. */
  lemma ReserveUndone(s: State, uid: string, leaf: string, req: Resource)
    requires ExactState(s) && uid !in s.book
    ensures Unbook(Book(s, uid, leaf, req), uid) == s
  {
    if s.tree.Some? {
      MutateBack(s.tree.value.shape, s.tree.value.usage, leaf, Reserve, Unreserve, req);
    }
  }

  /** A pod that is reserved, committed and deleted leaves no trace. */
  lemma LifecycleUndone(s: State, uid: string, leaf: string, req: Resource)
    requires ExactState(s) && uid !in s.book
    ensures ObserveDeleted(CommitPod(Book(s, uid, leaf, req), uid), uid) == s
  {
    var rec := Booking(Reserved, leaf, req);
    assert s.book[uid := rec][uid := rec.(state := Committed)] - {uid} == s.book;
    if s.tree.Some? {
      CommitIsAllocate(s.tree.value.shape, s.tree.value.usage, leaf, req);
      MutateBack(s.tree.value.shape, s.tree.value.usage, leaf, Allocate, Release, req);
    }
  }

  /** Nor does one that is only ever seen bound and then deleted. */
  lemma ObservationUndone(s: State, uid: string, leaf: string, req: Resource)
    requires ExactState(s) && uid !in s.book
    ensures ObserveDeleted(ObserveBound(s, uid, leaf, req), uid) == s
  {
    assert s.book[uid := Booking(Committed, leaf, req)] - {uid} == s.book;
    if s.tree.Some? {
      MutateBack(s.tree.value.shape, s.tree.value.usage, leaf, Allocate, Release, req);
    }
  }

  lemma TreeAdmitUndone(t: Tree, leaf: string, gang: string, need: Resource)
    requires Exact(t.usage) && gang !in t.gangs
    ensures TreeReleaseGang(TreeAdmitGang(t, leaf, gang, need).0, gang) == t
  {
    MutateBack(t.shape, t.usage, leaf, Reserve, Unreserve, need);
    assert t.gangs[gang := Hold(leaf, need)] - {gang} == t.gangs;
  }

  /** Releasing a gang undoes admitting it, and a refused gang has nothing to release. */
  lemma AdmissionUndone(s: State, leaf: string, key: string, need: Resource)
    requires ExactState(s) && Inv(s) && key !in s.gangBook
    ensures ReleaseGang(AdmitGang(s, leaf, key, need).0, key) == s
  {
    if s.tree.Some? {
      TreeAdmitUndone(s.tree.value, leaf, key, need);
      assert s.gangBook[key := Hold(leaf, need)] - {key} == s.gangBook;
    }
  }
}
