/** The rolled-up counters of the tree always equal a plain sum over the ledger. */
module Balance {
  import opened Vectors
  import opened Sums
  import opened QueueTree
  import opened Ledger

  /** What one booking contributes to queue `q` on dimension `d`: its request, when
      it is in state `st` and its path is a live leaf at or below `q`. */
  function PodShare(t: Shape, rec: Booking, st: BookState, q: string, d: string): int {
    if rec.state == st && IsLeaf(t, rec.leaf) && OnPath(t, rec.leaf, q) then Get(rec.req, d) else 0
  }

  function HoldShare(t: Shape, h: Hold, q: string, d: string): int {
    if IsLeaf(t, h.leaf) && OnPath(t, h.leaf, q) then Get(h.held, d) else 0
  }

  ghost function PodSum(t: Shape, book: map<string, Booking>, st: BookState, q: string, d: string): int {
    Sum(map u | u in book :: PodShare(t, book[u], st, q, d))
  }

  ghost function HoldSum(t: Shape, gangs: map<string, Hold>, q: string, d: string): int {
    Sum(map g | g in gangs :: HoldShare(t, gangs[g], q, d))
  }

  /** Queue `q`'s counters read as the ledger sums on dimension `d`. */
  ghost predicate BalancedAt(t: Tree, book: map<string, Booking>, q: string, d: string)
    requires q in t.usage
  {
    && Get(t.usage[q].confirmed, d) == PodSum(t.shape, book, Committed, q, d)
    && Get(t.usage[q].inflight, d) == PodSum(t.shape, book, Reserved, q, d) + HoldSum(t.shape, t.gangs, q, d)
  }

  ghost predicate Balanced(t: Tree, book: map<string, Booking>) {
    && t.usage.Keys == t.shape.Keys
    && forall q, d :: q in t.usage ==> BalancedAt(t, book, q, d)
  }

  /** The tree's holds are some of the gang ledger's, with equal leaf and amount, and each
      sits on a live leaf. */
  ghost predicate HoldsRecorded(t: Tree, gangBook: map<string, Hold>) {
    forall g :: g in t.gangs ==> g in gangBook && t.gangs[g] == gangBook[g] && IsLeaf(t.shape, t.gangs[g].leaf)
  }

  ghost predicate Inv(s: State) {
    && (forall g :: g in s.gangBook ==> g != "" && StrictlyGtZero(s.gangBook[g].held))
    && match s.tree
       case None => s.book == map[] && s.gangBook == map[]
       case Some(t) => WellFormed(t.shape) && Balanced(t, s.book) && HoldsRecorded(t, s.gangBook)
  }

  // ---------------------------------------------------------------- sums under updates

  lemma PodSumSet(t: Shape, book: map<string, Booking>, uid: string, rec: Booking, st: BookState, q: string, d: string)
    ensures PodSum(t, book[uid := rec], st, q, d)
         == PodSum(t, book, st, q, d) - (if uid in book then PodShare(t, book[uid], st, q, d) else 0)
            + PodShare(t, rec, st, q, d)
  {
    var m := map u | u in book :: PodShare(t, book[u], st, q, d);
    var book' := book[uid := rec];
    SumUpdate(m, uid, PodShare(t, rec, st, q, d));
    assert m[uid := PodShare(t, rec, st, q, d)] == map u | u in book' :: PodShare(t, book'[u], st, q, d);
  }

  lemma PodSumDrop(t: Shape, book: map<string, Booking>, uid: string, st: BookState, q: string, d: string)
    requires uid in book
    ensures PodSum(t, book - {uid}, st, q, d) == PodSum(t, book, st, q, d) - PodShare(t, book[uid], st, q, d)
  {
    var m := map u | u in book :: PodShare(t, book[u], st, q, d);
    SumRemove(m, uid);
    assert m - {uid} == map u | u in book - {uid} :: PodShare(t, (book - {uid})[u], st, q, d);
  }

  lemma HoldSumSet(t: Shape, gangs: map<string, Hold>, g: string, h: Hold, q: string, d: string)
    requires g !in gangs
    ensures HoldSum(t, gangs[g := h], q, d) == HoldSum(t, gangs, q, d) + HoldShare(t, h, q, d)
  {
    var m := map k | k in gangs :: HoldShare(t, gangs[k], q, d);
    var gangs' := gangs[g := h];
    SumUpdate(m, g, HoldShare(t, h, q, d));
    assert m[g := HoldShare(t, h, q, d)] == map k | k in gangs' :: HoldShare(t, gangs'[k], q, d);
  }

  lemma HoldSumDrop(t: Shape, gangs: map<string, Hold>, g: string, q: string, d: string)
    requires g in gangs
    ensures HoldSum(t, gangs - {g}, q, d) == HoldSum(t, gangs, q, d) - HoldShare(t, gangs[g], q, d)
  {
    var m := map k | k in gangs :: HoldShare(t, gangs[k], q, d);
    SumRemove(m, g);
    assert m - {g} == map k | k in gangs - {g} :: HoldShare(t, (gangs - {g})[k], q, d);
  }

  // ---------------------------------------------------------------- one booking changes

  /** Booking `rec` afresh, with the roll-up its state calls for. */
  lemma BalancedBook(t: Tree, book: map<string, Booking>, uid: string, rec: Booking)
    requires Balanced(t, book) && uid !in book
    ensures var op := if rec.state == Committed then Allocate else Reserve;
      Balanced(TreeMutate(t, rec.leaf, op, rec.req), book[uid := rec])
  {
    var t' := TreeMutate(t, rec.leaf, if rec.state == Committed then Allocate else Reserve, rec.req);
    var book' := book[uid := rec];
    forall q, d | q in t'.usage ensures BalancedAt(t', book', q, d) {
      assert BalancedAt(t, book, q, d);
      PodSumSet(t.shape, book, uid, rec, Committed, q, d);
      PodSumSet(t.shape, book, uid, rec, Reserved, q, d);
    }
  }

  lemma BalancedCommit(t: Tree, book: map<string, Booking>, uid: string)
    requires Balanced(t, book) && uid in book && book[uid].state == Reserved
    ensures Balanced(TreeMutate(t, book[uid].leaf, Commit, book[uid].req), book[uid := book[uid].(state := Committed)])
  {
    var rec := book[uid].(state := Committed);
    var t' := TreeMutate(t, rec.leaf, Commit, rec.req);
    var book' := book[uid := rec];
    forall q, d | q in t'.usage ensures BalancedAt(t', book', q, d) {
      assert BalancedAt(t, book, q, d);
      PodSumSet(t.shape, book, uid, rec, Committed, q, d);
      PodSumSet(t.shape, book, uid, rec, Reserved, q, d);
    }
  }

  lemma BalancedUnbook(t: Tree, book: map<string, Booking>, uid: string)
    requires Balanced(t, book) && uid in book
    ensures Balanced(TreeMutate(t, book[uid].leaf, ReleaseOp(book[uid]), book[uid].req), book - {uid})
  {
    var rec := book[uid];
    var t' := TreeMutate(t, rec.leaf, ReleaseOp(rec), rec.req);
    forall q, d | q in t'.usage ensures BalancedAt(t', book - {uid}, q, d) {
      assert BalancedAt(t, book, q, d);
      PodSumDrop(t.shape, book, uid, Committed, q, d);
      PodSumDrop(t.shape, book, uid, Reserved, q, d);
    }
  }

  // ---------------------------------------------------------------- one gang changes

  lemma BalancedAdmitGang(t: Tree, book: map<string, Booking>, leaf: string, g: string, need: Resource)
    requires Balanced(t, book)
    ensures Balanced(TreeAdmitGang(t, leaf, g, need).0, book)
  {
    var t' := TreeAdmitGang(t, leaf, g, need).0;
    if t' != t {
      forall q, d | q in t'.usage ensures BalancedAt(t', book, q, d) {
        assert BalancedAt(t, book, q, d);
        HoldSumSet(t.shape, t.gangs, g, Hold(leaf, need), q, d);
      }
    }
  }

  lemma BalancedReleaseGang(t: Tree, book: map<string, Booking>, g: string)
    requires Balanced(t, book)
    requires g in t.gangs ==> IsLeaf(t.shape, t.gangs[g].leaf)
    ensures Balanced(TreeReleaseGang(t, g), book)
  {
    var t' := TreeReleaseGang(t, g);
    if g in t.gangs {
      forall q, d | q in t'.usage ensures BalancedAt(t', book, q, d) {
        assert BalancedAt(t, book, q, d);
        HoldSumDrop(t.shape, t.gangs, g, q, d);
      }
    }
  }

  // ---------------------------------------------------------------- rebuild

  lemma {:induction false} BalancedSeedPods(t: Shape, book: map<string, Booking>, order: seq<string>)
    requires forall u :: u in order ==> u in book
    requires forall i, j :: 0 <= i < j < |order| ==> order[i] != order[j]
    ensures Balanced(Tree(t, SeedPods(t, book, order), map[]), Survivors(t, book, order))
    decreases |order|
  {
    if order == [] {
      BalancedEmpty(t, Survivors(t, book, order));
    } else {
      var n := |order| - 1;
      assert order == order[..n] + [order[n]];
      BalancedSeedPods(t, book, order[..n]);
      SeedPodsSnoc(t, EmptyUsage(t), book, order[..n], order[n]);
      SurvivorsSnoc(t, book, order[..n], order[n]);
      var before := Tree(t, SeedPods(t, book, order[..n]), map[]);
      BalancedReplay(before, Survivors(t, book, order[..n]), order[n], book[order[n]]);
    }
  }

  lemma BalancedEmpty(t: Shape, book: map<string, Booking>)
    requires book == map[]
    ensures Balanced(EmptyTree(t), book)
  {}

  /** The survivors once one more booking is walked. */
  lemma SurvivorsSnoc(t: Shape, book: map<string, Booking>, front: seq<string>, u: string)
    requires u in book && u !in front
    ensures u !in Survivors(t, book, front)
    ensures Survivors(t, book, front + [u])
         == if book[u].leaf in t then Survivors(t, book, front)[u := book[u]] else Survivors(t, book, front)
  {}

  /** Replaying one booking; one whose queue is gone changes nothing. */
  lemma BalancedReplay(t: Tree, book: map<string, Booking>, uid: string, rec: Booking)
    requires Balanced(t, book) && uid !in book
    ensures var op := if rec.state == Committed then Allocate else Reserve;
      Balanced(TreeMutate(t, rec.leaf, op, rec.req), if rec.leaf in t.shape then book[uid := rec] else book)
  {
    if rec.leaf in t.shape {
      BalancedBook(t, book, uid, rec);
    }
  }

  lemma {:induction false} BalancedSeedGangs(t: Tree, book: map<string, Booking>, gangBook: map<string, Hold>,
                                             order: seq<string>)
    requires forall g :: g in order ==> g in gangBook
    requires Balanced(t, book) && t.gangs == map[]
    ensures var t' := SeedGangs(t, gangBook, order);
      t'.shape == t.shape && Balanced(t', book) && HoldsRecorded(t', SurvivingGangs(t.shape, gangBook))
    decreases |order|
  {
    if order != [] {
      var n := |order| - 1;
      BalancedSeedGangs(t, book, gangBook, order[..n]);
      BalancedAdmitGang(SeedGangs(t, gangBook, order[..n]), book, gangBook[order[n]].leaf, order[n],
        gangBook[order[n]].held);
    }
  }

  lemma RebuildInv(s: State, shape: Shape, pods: seq<string>, gangs: seq<string>)
    requires Inv(s) && Enabled(s, OpRebuild(shape, pods, gangs))
    ensures Inv(Rebuild(s, shape, pods, gangs))
  {
    BalancedSeedPods(shape, s.book, pods);
    BalancedSeedGangs(Tree(shape, SeedPods(shape, s.book, pods), map[]), Survivors(shape, s.book, pods), s.gangBook,
      gangs);
  }

  // ---------------------------------------------------------------- every step, every run

  lemma DeleteInv(s: State, uid: string)
    requires Inv(s)
    ensures Inv(ObserveDeleted(s, uid))
  {
    if uid in s.book {
      BalancedUnbook(s.tree.value, s.book, uid);
    }
  }

  lemma {:induction false} DeletePodsInv(s: State, uids: seq<string>)
    requires Inv(s)
    ensures Inv(DeletePods(s, uids))
    decreases |uids|
  {
    if uids != [] {
      DeletePodsInv(s, uids[..|uids| - 1]);
      DeleteInv(DeletePods(s, uids[..|uids| - 1]), uids[|uids| - 1]);
    }
  }

  lemma ReleaseGangInv(s: State, key: string)
    requires Inv(s)
    ensures Inv(ReleaseGang(s, key))
  {
    if key in s.gangBook {
      BalancedReleaseGang(s.tree.value, s.book, key);
    }
  }

  lemma {:induction false} ReleaseGangsInv(s: State, keys: seq<string>)
    requires Inv(s)
    ensures Inv(ReleaseGangs(s, keys))
    decreases |keys|
  {
    if keys != [] {
      ReleaseGangsInv(s, keys[..|keys| - 1]);
      ReleaseGangInv(ReleaseGangs(s, keys[..|keys| - 1]), keys[|keys| - 1]);
    }
  }

  /** What the tree looks like when a gang not yet held is admitted. */
  lemma AdmitGangShape(t: Tree, leaf: string, g: string, need: Resource)
    requires g !in t.gangs && TreeAdmitGang(t, leaf, g, need).1 == Admitted
    ensures var t' := TreeAdmitGang(t, leaf, g, need).0;
      t'.shape == t.shape && t'.gangs == t.gangs[g := Hold(leaf, need)] && IsLeaf(t.shape, leaf)
    ensures g != "" && StrictlyGtZero(need)
  {}

  /** Recording one more hold on both sides keeps the invariant. */
  lemma HoldInv(s: State, leaf: string, key: string, need: Resource, t': Tree)
    requires Inv(s) && s.tree.Some? && key !in s.gangBook
    requires t'.shape == s.tree.value.shape && t'.gangs == s.tree.value.gangs[key := Hold(leaf, need)]
    requires Balanced(t', s.book) && IsLeaf(t'.shape, leaf) && key != "" && StrictlyGtZero(need)
    ensures Inv(s.(tree := Some(t'), gangBook := s.gangBook[key := Hold(leaf, need)]))
  {}

  lemma AdmitInv(s: State, leaf: string, key: string, need: Resource, t': Tree)
    requires Inv(s) && s.tree.Some? && key !in s.gangBook
    requires TreeAdmitGang(s.tree.value, leaf, key, need) == (t', Admitted)
    ensures Inv(s.(tree := Some(t'), gangBook := s.gangBook[key := Hold(leaf, need)]))
  {
    BalancedAdmitGang(s.tree.value, s.book, leaf, key, need);
    AdmitGangShape(s.tree.value, leaf, key, need);
    HoldInv(s, leaf, key, need, t');
  }

  /** Bids play no part in the invariant. */
  lemma BidsInv(s: State, bids: map<string, Bid>)
    requires Inv(s)
    ensures Inv(s.(bids := bids))
  {}

  lemma AdmitGangInv(s: State, leaf: string, key: string, need: Resource)
    requires Inv(s)
    ensures Inv(AdmitGang(s, leaf, key, need).0)
  {
    if key !in s.gangBook && s.tree.Some? {
      var (t, r) := TreeAdmitGang(s.tree.value, leaf, key, need);
      if r == Admitted { AdmitInv(s, leaf, key, need, t); }
    }
  }

  lemma AdmitGangWWInv(s: State, leaf: string, key: string, need: Resource, rank: WoundWaitKey, now: int)
    requires Inv(s)
    ensures Inv(AdmitGangWW(s, leaf, key, need, rank, now).0)
  {
    var s' := AdmitGangWW(s, leaf, key, need, rank, now).0;
    BidsInv(s, s'.bids);
    if key !in s.gangBook && s.tree.Some? {
      var (t, r) := TreeAdmitGang(s.tree.value, leaf, key, need);
      if r == Admitted {
        AdmitInv(s, leaf, key, need, t);
        BidsInv(s.(tree := Some(t), gangBook := s.gangBook[key := Hold(leaf, need)]), s'.bids);
      }
    }
  }

  lemma BookInv(s: State, uid: string, rec: Booking)
    requires Inv(s) && s.tree.Some? && uid !in s.book
    ensures var op := if rec.state == Committed then Allocate else Reserve;
      Inv(s.(tree := Some(TreeMutate(s.tree.value, rec.leaf, op, rec.req)), book := s.book[uid := rec]))
  {
    BalancedBook(s.tree.value, s.book, uid, rec);
  }

  lemma CommitInv(s: State, uid: string)
    requires Inv(s)
    ensures Inv(CommitPod(s, uid))
  {
    if uid in s.book && s.book[uid].state == Reserved {
      BalancedCommit(s.tree.value, s.book, uid);
    }
  }

  /** Every operation keeps the books balanced. */
  lemma StepInv(s: State, op: Op)
    requires Inv(s) && Enabled(s, op)
    ensures Inv(Step(s, op))
  {
    match op
    case OpRebuild(shape, pods, gangs) => RebuildInv(s, shape, pods, gangs);
    case OpAdmitGang(leaf, key, need) => AdmitGangInv(s, leaf, key, need);
    case OpAdmitGangWW(leaf, key, need, rank, now) => AdmitGangWWInv(s, leaf, key, need, rank, now);
    case OpReleaseGang(key) => ReleaseGangInv(s, key);
    case OpReserve(uid, leaf, req) =>
      if s.tree.Some? && uid !in s.book { BookInv(s, uid, Booking(Reserved, leaf, req)); }
    case OpUnreserve(uid) => DeleteInv(s, uid);
    case OpCommit(uid) => CommitInv(s, uid);
    case OpObserveBound(uid, leaf, req) =>
      CommitInv(s, uid);
      if s.tree.Some? && uid !in s.book { BookInv(s, uid, Booking(Committed, leaf, req)); }
    case OpObserveDeleted(uid) => DeleteInv(s, uid);
    case OpGCBookings(_, order) => DeletePodsInv(s, order);
    case OpGCGangs(_, order) => ReleaseGangsInv(s, order);
  }

  /** Main theorem: in every state of every run from the empty engine, through any
      number of rebuilds, each queue's counters equal the ledger sums. */
  lemma {:induction false} RunBalanced(run: seq<State>, ops: seq<Op>, timeout: int, k: nat)
    requires IsRun(run, ops) && run[0] == Init(timeout) && k < |run|
    ensures Inv(run[k])
    decreases k
  {
    if k > 0 {
      RunBalanced(run, ops, timeout, k - 1);
      StepInv(run[k - 1], ops[k - 1]);
    }
  }

  // ---------------------------------------------------------------- no counter goes negative

  ghost predicate BooksNonNegative(book: map<string, Booking>) {
    forall u :: u in book ==> NonNegative(book[u].req)
  }

  /** A pod request carried by the call has no negative entry. */
  ghost predicate RequestNonNegative(op: Op) {
    match op
    case OpReserve(_, _, req) => NonNegative(req)
    case OpObserveBound(_, _, req) => NonNegative(req)
    case _ => true
  }

  lemma {:induction false} DeletePodsBooks(s: State, uids: seq<string>)
    ensures var s' := DeletePods(s, uids);
      (forall u :: u in s'.book <==> u in s.book && u !in uids) &&
        (forall u :: u in s'.book ==> s'.book[u] == s.book[u])
    decreases |uids|
  {
    if uids != [] {
      DeletePodsBooks(s, uids[..|uids| - 1]);
      assert uids == uids[..|uids| - 1] + [uids[|uids| - 1]];
    }
  }

  lemma {:induction false} ReleaseGangsBooks(s: State, keys: seq<string>)
    ensures ReleaseGangs(s, keys).book == s.book
    decreases |keys|
  {
    if keys != [] {
      ReleaseGangsBooks(s, keys[..|keys| - 1]);
    }
  }

  lemma StepBooksNonNegative(s: State, op: Op)
    requires BooksNonNegative(s.book) && Enabled(s, op) && RequestNonNegative(op)
    ensures BooksNonNegative(Step(s, op).book)
  {
    match op
    case OpGCBookings(_, order) => DeletePodsBooks(s, order);
    case OpGCGangs(_, order) => ReleaseGangsBooks(s, order);
    case _ =>
  }

  lemma PodSumNonNegative(t: Shape, book: map<string, Booking>, st: BookState, q: string, d: string)
    requires BooksNonNegative(book)
    ensures PodSum(t, book, st, q, d) >= 0
  {
    SumNonNegative(map u | u in book :: PodShare(t, book[u], st, q, d));
  }

  lemma HoldSumNonNegative(t: Shape, gangs: map<string, Hold>, q: string, d: string)
    requires forall g :: g in gangs ==> NonNegative(gangs[g].held)
    ensures HoldSum(t, gangs, q, d) >= 0
  {
    SumNonNegative(map g | g in gangs :: HoldShare(t, gangs[g], q, d));
  }

  /** With non-negative pod requests no counter of any queue is ever negative. */
  lemma {:induction false} RunNonNegative(run: seq<State>, ops: seq<Op>, timeout: int, k: nat)
    requires IsRun(run, ops) && run[0] == Init(timeout) && k < |run|
    requires forall i :: 0 <= i < k ==> RequestNonNegative(ops[i])
    ensures BooksNonNegative(run[k].book)
    ensures run[k].tree.Some? ==> forall q, d :: q in run[k].tree.value.usage ==>
      Get(run[k].tree.value.usage[q].confirmed, d) >= 0 && Get(run[k].tree.value.usage[q].inflight, d) >= 0
    decreases k
  {
    if k > 0 {
      RunNonNegative(run, ops, timeout, k - 1);
      StepBooksNonNegative(run[k - 1], ops[k - 1]);
    }
    RunBalanced(run, ops, timeout, k);
    if run[k].tree.Some? {
      CountersNonNegative(run[k]);
    }
  }

  lemma CountersNonNegative(s: State)
    requires Inv(s) && BooksNonNegative(s.book) && s.tree.Some?
    ensures forall q, d :: q in s.tree.value.usage ==>
      Get(s.tree.value.usage[q].confirmed, d) >= 0 && Get(s.tree.value.usage[q].inflight, d) >= 0
  {
    var t := s.tree.value;
    forall q, d | q in t.usage ensures Get(t.usage[q].confirmed, d) >= 0 && Get(t.usage[q].inflight, d) >= 0 {
      assert BalancedAt(t, s.book, q, d);
      PodSumNonNegative(t.shape, s.book, Committed, q, d);
      PodSumNonNegative(t.shape, s.book, Reserved, q, d);
      HoldSumNonNegative(t.shape, t.gangs, q, d);
    }
  }

  // ---------------------------------------------------------------- bookings on interior queues

  /** What a booking would contribute if it counted wherever its path leads. */
  function AnyShare(t: Shape, rec: Booking, st: BookState, q: string, d: string): int {
    if rec.state == st && OnPath(t, rec.leaf, q) then Get(rec.req, d) else 0
  }

  ghost function AnySum(t: Shape, book: map<string, Booking>, st: BookState, q: string, d: string): int {
    Sum(map u | u in book :: AnyShare(t, book[u], st, q, d))
  }

  /** Every booking of the ledger counts, leaf or not. */
  ghost predicate CountsAll(t: Tree, book: map<string, Booking>) {
    forall q, d :: q in t.usage ==>
      && Get(t.usage[q].confirmed, d) == AnySum(t.shape, book, Committed, q, d)
      && Get(t.usage[q].inflight, d) == AnySum(t.shape, book, Reserved, q, d) + HoldSum(t.shape, t.gangs, q, d)
  }

  predicate Interior(t: Shape, p: string) {
    p in t && !t[p].leaf
  }

  lemma ChainInside(t: Shape, from: string, q: string)
    ensures OnPath(t, from, q) ==> from in t
  {}

  lemma SharesAgree(t: Shape, book: map<string, Booking>, st: BookState, q: string, d: string)
    requires forall u :: u in book && Interior(t, book[u].leaf) ==> IsEmpty(book[u].req)
    ensures AnySum(t, book, st, q, d) == PodSum(t, book, st, q, d)
  {
    forall u | u in book ensures AnyShare(t, book[u], st, q, d) == PodShare(t, book[u], st, q, d) {
      ChainInside(t, book[u].leaf, q);
    }
    assert (map u | u in book :: AnyShare(t, book[u], st, q, d))
      == (map u | u in book :: PodShare(t, book[u], st, q, d));
  }

  /** One interior booking with something in it makes the sums differ at its own queue. */
  lemma SharesDiffer(t: Shape, book: map<string, Booking>, u: string, d: string)
    requires BooksNonNegative(book) && u in book && Interior(t, book[u].leaf) && Get(book[u].req, d) != 0
    ensures AnySum(t, book, book[u].state, book[u].leaf, d) > PodSum(t, book, book[u].state, book[u].leaf, d)
  {
    var st, q := book[u].state, book[u].leaf;
    var any := map x | x in book :: AnyShare(t, book[x], st, q, d);
    var counted := map x | x in book :: PodShare(t, book[x], st, q, d);
    forall x | x in book ensures counted[x] <= any[x] {
      NonNegativeGet(book[x].req, d);
    }
    NonNegativeGet(book[u].req, d);
    SumRemove(any, u);
    SumRemove(counted, u);
    SumMonotone(counted - {u}, any - {u});
  }

  /** Exactly when: the counters equal the sums over the whole ledger if and only if every
      booking left on an interior queue asks for nothing. */
  lemma CountsAllExact(s: State)
    requires Inv(s) && BooksNonNegative(s.book) && s.tree.Some?
    ensures CountsAll(s.tree.value, s.book)
       <==> forall u :: u in s.book && Interior(s.tree.value.shape, s.book[u].leaf) ==> IsEmpty(s.book[u].req)
  {
    var t := s.tree.value;
    if forall u :: u in s.book && Interior(t.shape, s.book[u].leaf) ==> IsEmpty(s.book[u].req) {
      forall q, d | q in t.usage
        ensures AnySum(t.shape, s.book, Committed, q, d) == PodSum(t.shape, s.book, Committed, q, d)
        ensures AnySum(t.shape, s.book, Reserved, q, d) == PodSum(t.shape, s.book, Reserved, q, d)
        ensures BalancedAt(t, s.book, q, d)
      {
        SharesAgree(t.shape, s.book, Committed, q, d);
        SharesAgree(t.shape, s.book, Reserved, q, d);
      }
    } else {
      var u :| u in s.book && Interior(t.shape, s.book[u].leaf) && !IsEmpty(s.book[u].req);
      var d :| d in s.book[u].req && s.book[u].req[d] != 0;
      SharesDiffer(t.shape, s.book, u, d);
      assert BalancedAt(t, s.book, s.book[u].leaf, d);
    }
  }
}
