/** What every engine call does, said in the fields of the state before and after it: which
    entries the ledgers gain or lose, and by how much each queue's two counters move
    (pkg/framework/engine.go). */
module CallLaws {
  import opened Vectors
  import opened QueueTree
  import opened Ledger
  import opened Balance
  import opened Limits

  // ---------------------------------------------------------------- how counters move

  predicate Live(t: Shape, p: string) {
    p in t && t[p].leaf
  }

  function Signed(sign: int, x: int): int {
    if sign > 0 then x else if sign < 0 then -x else 0
  }

  /** From `t` to `t'` exactly the queues on the path of `leaf` move: their confirmed usage by
      `r` with sign `c`, and their in-flight usage by `r` with sign `i`. */
  ghost predicate Shifted(t: Tree, t': Tree, leaf: string, r: Resource, c: int, i: int) {
    && t'.shape == t.shape && t'.usage.Keys == t.usage.Keys
    && forall q, d {:trigger ShiftedAt(t, t', leaf, r, c, i, q, d)} :: q in t.usage ==>
         ShiftedAt(t, t', leaf, r, c, i, q, d)
  }

  ghost predicate ShiftedAt(t: Tree, t': Tree, leaf: string, r: Resource, c: int, i: int, q: string, d: string)
    requires q in t.usage && q in t'.usage
  {
    var x := if OnPath(t.shape, leaf, q) then Get(r, d) else 0;
    && Get(t'.usage[q].confirmed, d) == Get(t.usage[q].confirmed, d) + Signed(c, x)
    && Get(t'.usage[q].inflight, d) == Get(t.usage[q].inflight, d) + Signed(i, x)
  }

  /** A booking's move: on a live leaf of the tree it shifts the path, otherwise nothing moves. */
  ghost predicate TreeShifted(s: State, s': State, leaf: string, r: Resource, c: int, i: int) {
    match s.tree
    case None => s'.tree == None
    case Some(t) =>
      && s'.tree.Some? && s'.tree.value.gangs == t.gangs
      && if Live(t.shape, leaf) then Shifted(t, s'.tree.value, leaf, r, c, i) else s'.tree == s.tree
  }

  /** A pod call leaves the gang ledger and the bids alone. */
  ghost predicate GangsKept(s: State, s': State) {
    s'.gangBook == s.gangBook && s'.bids == s.bids && s'.timeout == s.timeout
  }

  /** Which way a roll-up moves each counter. */
  function ConfirmedSign(op: RollUp): int {
    match op
    case Commit => 1
    case Allocate => 1
    case Release => -1
    case _ => 0
  }

  function InflightSign(op: RollUp): int {
    match op
    case Reserve => 1
    case Unreserve => -1
    case Commit => -1
    case _ => 0
  }

  lemma RollShifts(t: Tree, leaf: string, op: RollUp, r: Resource)
    ensures Shifted(t, t.(usage := Roll(t.shape, t.usage, leaf, op, r)), leaf, r, ConfirmedSign(op), InflightSign(op))
  {}

  lemma MutateShifts(t: Tree, leaf: string, op: RollUp, r: Resource)
    ensures var t' := TreeMutate(t, leaf, op, r);
      t'.gangs == t.gangs && if Live(t.shape, leaf) then
        Shifted(t, t', leaf, r, ConfirmedSign(op), InflightSign(op)) else t' == t
  {
    RollShifts(t, leaf, op, r);
  }

  lemma OnTreeShifts(s: State, rec: Booking, op: RollUp)
    requires s.tree.Some?
    ensures OnTree(s, rec, op).Some?
    ensures var t' := OnTree(s, rec, op).value;
      && t'.gangs == s.tree.value.gangs
      && if Live(s.tree.value.shape, rec.leaf)
         then Shifted(s.tree.value, t', rec.leaf, rec.req, ConfirmedSign(op), InflightSign(op)) else t' == s.tree.value
  {
    MutateShifts(s.tree.value, rec.leaf, op, rec.req);
  }

  // ---------------------------------------------------------------- pod calls

  /** Reserve books a new pod on a live leaf: the ledger gains its reservation and the in-flight
      usage along the path rises by the request. In every other case nothing happens. */
  lemma ReserveLaw(s: State, uid: string, leaf: string, req: Resource)
    ensures var s' := Step(s, OpReserve(uid, leaf, req));
      if s.tree.Some? && Live(s.tree.value.shape, leaf) && uid !in s.book then
        s'.book == s.book[uid := Booking(Reserved, leaf, req)] && TreeShifted(s, s', leaf, req, 0, 1) &&
          GangsKept(s, s')
      else s' == s
  {
    if s.tree.Some? {
      MutateShifts(s.tree.value, leaf, Reserve, req);
    }
  }

  /** Unreserve forgets a reserved booking and takes it back; a committed or unknown pod is left alone. */
  lemma UnreserveLaw(s: State, uid: string)
    ensures var s' := Step(s, OpUnreserve(uid));
      if uid in s.book && s.book[uid].state == Reserved then
        && s'.book == s.book - {uid} && GangsKept(s, s')
        && TreeShifted(s, s', s.book[uid].leaf, s.book[uid].req, 0, -1)
      else s' == s
  {
    if s.tree.Some? && uid in s.book {
      OnTreeShifts(s, s.book[uid], Unreserve);
    }
  }

  /** Commit marks a reserved booking committed and moves its request from in-flight to confirmed. */
  lemma CommitLaw(s: State, uid: string)
    ensures var s' := Step(s, OpCommit(uid));
      if uid in s.book && s.book[uid].state == Reserved then
        && s'.book == s.book[uid := Booking(Committed, s.book[uid].leaf, s.book[uid].req)] && GangsKept(s, s')
        && TreeShifted(s, s', s.book[uid].leaf, s.book[uid].req, 1, -1)
      else s' == s
  {
    if s.tree.Some? && uid in s.book {
      OnTreeShifts(s, s.book[uid], Commit);
    }
  }

  /** A bound pod that is known and reserved is committed; one that is unknown, on a queue of the
      tree, is booked as committed and raises the confirmed usage. In every other case nothing happens. */
  lemma ObserveBoundLaw(s: State, uid: string, leaf: string, req: Resource)
    ensures var s' := Step(s, OpObserveBound(uid, leaf, req));
      if s.tree.Some? && uid in s.book && s.book[uid].state == Reserved then
        && s'.book == s.book[uid := Booking(Committed, s.book[uid].leaf, s.book[uid].req)] && GangsKept(s, s')
        && TreeShifted(s, s', s.book[uid].leaf, s.book[uid].req, 1, -1)
      else if s.tree.Some? && uid !in s.book && leaf in s.tree.value.shape then
        s'.book == s.book[uid := Booking(Committed, leaf, req)] && TreeShifted(s, s', leaf, req, 1, 0) &&
          GangsKept(s, s')
      else s' == s
  {
    if s.tree.Some? {
      MutateShifts(s.tree.value, leaf, Allocate, req);
      if uid in s.book {
        OnTreeShifts(s, s.book[uid], Commit);
      }
    }
  }

  /** A deleted pod is forgotten and gives back what its state holds. */
  lemma ObserveDeletedLaw(s: State, uid: string)
    ensures var s' := Step(s, OpObserveDeleted(uid));
      if uid in s.book then
        && s'.book == s.book - {uid} && GangsKept(s, s')
        && if s.book[uid].state == Committed then TreeShifted(s, s', s.book[uid].leaf, s.book[uid].req, -1, 0)
           else TreeShifted(s, s', s.book[uid].leaf, s.book[uid].req, 0, -1)
      else s' == s
  {
    if s.tree.Some? && uid in s.book {
      OnTreeShifts(s, s.book[uid], Release);
      OnTreeShifts(s, s.book[uid], Unreserve);
    }
  }

  /** The gate, read off the reservation it stands before: a request passes exactly when, once
      reserved, each queue of the path is within max on every dimension both list. */
  lemma GateMeansRoom(s: State, uid: string, leaf: string, req: Resource)
    requires s.tree.Some? && s.tree.value.usage.Keys == s.tree.value.shape.Keys
    requires Live(s.tree.value.shape, leaf) && uid !in s.book
    ensures var t, s' := s.tree.value, Step(s, OpReserve(uid, leaf, req));
      && s'.tree.Some? && s'.tree.value.usage.Keys == t.usage.Keys
      && (CanFit(t.shape, t.usage, leaf, req) <==>
          forall q, d :: q in t.shape && OnPath(t.shape, leaf, q) && d in req && d in t.shape[q].max ==>
            Get(s'.tree.value.usage[q].confirmed, d) + Get(s'.tree.value.usage[q].inflight, d) <= t.shape[q].max[d])
  {
    var t, s' := s.tree.value, Step(s, OpReserve(uid, leaf, req));
    ReserveLaw(s, uid, leaf, req);
    forall q, d | q in t.shape && OnPath(t.shape, leaf, q) && d in req && d in t.shape[q].max
      ensures Get(s'.tree.value.usage[q].confirmed, d) + Get(s'.tree.value.usage[q].inflight, d)
           == Get(Used(t.usage[q]), d) + req[d]
    {
      assert ShiftedAt(t, s'.tree.value, leaf, req, 0, 1, q, d);
    }
    if !CanFit(t.shape, t.usage, leaf, req) {
      var q, d := NoRoomAt(t, leaf, req);
    } else {
      forall q | q in t.shape && OnPath(t.shape, leaf, q) ensures FitsHere(t.shape[q].max, Used(t.usage[q]), req) {}
    }
  }

  // ---------------------------------------------------------------- collecting dead pods

  /** The counters fall by exactly what the ledger no longer books. */
  ghost predicate FallsWithBook(t: Tree, book: map<string, Booking>, t': Tree, book': map<string, Booking>) {
    && t'.shape == t.shape && t'.gangs == t.gangs && t'.usage.Keys == t.usage.Keys
    && forall q, d {:trigger FallsAt(t, book, t', book', q, d)} :: q in t.usage ==> FallsAt(t, book, t', book', q, d)
  }

  ghost predicate FallsAt(t: Tree, book: map<string, Booking>, t': Tree, book': map<string, Booking>, q: string,
                          d: string)
    requires q in t.usage && q in t'.usage
  {
    && Get(t.usage[q].confirmed, d) - Get(t'.usage[q].confirmed, d)
       == PodSum(t.shape, book, Committed, q, d) - PodSum(t.shape, book', Committed, q, d)
    && Get(t.usage[q].inflight, d) - Get(t'.usage[q].inflight, d)
       == PodSum(t.shape, book, Reserved, q, d) - PodSum(t.shape, book', Reserved, q, d)
  }

  lemma DeleteFalls(s: State, uid: string)
    requires s.tree.Some? && uid in s.book
    ensures var s' := ObserveDeleted(s, uid);
      && s'.tree.Some? && s'.book == s.book - {uid} && GangsKept(s, s')
      && FallsWithBook(s.tree.value, s.book, s'.tree.value, s'.book)
  {
    var t, s', rec := s.tree.value, ObserveDeleted(s, uid), s.book[uid];
    ObserveDeletedLaw(s, uid);
    assert Step(s, OpObserveDeleted(uid)) == s';
    forall q, d | q in t.usage ensures FallsAt(t, s.book, s'.tree.value, s'.book, q, d) {
      PodSumDrop(t.shape, s.book, uid, Committed, q, d);
      PodSumDrop(t.shape, s.book, uid, Reserved, q, d);
      if Live(t.shape, rec.leaf) {
        if rec.state == Committed {
          assert ShiftedAt(t, s'.tree.value, rec.leaf, rec.req, -1, 0, q, d);
        } else {
          assert ShiftedAt(t, s'.tree.value, rec.leaf, rec.req, 0, -1, q, d);
        }
      }
    }
  }

  lemma FallsTrans(a: Tree, x: map<string, Booking>, b: Tree, y: map<string, Booking>, c: Tree, z: map<string, Booking>)
    requires FallsWithBook(a, x, b, y) && FallsWithBook(b, y, c, z)
    ensures FallsWithBook(a, x, c, z)
  {
    forall q, d | q in a.usage ensures FallsAt(a, x, c, z, q, d) {
      assert FallsAt(a, x, b, y, q, d) && FallsAt(b, y, c, z, q, d);
    }
  }

  lemma {:induction false} DeletePodsFall(s: State, uids: seq<string>)
    requires s.tree.Some? && (forall u :: u in uids ==> u in s.book)
    requires forall i, j :: 0 <= i < j < |uids| ==> uids[i] != uids[j]
    ensures var s' := DeletePods(s, uids);
      && s'.tree.Some? && s'.book == s.book - (set u | u in uids) && GangsKept(s, s')
      && FallsWithBook(s.tree.value, s.book, s'.tree.value, s'.book)
    decreases |uids|
  {
    if uids == [] {
      assert s.book - (set u | u in uids) == s.book;
    } else {
      var n := |uids| - 1;
      var mid := DeletePods(s, uids[..n]);
      DeletePodsFall(s, uids[..n]);
      assert uids == uids[..n] + [uids[n]] && uids[n] in mid.book;
      DeleteFalls(mid, uids[n]);
      var s' := DeletePods(s, uids);
      FallsTrans(s.tree.value, s.book, mid.tree.value, mid.book, s'.tree.value, s'.book);
      assert s'.book == s.book - (set u | u in uids);
    }
  }

  /** Collecting bookings keeps exactly those of live pods, and each queue's counters fall by
      exactly what is no longer booked at or below it. Without a tree nothing happens. */
  lemma GCBookingsLaw(s: State, live: set<string>, order: seq<string>)
    requires Enabled(s, OpGCBookings(live, order))
    ensures var s' := Step(s, OpGCBookings(live, order));
      if s.tree == None then s' == s
      else
        && s'.book == (map u | u in s.book && u in live :: s.book[u]) && GangsKept(s, s')
        && s'.tree.Some? && FallsWithBook(s.tree.value, s.book, s'.tree.value, s'.book)
  {
    if s.tree.Some? {
      DeletePodsFall(s, order);
      assert s.book - (set u | u in order) == map u | u in s.book && u in live :: s.book[u];
    }
  }
}
