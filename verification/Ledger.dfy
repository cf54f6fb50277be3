/** The engine as an atomic state machine: every exported operation runs under one
    mutex, so each call is one step (pkg/framework/engine.go, pkg/queue/gang.go). */
module Ledger {
  import opened Vectors
  import opened Paths
  import opened QueueTree

  datatype BookState = Reserved | Committed

  /** A pod's booking. */
  datatype Booking = Booking(state: BookState, leaf: string, req: Resource)

  /** How a gang ranks among those waiting for the same leaf. */
  datatype WoundWaitKey = WoundWaitKey(priority: int, age: int, uid: string)

  /** A leaf's head-of-line reservation and the time it was last refreshed. */
  datatype Bid = Bid(key: WoundWaitKey, at: int)

  datatype Admission =
    | Admitted
    | NoRoom
    | EmptyGangID
    | NotPositive
    | UnknownQueue
    | NotALeaf
    | NeverFits
    | LeafMismatch
    | NoTree

  /** `timeout` is the configured GangScheduleTimeout. */
  datatype State = State(
    tree: Option<Tree>,
    book: map<string, Booking>,
    gangBook: map<string, Hold>,
    bids: map<string, Bid>,
    timeout: int)

  function Init(timeout: int): State {
    State(None, map[], map[], map[], timeout)
  }

  /** Higher priority first, then the older gang, then the smaller uid. */
  predicate WoundWaitLess(a: WoundWaitKey, b: WoundWaitKey) {
    if a.priority != b.priority then a.priority > b.priority
    else if a.age != b.age then a.age > b.age
    else StringLess(a.uid, b.uid)
  }

  // ---------------------------------------------------------------- gangs on a tree

  /** The whole-gang-or-nothing check-and-reserve. */
  ghost function TreeAdmitGang(t: Tree, leaf: string, gang: string, need: Resource): (Tree, Admission) {
    if gang == "" then (t, EmptyGangID)
    else if !StrictlyGtZero(need) then (t, NotPositive)
    else if gang in t.gangs then (t, Admitted)
    else if leaf !in t.shape then (t, UnknownQueue)
    else if !t.shape[leaf].leaf then (t, NotALeaf)
    else if !FitsMax(t.shape, leaf, need) then (t, NeverFits)
    else if !CanFit(t.shape, t.usage, leaf, need) then (t, NoRoom)
    else (Tree(t.shape, Roll(t.shape, t.usage, leaf, Reserve, need), t.gangs[gang := Hold(leaf, need)]), Admitted)
  }

  function TreeReleaseGang(t: Tree, gang: string): Tree {
    if gang !in t.gangs then t
    else
      var h := t.gangs[gang];
      var u := if h.leaf in t.shape && !IsEmpty(h.held) then Roll(t.shape, t.usage, h.leaf, Unreserve, h.held)
        else t.usage;
      Tree(t.shape, u, t.gangs - {gang})
  }

  // ---------------------------------------------------------------- rebuild

  /** Bookings of the walked pods that still have a queue in the new tree. */
  function Survivors(t: Shape, book: map<string, Booking>, walked: seq<string>): map<string, Booking> {
    map u | u in book && u in walked && book[u].leaf in t :: book[u]
  }

  function SurvivingGangs(t: Shape, gangBook: map<string, Hold>): map<string, Hold> {
    map g | g in gangBook && gangBook[g].leaf in t :: gangBook[g]
  }

  /** The pod ledger part way through a rebuild: orphans walked so far are gone. */
  function Remaining(t: Shape, book: map<string, Booking>, todo: set<string>): map<string, Booking> {
    map u | u in book && (u in todo || book[u].leaf in t) :: book[u]
  }

  function RemainingGangs(t: Shape, gangBook: map<string, Hold>, todo: set<string>): map<string, Hold> {
    map g | g in gangBook && (g in todo || gangBook[g].leaf in t) :: gangBook[g]
  }

  lemma RemainingStep(t: Shape, book: map<string, Booking>, todo: set<string>, u: string)
    requires u in todo && u in book
    ensures Remaining(t, book, todo - {u})
         == if book[u].leaf in t then Remaining(t, book, todo) else Remaining(t, book, todo) - {u}
  {}

  lemma RemainingGangsStep(t: Shape, gangBook: map<string, Hold>, todo: set<string>, g: string)
    requires g in todo && g in gangBook
    ensures RemainingGangs(t, gangBook, todo - {g})
         == if gangBook[g].leaf in t then RemainingGangs(t, gangBook, todo) else RemainingGangs(t, gangBook, todo) - {g}
  {}

  /** Nothing is dropped before the walk; after it the survivors are left. */
  lemma RemainingGangsEnds(t: Shape, gangBook: map<string, Hold>)
    ensures RemainingGangs(t, gangBook, gangBook.Keys) == gangBook
    ensures RemainingGangs(t, gangBook, {}) == SurvivingGangs(t, gangBook)
  {}

  /** Replays the bookings of `order` onto usage `u`. */
  function SeedPodsOn(t: Shape, u: Usage, book: map<string, Booking>, order: seq<string>): Usage
    requires forall x :: x in order ==> x in book
  {
    if order == [] then u
    else
      var n := |order| - 1;
      var rec := book[order[n]];
      var op := if rec.state == Committed then Allocate else Reserve;
      Mutate(t, SeedPodsOn(t, u, book, order[..n]), rec.leaf, op, rec.req)
  }

  /** Replays them onto a fresh tree. */
  function SeedPods(t: Shape, book: map<string, Booking>, order: seq<string>): Usage
    requires forall x :: x in order ==> x in book
  {
    SeedPodsOn(t, EmptyUsage(t), book, order)
  }

  /** Re-admits the gangs of `order`; a refusal is ignored. */
  ghost function SeedGangs(t: Tree, gangBook: map<string, Hold>, order: seq<string>): Tree
    requires forall g :: g in order ==> g in gangBook
  {
    if order == [] then t
    else
      var n := |order| - 1;
      var h := gangBook[order[n]];
      TreeAdmitGang(SeedGangs(t, gangBook, order[..n]), h.leaf, order[n], h.held).0
  }

  lemma SeedPodsSnoc(t: Shape, u: Usage, book: map<string, Booking>, order: seq<string>, uid: string)
    requires (forall x :: x in order ==> x in book) && uid in book
    ensures var rec := book[uid];
      var op := if rec.state == Committed then Allocate else Reserve;
      SeedPodsOn(t, u, book, order + [uid]) == Mutate(t, SeedPodsOn(t, u, book, order), rec.leaf, op, rec.req)
  {
    assert (order + [uid])[..|order|] == order;
  }

  lemma SeedGangsSnoc(t: Tree, gangBook: map<string, Hold>, order: seq<string>, g: string)
    requires (forall x :: x in order ==> x in gangBook) && g in gangBook
    ensures SeedGangs(t, gangBook, order + [g])
         == TreeAdmitGang(SeedGangs(t, gangBook, order), gangBook[g].leaf, g, gangBook[g].held).0
  {
    assert (order + [g])[..|order|] == order;
  }

  /** `order` lists each member of `s` exactly once. */
  ghost predicate Enumerates(order: seq<string>, s: set<string>) {
    && (forall x :: x in order <==> x in s)
    && (forall i, j :: 0 <= i < j < |order| ==> order[i] != order[j])
  }

  /** A walk over `all` in progress: `order` lists what it has visited, `todo` is left. */
  ghost predicate Walked(order: seq<string>, todo: set<string>, all: set<string>) {
    todo <= all && Enumerates(order, all - todo)
  }

  lemma WalkedNext(order: seq<string>, todo: set<string>, all: set<string>, x: string)
    requires Walked(order, todo, all) && x in todo
    ensures Walked(order + [x], todo - {x}, all)
  {}

  /** Some listing of a set. */
  ghost function Listed(s: set<string>): (order: seq<string>)
    ensures Enumerates(order, s)
  {
    if s == {} then []
    else
      var x :| x in s;
      Listed(s - {x}) + [x]
  }

  /** Seeds tree `t` from the ledgers and makes it the live one. */
  ghost function RebuildOn(s: State, t: Tree, pods: seq<string>, gangs: seq<string>): State
    requires forall u :: u in pods ==> u in s.book
    requires forall g :: g in gangs ==> g in s.gangBook
  {
    var seeded := t.(usage := SeedPodsOn(t.shape, t.usage, s.book, pods));
    s.(tree := Some(SeedGangs(seeded, s.gangBook, gangs)),
       book := Survivors(t.shape, s.book, pods),
       gangBook := SurvivingGangs(t.shape, s.gangBook))
  }

  /** A rebuild onto a freshly built tree. */
  ghost function Rebuild(s: State, shape: Shape, pods: seq<string>, gangs: seq<string>): State
    requires forall u :: u in pods ==> u in s.book
    requires forall g :: g in gangs ==> g in s.gangBook
  {
    RebuildOn(s, EmptyTree(shape), pods, gangs)
  }

  // ---------------------------------------------------------------- gang operations

  ghost function AdmitGang(s: State, leaf: string, key: string, need: Resource): (State, Admission) {
    if key in s.gangBook then (s, if s.gangBook[key].leaf != leaf then LeafMismatch else Admitted)
    else if s.tree == None then (s, NoTree)
    else
      var (t, r) := TreeAdmitGang(s.tree.value, leaf, key, need);
      if r != Admitted then (s, r)
      else (s.(tree := Some(t), gangBook := s.gangBook[key := Hold(leaf, need)]), Admitted)
  }

  /** The outcome of admitting, put together from the tree's answer. */
  lemma AdmitOutcome(s: State, leaf: string, key: string, need: Resource, t: Tree, r: Admission, g: map<string, Hold>)
    requires key !in s.gangBook && s.tree.Some? && (t, r) == TreeAdmitGang(s.tree.value, leaf, key, need)
    requires g == if r == Admitted then s.gangBook[key := Hold(leaf, need)] else s.gangBook
    ensures AdmitGang(s, leaf, key, need) == (s.(tree := Some(t), gangBook := g), r)
  {}

  /** The bids left once a stale one at `leaf` is dropped. */
  function Unexpired(s: State, leaf: string, now: int): map<string, Bid> {
    if leaf in s.bids && now - s.bids[leaf].at > s.timeout then s.bids - {leaf} else s.bids
  }

  /** The gang asks the tree: getting in under the bid's own key releases the bid, and
      failing for want of room claims the head of the line. */
  ghost function AskTree(s: State, leaf: string, key: string, need: Resource, rank: WoundWaitKey, now: int)
    : (State, Admission)
    requires s.tree.Some?
  {
    var (t, r) := TreeAdmitGang(s.tree.value, leaf, key, need);
    var mine := leaf in s.bids && s.bids[leaf].key == rank;
    if r == Admitted then
      var bids := if mine then s.bids - {leaf} else s.bids;
      (s.(tree := Some(t), bids := bids, gangBook := s.gangBook[key := Hold(leaf, need)]), r)
    else if r == NoRoom && (leaf !in s.bids || mine || WoundWaitLess(rank, s.bids[leaf].key)) then
      (s.(bids := s.bids[leaf := Bid(rank, now)]), r)
    else (s, r)
  }

  /** The outcome of asking, put together from the tree's answer. */
  lemma AskTreeOutcome(s: State, leaf: string, key: string, need: Resource, rank: WoundWaitKey, now: int,
                       t: Tree, r: Admission, g: map<string, Hold>, b: map<string, Bid>)
    requires s.tree.Some? && (t, r) == TreeAdmitGang(s.tree.value, leaf, key, need)
    requires g == if r == Admitted then s.gangBook[key := Hold(leaf, need)] else s.gangBook
    requires b == if r == Admitted && leaf in s.bids && s.bids[leaf].key == rank then s.bids - {leaf}
                  else if r == NoRoom && (leaf !in s.bids || s.bids[leaf].key == rank ||
                    WoundWaitLess(rank, s.bids[leaf].key))
                  then s.bids[leaf := Bid(rank, now)]
                  else s.bids
    ensures AskTree(s, leaf, key, need, rank, now) == (State(Some(t), s.book, g, b, s.timeout), r)
  {}

  /** A higher-ranked bid holds the gang back and is refreshed by it. */
  predicate HeldBack(s: State, leaf: string, rank: WoundWaitKey) {
    leaf in s.bids && s.bids[leaf].key != rank && WoundWaitLess(s.bids[leaf].key, rank)
  }

  ghost function AdmitGangWW(s: State, leaf: string, key: string, need: Resource, rank: WoundWaitKey, now: int)
    : (State, Admission)
  {
    if key in s.gangBook then (s, if s.gangBook[key].leaf != leaf then LeafMismatch else Admitted)
    else if s.tree == None then (s, NoTree)
    else
      var live := s.(bids := Unexpired(s, leaf, now));
      if HeldBack(live, leaf, rank) then (live.(bids := live.bids[leaf := Bid(live.bids[leaf].key, now)]), NoRoom)
      else AskTree(live, leaf, key, need, rank, now)
  }

  function ReleaseGang(s: State, key: string): State {
    if key !in s.gangBook then s
    else s.(tree := if s.tree.Some? then Some(TreeReleaseGang(s.tree.value, key)) else None,
            gangBook := s.gangBook - {key})
  }

  // ---------------------------------------------------------------- pod operations

  /** The tree after a roll-up that `mutate` may refuse. */
  function TreeMutate(t: Tree, leaf: string, op: RollUp, r: Resource): Tree {
    t.(usage := Mutate(t.shape, t.usage, leaf, op, r))
  }

  function Book(s: State, uid: string, leaf: string, req: Resource): State {
    if uid in s.book || s.tree == None || !IsLeaf(s.tree.value.shape, leaf) then s
    else s.(tree := Some(TreeMutate(s.tree.value, leaf, Reserve, req)),
            book := s.book[uid := Booking(Reserved, leaf, req)])
  }

  /** The tree after applying `op` for a booking, when there is a tree. */
  function OnTree(s: State, rec: Booking, op: RollUp): Option<Tree> {
    if s.tree == None then None else Some(TreeMutate(s.tree.value, rec.leaf, op, rec.req))
  }

  function Unbook(s: State, uid: string): State {
    if uid !in s.book || s.book[uid].state != Reserved then s
    else s.(tree := OnTree(s, s.book[uid], Unreserve), book := s.book - {uid})
  }

  function CommitPod(s: State, uid: string): State {
    if uid !in s.book || s.book[uid].state != Reserved then s
    else s.(tree := OnTree(s, s.book[uid], Commit), book := s.book[uid := s.book[uid].(state := Committed)])
  }

  function ObserveBound(s: State, uid: string, leaf: string, req: Resource): State {
    if s.tree == None then s
    else if uid in s.book then CommitPod(s, uid)
    else if leaf !in s.tree.value.shape then s
    else s.(tree := Some(TreeMutate(s.tree.value, leaf, Allocate, req)),
            book := s.book[uid := Booking(Committed, leaf, req)])
  }

  function ReleaseOp(rec: Booking): RollUp {
    if rec.state == Committed then Release else Unreserve
  }

  function ObserveDeleted(s: State, uid: string): State {
    if uid !in s.book then s
    else s.(tree := OnTree(s, s.book[uid], ReleaseOp(s.book[uid])), book := s.book - {uid})
  }

  /** Deletes a list of pods one after another. */
  function DeletePods(s: State, uids: seq<string>): State {
    if uids == [] then s
    else ObserveDeleted(DeletePods(s, uids[..|uids| - 1]), uids[|uids| - 1])
  }

  lemma DeletePodsSnoc(s: State, uids: seq<string>, uid: string)
    ensures DeletePods(s, uids + [uid]) == ObserveDeleted(DeletePods(s, uids), uid)
  {
    assert (uids + [uid])[..|uids|] == uids;
  }

  /** Releases a list of gangs one after another. */
  function ReleaseGangs(s: State, keys: seq<string>): State {
    if keys == [] then s
    else ReleaseGang(ReleaseGangs(s, keys[..|keys| - 1]), keys[|keys| - 1])
  }

  lemma ReleaseGangsSnoc(s: State, keys: seq<string>, key: string)
    ensures ReleaseGangs(s, keys + [key]) == ReleaseGang(ReleaseGangs(s, keys), key)
  {
    assert (keys + [key])[..|keys|] == keys;
  }

  // ---------------------------------------------------------------- runs

  /** One call on the engine. The `order` fields are the map-walking order the call
      happened to take, and `now` the clock it read. */
  datatype Op =
    | OpRebuild(shape: Shape, pods: seq<string>, gangs: seq<string>)
    | OpAdmitGang(leaf: string, key: string, need: Resource)
    | OpAdmitGangWW(leaf: string, key: string, need: Resource, rank: WoundWaitKey, now: int)
    | OpReleaseGang(key: string)
    | OpReserve(uid: string, leaf: string, req: Resource)
    | OpUnreserve(uid: string)
    | OpCommit(uid: string)
    | OpObserveBound(uid: string, leaf: string, req: Resource)
    | OpObserveDeleted(uid: string)
    | OpGCBookings(live: set<string>, order: seq<string>)
    | OpGCGangs(live: set<string>, order: seq<string>)

  /** The call can be made: a new tree is well formed, and each walking order lists
      exactly the entries the loop deals with. */
  ghost predicate Enabled(s: State, op: Op) {
    match op
    case OpRebuild(shape, pods, gangs) =>
      WellFormed(shape) && Enumerates(pods, s.book.Keys) && Enumerates(gangs, s.gangBook.Keys)
    case OpGCBookings(live, order) => Enumerates(order, s.book.Keys - live)
    case OpGCGangs(live, order) => Enumerates(order, s.gangBook.Keys - live)
    case _ => true
  }

  ghost function Step(s: State, op: Op): State
    requires Enabled(s, op)
  {
    match op
    case OpRebuild(shape, pods, gangs) => Rebuild(s, shape, pods, gangs)
    case OpAdmitGang(leaf, key, need) => AdmitGang(s, leaf, key, need).0
    case OpAdmitGangWW(leaf, key, need, rank, now) => AdmitGangWW(s, leaf, key, need, rank, now).0
    case OpReleaseGang(key) => ReleaseGang(s, key)
    case OpReserve(uid, leaf, req) => Book(s, uid, leaf, req)
    case OpUnreserve(uid) => Unbook(s, uid)
    case OpCommit(uid) => CommitPod(s, uid)
    case OpObserveBound(uid, leaf, req) => ObserveBound(s, uid, leaf, req)
    case OpObserveDeleted(uid) => ObserveDeleted(s, uid)
    case OpGCBookings(_, order) => if s.tree == None then s else DeletePods(s, order)
    case OpGCGangs(_, order) => ReleaseGangs(s, order)
  }

  /** `run` lists the states a sequence of calls goes through. */
  ghost predicate IsRun(run: seq<State>, ops: seq<Op>) {
    && |run| == |ops| + 1
    && forall i :: 0 <= i < |ops| ==> Enabled(run[i], ops[i]) && run[i + 1] == Step(run[i], ops[i])
  }
}
