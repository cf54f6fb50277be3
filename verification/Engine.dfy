/** The engine as the source keeps it: ledgers and bids held in maps that its methods
    update in place, beside the live queue tree (pkg/framework/engine.go). Each method is
    one step of the state machine in Ledger. */
module Engine {
  import opened Vectors
  import opened QueueTree
  import opened Ledger
  import opened Manager

  class Engine {
    const timeout: int
    var tree: QueueManager?
    var book: map<string, Booking>
    var gangBook: map<string, Hold>
    var bids: map<string, Bid>

    constructor (timeout: int)
      ensures Valid() && View() == Init(timeout)
    {
      this.timeout := timeout;
      tree, book, gangBook, bids := null, map[], map[], map[];
    }

    ghost predicate Valid()
      reads this`tree, if tree == null then {} else tree.queues
    {
      tree != null ==> tree.Valid()
    }

    /** The objects of the live tree that roll-ups write to. */
    ghost function Queues(): set<Queue>
      reads this`tree
    {
      if tree == null then {} else tree.queues
    }

    ghost function Managers(): set<QueueManager>
      reads this`tree
    {
      if tree == null then {} else {tree}
    }

    ghost function TreeView(): Option<Tree>
      requires Valid()
      reads this`tree, if tree == null then {} else {tree}, if tree == null then {} else tree.queues
    {
      if tree == null then None else Some(tree.View())
    }

    ghost function View(): State
      requires Valid()
      reads this, if tree == null then {} else {tree}, if tree == null then {} else tree.queues
    {
      State(TreeView(), book, gangBook, bids, timeout)
    }

    // Ledger updates leave the tree alone.

    method SetBook(b: map<string, Booking>)
      requires Valid()
      modifies this`book
      ensures Valid() && book == b && TreeView() == old(TreeView())
    {
      book := b;
    }

    method SetGangBook(b: map<string, Hold>)
      requires Valid()
      modifies this`gangBook
      ensures Valid() && gangBook == b && TreeView() == old(TreeView())
    {
      gangBook := b;
    }

    method SetBids(b: map<string, Bid>)
      requires Valid()
      modifies this`bids
      ensures Valid() && bids == b && TreeView() == old(TreeView())
    {
      bids := b;
    }

    method SetGangBookAndBids(g: map<string, Hold>, b: map<string, Bid>)
      requires Valid()
      modifies this`gangBook, this`bids
      ensures Valid() && gangBook == g && bids == b && TreeView() == old(TreeView())
    {
      SetGangBook(g);
      SetBids(b);
    }

    method SetTree(newTree: QueueManager)
      requires newTree.Valid()
      modifies this`tree
      ensures Valid() && tree == newTree && TreeView() == Some(old(newTree.View()))
    {
      label before:
      tree := newTree;
      assert newTree.View() == old@before(newTree.View());
    }

    // -------------------------------------------------------------- pods

    method Reserve(uid: string, leaf: string, req: Resource)
      requires Valid()
      modifies this`book, Queues()`confirmed, Queues()`inflight
      ensures Valid() && View() == Book(old(View()), uid, leaf, req)
    {
      if uid in book {
        return;
      }
      var rec := Booking(Reserved, leaf, req);
      var ok := RollBooking(rec, RollUp.Reserve);
      if ok {
        SetBook(book[uid := rec]);
      }
    }

    method Unreserve(uid: string)
      requires Valid()
      modifies this`book, Queues()`confirmed, Queues()`inflight
      ensures Valid() && View() == Unbook(old(View()), uid)
    {
      if uid !in book || book[uid].state != Reserved {
        return;
      }
      var _ := RollBooking(book[uid], RollUp.Unreserve);
      SetBook(book - {uid});
    }

    method Commit(uid: string)
      requires Valid()
      modifies this`book, Queues()`confirmed, Queues()`inflight
      ensures Valid() && View() == CommitPod(old(View()), uid)
    {
      if uid !in book || book[uid].state != Reserved {
        return;
      }
      var _ := RollBooking(book[uid], RollUp.Commit);
      SetBook(book[uid := book[uid].(state := Committed)]);
    }

    method ObserveBound(uid: string, leaf: string, req: Resource)
      requires Valid()
      modifies this`book, Queues()`confirmed, Queues()`inflight
      ensures Valid() && View() == Ledger.ObserveBound(old(View()), uid, leaf, req)
    {
      if tree == null {
        return;
      }
      if uid in book {
        Commit(uid);
        return;
      }
      if leaf !in tree.index {
        return;
      }
      var rec := Booking(Committed, leaf, req);
      var _ := RollBooking(rec, RollUp.Allocate);
      SetBook(book[uid := rec]);
    }

    method ObserveDeleted(uid: string)
      requires Valid()
      modifies this`book, Queues()`confirmed, Queues()`inflight
      ensures Valid() && View() == Ledger.ObserveDeleted(old(View()), uid)
    {
      if uid !in book {
        return;
      }
      var _ := RollBooking(book[uid], ReleaseOp(book[uid]));
      SetBook(book - {uid});
    }

    /** Applies a roll-up for a booking on the live tree, if there is one. */
    method RollBooking(rec: Booking, op: RollUp) returns (ok: bool)
      requires Valid()
      modifies Queues()`confirmed, Queues()`inflight
      ensures Valid() && TreeView() == OnTree(old(View()), rec, op)
      ensures ok <==> tree != null && IsLeaf(tree.shape, rec.leaf)
    {
      ok := false;
      if tree != null {
        ok := tree.MutateAt(rec.leaf, op, rec.req);
      }
    }

    /** Releases every booking whose pod is not live, in whatever order the map is walked. */
    method GCBookings(live: set<string>) returns (n: nat, ghost order: seq<string>)
      requires Valid()
      modifies this`book, Queues()`confirmed, Queues()`inflight
      ensures Valid() && Enabled(old(View()), OpGCBookings(live, order))
      ensures View() == Step(old(View()), OpGCBookings(live, order))
      ensures n == if tree == null then 0 else |order|
    {
      n := 0;
      if tree == null {
        order := Listed(book.Keys - live);
      } else {
        n, order := DeleteDead(book.Keys - live);
      }
    }

    method DeleteDead(dead: set<string>) returns (n: nat, ghost order: seq<string>)
      requires Valid()
      modifies this`book, Queues()`confirmed, Queues()`inflight
      ensures Valid() && Enumerates(order, dead) && View() == DeletePods(old(View()), order)
      ensures n == |order|
    {
      n, order := 0, [];
      var todo := dead;
      while todo != {}
        invariant Valid() && n == |order| && Walked(order, todo, dead)
        invariant View() == DeletePods(old(View()), order)
        decreases todo
      {
        var uid :| uid in todo;
        ObserveDeleted(uid);
        DeletePodsSnoc(old(View()), order, uid);
        WalkedNext(order, todo, dead, uid);
        n, order, todo := n + 1, order + [uid], todo - {uid};
      }
    }

    // -------------------------------------------------------------- gangs

    method AdmitGang(leaf: string, key: string, need: Resource) returns (r: Admission)
      requires Valid()
      modifies this`gangBook, Managers()`gangs, Queues()`confirmed, Queues()`inflight
      ensures Valid() && (View(), r) == Ledger.AdmitGang(old(View()), leaf, key, need)
    {
      if key in gangBook {
        return if gangBook[key].leaf != leaf then LeafMismatch else Admitted;
      }
      if tree == null {
        return NoTree;
      }
      r := tree.AdmitGang(leaf, key, need);
      ghost var t := tree.View();
      var g := if r == Admitted then gangBook[key := Hold(leaf, need)] else gangBook;
      AdmitOutcome(old(View()), leaf, key, need, t, r, g);
      SetGangBook(g);
    }

    method ReleaseGang(key: string)
      requires Valid()
      modifies this`gangBook, Managers()`gangs, Queues()`confirmed, Queues()`inflight
      ensures Valid() && View() == Ledger.ReleaseGang(old(View()), key)
    {
      if key !in gangBook {
        return;
      }
      if tree != null {
        tree.ReleaseGang(key);
      }
      SetGangBook(gangBook - {key});
    }

    /** AdmitGang behind the leaf's head-of-line bid; `now` is the clock read. */
    method AdmitGangWW(leaf: string, key: string, need: Resource, rank: WoundWaitKey, now: int) returns (r: Admission)
      requires Valid()
      modifies this`gangBook, this`bids, Managers()`gangs, Queues()`confirmed, Queues()`inflight
      ensures Valid() && (View(), r) == Ledger.AdmitGangWW(old(View()), leaf, key, need, rank, now)
    {
      if key in gangBook {
        return if gangBook[key].leaf != leaf then LeafMismatch else Admitted;
      }
      if tree == null {
        return NoTree;
      }
      if leaf in bids && now - bids[leaf].at > timeout {
        SetBids(bids - {leaf});
      }
      ghost var live := View();
      assert live == old(View()).(bids := Unexpired(old(View()), leaf, now));
      if leaf in bids && bids[leaf].key != rank && WoundWaitLess(bids[leaf].key, rank) {
        SetBids(bids[leaf := Bid(bids[leaf].key, now)]);
        return NoRoom;
      }
      r := Ask(leaf, key, need, rank, now);
    }

    /** The part of AdmitGangWW past the bid check. */
    method Ask(leaf: string, key: string, need: Resource, rank: WoundWaitKey, now: int) returns (r: Admission)
      requires Valid() && tree != null
      modifies this`gangBook, this`bids, Managers()`gangs, Queues()`confirmed, Queues()`inflight
      ensures Valid() && (View(), r) == AskTree(old(View()), leaf, key, need, rank, now)
    {
      r := tree.AdmitGang(leaf, key, need);
      ghost var t := tree.View();
      var g, b := gangBook, bids;
      if r == Admitted {
        if leaf in bids && bids[leaf].key == rank {
          b := bids - {leaf};
        }
        g := gangBook[key := Hold(leaf, need)];
      } else if r == NoRoom && (leaf !in bids || bids[leaf].key == rank || WoundWaitLess(rank, bids[leaf].key)) {
        b := bids[leaf := Bid(rank, now)];
      }
      AskTreeOutcome(old(View()), leaf, key, need, rank, now, t, r, g, b);
      SetGangBookAndBids(g, b);
    }

    /** Releases every gang whose group is not live, in whatever order the map is walked. */
    method GCGangs(live: set<string>) returns (n: nat, ghost order: seq<string>)
      requires Valid()
      modifies this`gangBook, Managers()`gangs, Queues()`confirmed, Queues()`inflight
      ensures Valid() && Enabled(old(View()), OpGCGangs(live, order))
      ensures View() == Step(old(View()), OpGCGangs(live, order)) && n == |order|
    {
      n, order := ReleaseDead(gangBook.Keys - live);
    }

    method ReleaseDead(dead: set<string>) returns (n: nat, ghost order: seq<string>)
      requires Valid()
      modifies this`gangBook, Managers()`gangs, Queues()`confirmed, Queues()`inflight
      ensures Valid() && Enumerates(order, dead) && View() == ReleaseGangs(old(View()), order)
      ensures n == |order|
    {
      n, order := 0, [];
      var todo := dead;
      while todo != {}
        invariant Valid() && n == |order| && Walked(order, todo, dead)
        invariant View() == ReleaseGangs(old(View()), order)
        decreases todo
      {
        var key :| key in todo;
        ReleaseGang(key);
        ReleaseGangsSnoc(old(View()), order, key);
        WalkedNext(order, todo, dead, key);
        n, order, todo := n + 1, order + [key], todo - {key};
      }
    }

    // -------------------------------------------------------------- rebuild

    /** Re-seeds a new tree from the ledgers, on top of whatever it carries, and makes it the
        live one; no tree changes nothing. A freshly built tree makes this one Rebuild step. */
    method Rebuild(newTree: QueueManager?) returns (ghost pods: seq<string>, ghost gangs: seq<string>)
      requires Valid() && (newTree != null ==> newTree.Valid())
      modifies this`tree, this`book, this`gangBook, Only(newTree)`gangs, QueuesOf(newTree)`confirmed,
        QueuesOf(newTree)`inflight
      ensures Valid() && Enumerates(pods, old(book).Keys) && Enumerates(gangs, old(gangBook).Keys)
      ensures newTree == null ==> View() == old(View())
      ensures newTree != null ==> tree == newTree && View() == RebuildOn(old(View()), old(newTree.View()), pods, gangs)
      ensures newTree != null && WellFormed(newTree.shape) && old(newTree.View()) == EmptyTree(newTree.shape) ==>
        View() == Step(old(View()), OpRebuild(newTree.shape, pods, gangs))
    {
      if newTree == null {
        pods, gangs := Listed(book.Keys), Listed(gangBook.Keys);
        return;
      }
      var kept, keptGangs;
      kept, keptGangs, pods, gangs := Reseed(newTree, book, gangBook);
      Install(newTree, kept, keptGangs);
    }

    method Install(newTree: QueueManager, kept: map<string, Booking>, keptGangs: map<string, Hold>)
      requires newTree.Valid()
      modifies this`tree, this`book, this`gangBook
      ensures Valid() && tree == newTree && TreeView() == Some(old(newTree.View()))
      ensures book == kept && gangBook == keptGangs
    {
      SetTree(newTree);
      SetBook(kept);
      SetGangBook(keptGangs);
    }
  }

  /** The objects a rebuild onto `m` writes to. */
  ghost function Only(m: QueueManager?): set<QueueManager> {
    if m == null then {} else {m}
  }

  ghost function QueuesOf(m: QueueManager?): set<Queue> {
    if m == null then {} else m.queues
  }

  /** Replays both ledgers onto a tree. */
  method Reseed(newTree: QueueManager, book: map<string, Booking>, gangBook: map<string, Hold>)
    returns (kept: map<string, Booking>, keptGangs: map<string, Hold>, ghost pods: seq<string>,
             ghost gangs: seq<string>)
    requires newTree.Valid()
    modifies newTree`gangs, newTree.queues`confirmed, newTree.queues`inflight
    ensures newTree.Valid() && Enumerates(pods, book.Keys) && Enumerates(gangs, gangBook.Keys)
    ensures var t := old(newTree.View());
      newTree.View() == SeedGangs(t.(usage := SeedPodsOn(t.shape, t.usage, book, pods)), gangBook, gangs)
    ensures kept == Survivors(newTree.shape, book, pods) && keptGangs == SurvivingGangs(newTree.shape, gangBook)
  {
    kept, pods := SeedPodsInto(newTree, book);
    keptGangs, gangs := SeedGangsInto(newTree, gangBook);
  }

  /** Replays the bookings, dropping those whose queue is gone. */
  method SeedPodsInto(newTree: QueueManager, book: map<string, Booking>)
    returns (kept: map<string, Booking>, ghost order: seq<string>)
    requires newTree.Valid()
    modifies newTree.queues`confirmed, newTree.queues`inflight
    ensures newTree.Valid() && Enumerates(order, book.Keys)
    ensures newTree.Usage() == SeedPodsOn(newTree.shape, old(newTree.Usage()), book, order)
    ensures kept == Survivors(newTree.shape, book, order)
  {
    kept, order := book, [];
    var todo := book.Keys;
    ghost var start := newTree.Usage();
    while todo != {}
      invariant newTree.Valid() && Walked(order, todo, book.Keys)
      invariant newTree.Usage() == SeedPodsOn(newTree.shape, start, book, order)
      invariant kept == Remaining(newTree.shape, book, todo)
      decreases todo
    {
      var uid :| uid in todo;
      var rec := book[uid];
      SeedPodsSnoc(newTree.shape, start, book, order, uid);
      WalkedNext(order, todo, book.Keys, uid);
      RemainingStep(newTree.shape, book, todo, uid);
      if rec.leaf !in newTree.index {
        kept := kept - {uid};
      } else {
        var _ := newTree.MutateAt(rec.leaf, if rec.state == Committed then Allocate else RollUp.Reserve, rec.req);
      }
      order, todo := order + [uid], todo - {uid};
    }
  }

  /** Re-admits the gangs, ignoring refusals and dropping those whose queue is gone. */
  method SeedGangsInto(newTree: QueueManager, gangBook: map<string, Hold>)
    returns (kept: map<string, Hold>, ghost order: seq<string>)
    requires newTree.Valid()
    modifies newTree`gangs, newTree.queues`confirmed, newTree.queues`inflight
    ensures newTree.Valid() && Enumerates(order, gangBook.Keys)
    ensures newTree.View() == SeedGangs(old(newTree.View()), gangBook, order)
    ensures kept == SurvivingGangs(newTree.shape, gangBook)
  {
    kept, order := gangBook, [];
    var todo := gangBook.Keys;
    ghost var start := newTree.View();
    RemainingGangsEnds(newTree.shape, gangBook);
    while todo != {}
      invariant newTree.Valid() && Walked(order, todo, gangBook.Keys)
      invariant newTree.View() == SeedGangs(start, gangBook, order)
      invariant kept == RemainingGangs(newTree.shape, gangBook, todo)
      decreases todo
    {
      var key :| key in todo;
      var h := gangBook[key];
      SeedNext(newTree, gangBook, key, start, order);
      WalkedNext(order, todo, gangBook.Keys, key);
      RemainingGangsStep(newTree.shape, gangBook, todo, key);
      if h.leaf !in newTree.index {
        kept := kept - {key};
      }
      order, todo := order + [key], todo - {key};
    }
  }

  /** Re-admits one more gang, unless its queue is gone. */
  method SeedNext(newTree: QueueManager, gangBook: map<string, Hold>, key: string, ghost start: Tree,
                  ghost order: seq<string>)
    requires newTree.Valid() && key in gangBook && forall g :: g in order ==> g in gangBook
    requires newTree.View() == SeedGangs(start, gangBook, order)
    modifies newTree`gangs, newTree.queues`confirmed, newTree.queues`inflight
    ensures newTree.Valid() && newTree.View() == SeedGangs(start, gangBook, order + [key])
  {
    SeedGangsSnoc(start, gangBook, order, key);
    SeedGang(newTree, key, gangBook[key]);
  }

  method SeedGang(newTree: QueueManager, key: string, h: Hold)
    requires newTree.Valid()
    modifies newTree`gangs, newTree.queues`confirmed, newTree.queues`inflight
    ensures newTree.Valid() && newTree.View() == TreeAdmitGang(old(newTree.View()), h.leaf, key, h.held).0
  {
    if h.leaf in newTree.index {
      var _ := newTree.AdmitGang(h.leaf, key, h.held);
    }
  }
}
