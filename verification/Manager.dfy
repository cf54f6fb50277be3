/** The live queue tree as the source keeps it: linked Queue objects under one
    QueueManager, each roll-up walking the parent pointers (pkg/queue/queue.go,
    pkg/queue/manager.go, pkg/queue/gang.go). Every method is proved against the
    value-level tree of QueueTree and Ledger. */
module Manager {
  import opened Vectors
  import opened QueueTree
  import opened Fences
  import opened Headroom
  import opened Ledger

  /** One queue. `confirmed` and `inflight` are the source's allocated and allocating. */
  class Queue {
    const name: string
    const path: string
    const parent: Queue?
    const guaranteed: Resource
    const max: Resource
    const fence: bool
    const serviceAccounts: seq<string>
    const defaultLeaf: bool
    var children: map<string, Queue>
    var confirmed: Resource
    var inflight: Resource

    constructor (name: string, path: string, parent: Queue?, guaranteed: Resource, max: Resource,
                 fence: bool, serviceAccounts: seq<string>, defaultLeaf: bool)
      ensures this.name == name && this.path == path && this.parent == parent
      ensures this.guaranteed == guaranteed && this.max == max && this.fence == fence
      ensures this.serviceAccounts == serviceAccounts && this.defaultLeaf == defaultLeaf
      ensures children == map[] && Usage() == ZERO
    {
      this.name, this.path, this.parent := name, path, parent;
      this.guaranteed, this.max, this.fence := guaranteed, max, fence;
      this.serviceAccounts, this.defaultLeaf := serviceAccounts, defaultLeaf;
      children, confirmed, inflight := map[], map[], map[];
    }

    function Usage(): Counters
      reads this`confirmed, this`inflight
    {
      Counters(confirmed, inflight)
    }

    /** One queue's share of a roll-up. */
    method Bump(op: RollUp, r: Resource)
      modifies this`confirmed, this`inflight
      ensures Usage() == Apply(op, old(Usage()), r)
    {
      match op
      case Reserve => inflight := AddLoop(inflight, r);
      case Unreserve => inflight := SubLoop(inflight, r);
      case Commit =>
        inflight := SubLoop(inflight, r);
        confirmed := AddLoop(confirmed, r);
      case Allocate => confirmed := AddLoop(confirmed, r);
      case Release => confirmed := SubLoop(confirmed, r);
    }

    method LinkChild(name: string, child: Queue)
      modifies this`children
      ensures children.Keys == old(children.Keys) + {name}
    {
      children := children[name := child];
    }

    predicate IsLeafQueue()
      reads this`children
    {
      children == map[]
    }

    predicate IsFenceQueue() {
      fence || (parent != null && parent.parent == null)
    }

    /** The queue's configuration, given whether it is a leaf. */
    function AsNode(leaf: bool): Node {
      Node(name, if parent == null then None else Some(parent.path), leaf,
           guaranteed, max, fence, serviceAccounts, defaultLeaf)
    }
  }

  type Index = map<string, Queue>

  /** `q` is the queue object indexed under its path. */
  ghost predicate Owns(index: Index, q: Queue) {
    q.path in index && index[q.path] == q
  }

  /** The queue object at `p` is configured as `t` says, and its parent pointer leads to
      the queue object of the parent path. */
  ghost predicate Mirrored(index: Index, t: Shape, p: string)
    requires p in index && p in t
  {
    && index[p].AsNode(t[p].leaf) == t[p]
    && (index[p].parent != null ==> Owns(index, index[p].parent))
  }

  /** The queue objects and their links make up the shape `t`. */
  ghost predicate Linked(index: Index, t: Shape) {
    && WellFormed(t)
    && index.Keys == t.Keys
    && (forall p :: p in index ==> index[p].path == p)
    && forall p {:trigger Mirrored(index, t, p)} :: p in index ==> Mirrored(index, t, p)
  }

  ghost predicate Held(index: Index, queues: set<Queue>) {
    forall p :: p in index ==> index[p] in queues
  }

  /** The counters of the queue objects, as a value. */
  ghost function Tally(index: Index, queues: set<Queue>): Usage
    requires Held(index, queues)
    reads queues`confirmed, queues`inflight
  {
    map p | p in index :: index[p].Usage()
  }

  /** The queue objects without children are the leaves of `t`. */
  ghost predicate LeavesMarked(index: Index, queues: set<Queue>, t: Shape)
    requires Held(index, queues)
    reads queues`children
  {
    forall p :: p in index && p in t ==> (t[p].leaf <==> index[p].IsLeafQueue())
  }

  /** What is left of a walk that has reached `n`. */
  ghost function Rest(t: Shape, n: Queue?): set<string> {
    if n == null then {} else Chain(t, n.path)
  }

  /** A walk up from `q` has dealt with the queues of `done` and stands at `n`. */
  ghost predicate Walking(index: Index, t: Shape, q: Queue, done: set<string>, n: Queue?) {
    (n != null ==> Owns(index, n)) && done !! Rest(t, n) && done + Rest(t, n) == Chain(t, q.path)
  }

  /** One step of a walk. */
  lemma WalkStep(index: Index, t: Shape, q: Queue, done: set<string>, n: Queue)
    requires Linked(index, t) && Walking(index, t, q, done, n)
    ensures n.path !in done && n.path in Chain(t, q.path)
    ensures Walking(index, t, q, done + {n.path}, n.parent)
    ensures n.parent != null ==> |n.parent.path| < |n.path|
    ensures t[n.path].max == n.max
  {
    assert Mirrored(index, t, n.path);
    assert WellPlaced(t, n.path);
    if n.parent != null {
      ChainShorter(t, n.parent.path);
    }
  }

  /** `shape` is the configuration of the queue objects, kept as a value; `queues` is the
      set of those objects. */
  class QueueManager {
    const index: Index
    var gangs: map<string, Hold>
    ghost const shape: Shape
    ghost const queues: set<Queue>

    constructor (index: Index, ghost shape: Shape, ghost queues: set<Queue>)
      requires Linked(index, shape) && Held(index, queues) && LeavesMarked(index, queues, shape)
      ensures this.index == index && this.shape == shape && this.queues == queues && gangs == map[]
    {
      this.index, this.shape, this.queues := index, shape, queues;
      gangs := map[];
    }

    ghost predicate Valid()
      reads queues`children
    {
      Linked(index, shape) && Held(index, queues) && LeavesMarked(index, queues, shape)
    }

    ghost function Usage(): Usage
      requires Held(index, queues)
      reads queues`confirmed, queues`inflight
    {
      Tally(index, queues)
    }

    /** The tree as a value. */
    ghost function View(): Tree
      requires Held(index, queues)
      reads this`gangs, queues`confirmed, queues`inflight
    {
      Tree(shape, Usage(), gangs)
    }

    // -------------------------------------------------------------- roll-ups

    /** Applies one roll-up to the queue and every ancestor up to the root. */
    static method WalkUp(q: Queue, op: RollUp, r: Resource,
                         ghost index: Index, ghost queues: set<Queue>, ghost t: Shape)
      requires Linked(index, t) && Owns(index, q) && Held(index, queues)
      modifies queues`confirmed, queues`inflight
      ensures forall p :: p in index ==>
        index[p].Usage() == if p in Chain(t, q.path) then Apply(op, old(index[p].Usage()), r) else old(index[p].Usage())
    {
      ghost var done: set<string> := {};
      var n: Queue? := q;
      while n != null
        invariant Walking(index, t, q, done, n)
        invariant forall p :: p in index ==>
          index[p].Usage() == if p in done then Apply(op, old(index[p].Usage()), r) else old(index[p].Usage())
        decreases if n == null then 0 else |n.path| + 1
      {
        WalkStep(index, t, q, done, n);
        n.Bump(op, r);
        done := done + {n.path};
        n := n.parent;
      }
    }

    /** A roll-up of the tree. */
    method RollUpFrom(q: Queue, op: RollUp, r: Resource)
      requires Valid() && Owns(index, q)
      modifies queues`confirmed, queues`inflight
      ensures Valid() && Usage() == Roll(shape, old(Usage()), q.path, op, r)
    {
      WalkUp(q, op, r, index, queues, shape);
    }

    /** Usage books at leaves only: an unknown or interior path is refused unchanged. */
    method MutateAt(path: string, op: RollUp, r: Resource) returns (ok: bool)
      requires Valid()
      modifies queues`confirmed, queues`inflight
      ensures Valid() && ok == IsLeaf(shape, path)
      ensures Usage() == Mutate(shape, old(Usage()), path, op, r)
    {
      ok := path in index && index[path].IsLeafQueue();
      if ok {
        RollUpFrom(index[path], op, r);
      }
    }

    // -------------------------------------------------------------- fit checks

    /** Would the request push this queue or an ancestor over max? */
    method CanFitAt(q: Queue, request: Resource) returns (fits: bool)
      requires Valid() && Owns(index, q)
      ensures fits == CanFit(shape, Usage(), q.path, request)
    {
      ghost var done: set<string> := {};
      var n: Queue? := q;
      while n != null
        invariant Walking(index, shape, q, done, n)
        invariant forall p :: p in shape && p in done ==> FitsHere(shape[p].max, Used(Usage()[p]), request)
        decreases if n == null then 0 else |n.path| + 1
      {
        WalkStep(index, shape, q, done, n);
        if !FitsHere(n.max, Used(n.Usage()), request) {
          return false;
        }
        done := done + {n.path};
        n := n.parent;
      }
      return true;
    }

    /** Is the request alone within max here and at every ancestor? */
    method FitsMaxAt(q: Queue, request: Resource) returns (fits: bool)
      requires Valid() && Owns(index, q)
      ensures fits == FitsMax(shape, q.path, request)
    {
      ghost var done: set<string> := {};
      var n: Queue? := q;
      while n != null
        invariant Walking(index, shape, q, done, n)
        invariant forall p :: p in shape && p in done ==> FitsHere(shape[p].max, map[], request)
        decreases if n == null then 0 else |n.path| + 1
      {
        WalkStep(index, shape, q, done, n);
        if !FitsHere(n.max, map[], request) {
          return false;
        }
        done := done + {n.path};
        n := n.parent;
      }
      return true;
    }

    /** Is every queue from here to the root at or under its max? */
    method WithinMaxAt(q: Queue) returns (within: bool)
      requires Valid() && Owns(index, q)
      ensures within <==> forall p :: p in shape && OnPath(shape, q.path, p) ==>
        forall d :: d in shape[p].max ==> Get(Usage()[p].confirmed, d) + Get(Usage()[p].inflight, d) <= shape[p].max[d]
    {
      ghost var done: set<string> := {};
      var n: Queue? := q;
      while n != null
        invariant Walking(index, shape, q, done, n)
        invariant forall p :: p in shape && p in done ==> WithinMaxHere(shape[p].max, Used(Usage()[p]))
        decreases if n == null then 0 else |n.path| + 1
      {
        WalkStep(index, shape, q, done, n);
        if !WithinMaxHere(n.max, Used(n.Usage())) {
          return false;
        }
        done := done + {n.path};
        n := n.parent;
      }
      return true;
    }

    /** The tightest remaining room over the path, per bounded dimension. */
    method PathHeadroom(q: Queue) returns (room: Resource)
      requires Valid() && Owns(index, q)
      ensures IsHeadroom(shape, Usage(), q.path, room)
    {
      room := map[];
      ghost var u, done: set<string> := Usage(), {};
      var n: Queue? := q;
      while n != null
        invariant Walking(index, shape, q, done, n)
        invariant done <= shape.Keys && Tightest(shape, u, done, room)
        decreases if n == null then 0 else |n.path| + 1
      {
        WalkStep(index, shape, q, done, n);
        TightestStep(shape, u, done, room, n.path);
        room := MinInto(room, Slack(n.max, Used(n.Usage())));
        done := done + {n.path};
        n := n.parent;
      }
      assert done == set p | p in shape && OnPath(shape, q.path, p);
    }

    // -------------------------------------------------------------- fences

    method FenceBoundaryOf(q: Queue) returns (b: Queue)
      requires Valid() && Owns(index, q)
      ensures Owns(index, b) && b.path == FenceBoundary(shape, q.path)
    {
      b := q;
      var n: Queue? := q;
      while n != null
        invariant n != null ==> Owns(index, n) && FenceBoundary(shape, n.path) == FenceBoundary(shape, q.path)
        invariant Owns(index, b) && (n == null ==> b.path == FenceBoundary(shape, q.path))
        decreases if n == null then 0 else |n.path| + 1
      {
        assert Mirrored(index, shape, n.path) && WellPlaced(shape, n.path);
        assert n.parent != null ==> Mirrored(index, shape, n.parent.path);
        if n.IsFenceQueue() {
          return n;
        }
        b := n;
        n := n.parent;
      }
    }

    // -------------------------------------------------------------- gangs

    /** The tree once the gang's reservation is made. */
    ghost function Reserved(leaf: string, gang: string, need: Resource): Tree
      requires Held(index, queues)
      reads this`gangs, queues`confirmed, queues`inflight
    {
      Tree(shape, Roll(shape, Usage(), leaf, Reserve, need), gangs[gang := Hold(leaf, need)])
    }

    /** The checks before a gang's reservation: `reserve` says whether they all passed for
        a gang that holds nothing yet. */
    method CheckGang(leaf: string, gang: string, need: Resource) returns (r: Admission, reserve: bool)
      requires Valid()
      ensures TreeAdmitGang(View(), leaf, gang, need) == (if reserve then Reserved(leaf, gang, need) else View(), r)
      ensures reserve ==> leaf in index
    {
      if gang == "" {
        return EmptyGangID, false;
      }
      if !StrictlyGtZero(need) {
        return NotPositive, false;
      }
      if gang in gangs {
        return Admitted, false;
      }
      if leaf !in index {
        return UnknownQueue, false;
      }
      var q := index[leaf];
      if !q.IsLeafQueue() {
        return NotALeaf, false;
      }
      var possible := FitsMaxAt(q, need);
      if !possible {
        return NeverFits, false;
      }
      var fits := CanFitAt(q, need);
      if !fits {
        return NoRoom, false;
      }
      return Admitted, true;
    }

    method ReserveGang(leaf: string, gang: string, need: Resource)
      requires Valid() && leaf in index
      modifies this`gangs, queues`confirmed, queues`inflight
      ensures Valid() && View() == old(Reserved(leaf, gang, need))
    {
      RollUpFrom(index[leaf], Reserve, need);
      SetGangs(gangs[gang := Hold(leaf, need)]);
    }

    /** The hold table is apart from the counters. */
    method SetGangs(g: map<string, Hold>)
      requires Held(index, queues)
      modifies this`gangs
      ensures gangs == g && Usage() == old(Usage())
    {
      gangs := g;
    }

    /** The whole-gang-or-nothing check-and-reserve. */
    method AdmitGang(leaf: string, gang: string, need: Resource) returns (r: Admission)
      requires Valid()
      modifies this`gangs, queues`confirmed, queues`inflight
      ensures Valid()
      ensures (View(), r) == TreeAdmitGang(old(View()), leaf, gang, need)
    {
      var reserve: bool;
      r, reserve := CheckGang(leaf, gang, need);
      if reserve {
        ReserveGang(leaf, gang, need);
      }
    }

    /** Frees a gang's hold; unknown gangs are ignored. */
    method ReleaseGang(gang: string)
      requires Valid()
      modifies this`gangs, queues`confirmed, queues`inflight
      ensures Valid() && View() == TreeReleaseGang(old(View()), gang)
    {
      if gang in gangs {
        FreeHold(gangs[gang]);
        SetGangs(gangs - {gang});
      }
    }

    method FreeHold(h: Hold)
      requires Valid()
      modifies queues`confirmed, queues`inflight
      ensures Valid()
      ensures Usage() ==
        if h.leaf in shape && !IsEmpty(h.held) then Roll(shape, old(Usage()), h.leaf, Unreserve, h.held)
        else old(Usage())
    {
      if h.leaf in index && !IsEmpty(h.held) {
        RollUpFrom(index[h.leaf], Unreserve, h.held);
      }
    }
  }
}
