/** The queue hierarchy as a value: a map from dotted paths to queues, with the
    rolled-up counters beside it (pkg/queue/queue.go, pkg/queue/manager.go). */
module QueueTree {
  import opened Vectors
  import opened Paths

  datatype Option<+T> = None | Some(value: T)

  /** The configuration of one queue. `parent` is the parent's path. */
  datatype Node = Node(
    name: string,
    parent: Option<string>,
    leaf: bool,
    guaranteed: Resource,
    max: Resource,
    fence: bool,
    serviceAccounts: seq<string>,
    defaultLeaf: bool)

  type Shape = map<string, Node>

  /** One queue's confirmed usage (the source's allocated) and in-flight usage
      (its allocating). */
  datatype Counters = Counters(confirmed: Resource, inflight: Resource)

  const ZERO := Counters(map[], map[])

  type Usage = map<string, Counters>

  /** One admitted gang's virtual reservation. */
  datatype Hold = Hold(leaf: string, held: Resource)

  datatype Tree = Tree(shape: Shape, usage: Usage, gangs: map<string, Hold>)

  /** What every tree accepted by the builder looks like. */
  ghost predicate WellFormed(t: Shape) {
    && ROOT in t
    && forall p {:trigger WellPlaced(t, p)} :: p in t ==> WellPlaced(t, p)
  }

  ghost predicate WellPlaced(t: Shape, p: string)
    requires p in t
  {
    && ValidName(t[p].name)
    && NonNegative(t[p].max)
    && NonNegative(t[p].guaranteed)
    && (t[p].parent == None ==> p == ROOT && t[p].name == ROOT)
    && (t[p].parent.Some? ==>
          var pp := t[p].parent.value;
          pp in t && !t[pp].leaf && p == pp + "." + t[p].name)
    && (t[p].leaf <==> forall c :: c in t ==> t[c].parent != Some(p))
  }

  predicate IsLeaf(t: Shape, p: string) {
    p in t && t[p].leaf
  }

  /** The queues walkUp visits: `from` and its ancestors up to the root. */
  function Chain(t: Shape, from: string): set<string>
    decreases |from|
  {
    if from !in t then {}
    else if t[from].parent.Some? && |t[from].parent.value| < |from| then {from} + Chain(t, t[from].parent.value)
    else {from}
  }

  /** `q` is `from` itself or an ancestor of it. */
  predicate OnPath(t: Shape, from: string, q: string) {
    q in Chain(t, from)
  }

  /** The bookkeeping each roll-up applies to every queue on the path. */
  datatype RollUp = Reserve | Unreserve | Commit | Allocate | Release

  function Apply(op: RollUp, c: Counters, r: Resource): Counters {
    match op
    case Reserve => c.(inflight := Add(c.inflight, r))
    case Unreserve => c.(inflight := Sub(c.inflight, r))
    case Commit => Counters(Add(c.confirmed, r), Sub(c.inflight, r))
    case Allocate => c.(confirmed := Add(c.confirmed, r))
    case Release => c.(confirmed := Sub(c.confirmed, r))
  }

  /** What a roll-up does to one queue's usage: reserving and allocating raise it, their
      opposites lower it, and committing only moves it from in-flight to confirmed. */
  lemma ApplyMoves(op: RollUp, c: Counters, r: Resource, d: string)
    ensures var c' := Apply(op, c, r);
      && Get(Used(c'), d) - Get(Used(c), d) == (match op
           case Reserve => Get(r, d)
           case Allocate => Get(r, d)
           case Commit => 0
           case Unreserve => -Get(r, d)
           case Release => -Get(r, d))
      && (op == Commit ==> Get(c.inflight, d) - Get(c'.inflight, d) == Get(r, d))
      && (op in {Reserve, Unreserve} ==> c'.confirmed == c.confirmed)
      && (op in {Allocate, Release} ==> c'.inflight == c.inflight)
  {}

  /** A roll-up from `leaf`: exactly the queues on its path change. */
  function Roll(t: Shape, u: Usage, leaf: string, op: RollUp, r: Resource): Usage {
    map q | q in u :: if OnPath(t, leaf, q) then Apply(op, u[q], r) else u[q]
  }

  /** `mutate`: usage books at leaves only, anything else is refused unchanged. */
  function Mutate(t: Shape, u: Usage, path: string, op: RollUp, r: Resource): Usage {
    if IsLeaf(t, path) then Roll(t, u, path, op, r) else u
  }

  function EmptyUsage(t: Shape): Usage {
    map q | q in t :: ZERO
  }

  function EmptyTree(t: Shape): Tree {
    Tree(t, EmptyUsage(t), map[])
  }

  function Used(c: Counters): Resource {
    Add(c.confirmed, c.inflight)
  }

  /** The request stays within one queue's max on every dimension both list. */
  predicate FitsHere(max: Resource, used: Resource, request: Resource) {
    forall d :: d in request && d in max ==> request[d] <= max[d] - Get(used, d)
  }

  /** The borrow-up-to-max gate over the whole path. */
  predicate CanFit(t: Shape, u: Usage, path: string, request: Resource) {
    forall q :: q in t && q in u && OnPath(t, path, q) ==> FitsHere(t[q].max, Used(u[q]), request)
  }

  /** The request alone is within max along the path. */
  predicate FitsMax(t: Shape, path: string, request: Resource) {
    forall q :: q in t && OnPath(t, path, q) ==> FitsHere(t[q].max, map[], request)
  }

  /** used <= max on every bounded dimension of one queue. */
  predicate WithinMaxHere(max: Resource, used: Resource) {
    forall d :: d in max ==> Get(used, d) <= max[d]
  }

  /** One queue's remaining room, clamped at 0, on the dimensions it bounds. */
  function Slack(max: Resource, used: Resource): Resource {
    map d | d in max :: if max[d] - Get(used, d) > 0 then max[d] - Get(used, d) else 0
  }

  lemma {:induction false} ChainShorter(t: Shape, from: string)
    ensures forall q :: q in Chain(t, from) ==> q in t && |q| <= |from|
    decreases |from|
  {
    if from in t && t[from].parent.Some? && |t[from].parent.value| < |from| {
      ChainShorter(t, t[from].parent.value);
    }
  }

  lemma {:induction false} OnPathTrans(t: Shape, a: string, b: string, c: string)
    requires OnPath(t, a, b) && OnPath(t, b, c)
    ensures OnPath(t, a, c)
    decreases |a|
  {
    if a != b {
      OnPathTrans(t, t[a].parent.value, b, c);
    }
  }
}
