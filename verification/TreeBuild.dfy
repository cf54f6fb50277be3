/** Building the tree from its declarative spec (build in pkg/queue/manager.go): which
    specs are accepted, and that every accepted one yields a well-formed tree. */
module TreeBuild {
  import opened Vectors
  import opened Paths
  import opened QueueTree
  import opened Fences

  datatype Spec = Spec(
    name: string,
    guaranteed: Resource,
    max: Resource,
    serviceAccounts: seq<string>,
    defaultLeaf: bool,
    fence: bool,
    children: seq<Spec>)

  /** The child does not raise a ceiling its parent bounds. */
  predicate MaxWithinParent(child: Resource, parent: Resource) {
    forall d :: d in parent && d in child ==> child[d] <= parent[d]
  }

  function GuaranteedSum(cs: seq<Spec>): Resource {
    if cs == [] then map[] else Add(GuaranteedSum(cs[..|cs| - 1]), cs[|cs| - 1].guaranteed)
  }

  /** The children's guarantees fit in the parent's, on the dimensions it lists. */
  predicate GuaranteeCovers(s: Spec) {
    forall d :: d in s.guaranteed ==> Get(GuaranteedSum(s.children), d) <= s.guaranteed[d]
  }

  predicate DistinctNames(cs: seq<Spec>) {
    forall i, j :: 0 <= i < j < |cs| ==> cs[i].name != cs[j].name
  }

  /** Everything the builder checks, at every queue of the spec. */
  ghost predicate Accepts(s: Spec) {
    && ValidName(s.name)
    && NonNegative(s.guaranteed)
    && NonNegative(s.max)
    && DistinctNames(s.children)
    && (forall i :: 0 <= i < |s.children| ==> MaxWithinParent(s.children[i].max, s.max) && Accepts(s.children[i]))
    && GuaranteeCovers(s)
  }

  function PathUnder(parent: Option<string>, name: string): string {
    match parent
    case None => name
    case Some(pp) => pp + "." + name
  }

  function NodeOf(s: Spec, parent: Option<string>): Node {
    Node(s.name, parent, s.children == [], s.guaranteed, s.max, s.fence, s.serviceAccounts, s.defaultLeaf)
  }

  /** The queues of a spec, placed under `parent`. */
  function NodesOf(s: Spec, parent: Option<string>): Shape
    decreases s, 1
  {
    var path := PathUnder(parent, s.name);
    NodesOfAll(s.children, path)[path := NodeOf(s, parent)]
  }

  function NodesOfAll(cs: seq<Spec>, parent: string): Shape
    decreases cs, 0
  {
    if cs == [] then map[]
    else NodesOfAll(cs[..|cs| - 1], parent) + NodesOf(cs[|cs| - 1], Some(parent))
  }

  // ---------------------------------------------------------------- well-formedness

  /** `p` is placed as in a well-formed tree whose parts above `top` are not in `t`. */
  ghost predicate PlacedUnder(t: Shape, p: string, top: Option<string>)
    requires p in t
  {
    && ValidName(t[p].name)
    && NonNegative(t[p].max)
    && NonNegative(t[p].guaranteed)
    && (t[p].parent == top ==> p == PathUnder(top, t[p].name))
    && (t[p].parent != top ==>
          t[p].parent.Some? &&
          var pp := t[p].parent.value;
          pp in t && !t[pp].leaf && p == pp + "." + t[p].name)
    && (t[p].leaf <==> forall c :: c in t ==> t[c].parent != Some(p))
  }

  ghost predicate AllPlaced(t: Shape, top: Option<string>) {
    forall p {:trigger PlacedUnder(t, p, top)} :: p in t ==> PlacedUnder(t, p, top)
  }

  /** Every path of the part lies at or below `root`. */
  ghost predicate Below(t: Shape, root: string) {
    forall p :: p in t ==> PathWithinSubtree(p, root)
  }

  /** Different children of one queue root disjoint sets of paths. */
  lemma SiblingsApart(pp: string, a: string, b: string, p: string)
    requires ValidName(a) && ValidName(b) && a != b
    ensures !(PathWithinSubtree(p, pp + "." + a) && PathWithinSubtree(p, pp + "." + b))
  {
    if PathWithinSubtree(p, pp + "." + a) && PathWithinSubtree(p, pp + "." + b) {
      SegmentOf(pp, a, p);
      SegmentOf(pp, b, p);
    }
  }

  /** The segment after `pp.` of a path under `pp.a` is `a`. */
  lemma SegmentOf(pp: string, a: string, p: string)
    requires ValidName(a) && PathWithinSubtree(p, pp + "." + a)
    ensures |p| >= |pp| + 1 && Split(p[|pp| + 1..])[0] == a
  {
    var top := pp + "." + a;
    assert p[..|top|] == top;
    var rest := p[|pp| + 1..];
    if p == top {
      assert rest == a;
      SplitPlain(a);
    } else {
      assert p[|top|] == '.';
      assert rest == a + "." + p[|top| + 1..];
      SplitAtDot(a, p[|top| + 1..]);
    }
  }

  lemma ParentInside(t: Shape, top: Option<string>, c: string)
    requires AllPlaced(t, top) && c in t
    ensures t[c].parent == top || (t[c].parent.Some? && t[c].parent.value in t)
  {
    assert PlacedUnder(t, c, top);
  }

  /** A queue keeps its place when a part with other paths is added. */
  lemma PlacedInUnion(a: Shape, b: Shape, top: Option<string>, t: Shape, p: string)
    requires AllPlaced(a, top) && AllPlaced(b, top) && a.Keys !! b.Keys
    requires top.Some? ==> top.value !in a
    requires t.Keys == a.Keys + b.Keys && (forall c :: c in a ==> t[c] == a[c]) && (forall c :: c in b ==> t[c] == b[c])
    requires p in a
    ensures PlacedUnder(t, p, top)
  {
    assert PlacedUnder(a, p, top);
    forall c | c in b ensures t[c].parent != Some(p) {
      ParentInside(b, top, c);
    }
  }

  /** Two parts with disjoint paths under the same queue can be put together. */
  lemma UnionPlaced(a: Shape, b: Shape, top: Option<string>)
    requires AllPlaced(a, top) && AllPlaced(b, top) && a.Keys !! b.Keys
    requires top.Some? ==> top.value !in a && top.value !in b
    ensures AllPlaced(a + b, top)
  {
    var t := a + b;
    forall p | p in t ensures PlacedUnder(t, p, top) {
      if p in a {
        PlacedInUnion(a, b, top, t, p);
      } else {
        PlacedInUnion(b, a, top, t, p);
      }
    }
  }

  ghost predicate UnderRoot(p: string, pp: string, c: Spec) {
    PathWithinSubtree(p, pp + "." + c.name)
  }

  /** Every path of a forest lies under one of its roots, hence strictly below `pp`. */
  ghost predicate UnderRoots(t: Shape, cs: seq<Spec>, pp: string) {
    forall p :: p in t ==> exists c :: c in cs && UnderRoot(p, pp, c)
  }

  ghost predicate RootPresent(t: Shape, pp: string, c: Spec) {
    pp + "." + c.name in t && t[pp + "." + c.name].parent == Some(pp)
  }

  /** Each root of the forest is there, with `pp` as its parent. */
  ghost predicate RootsPresent(t: Shape, cs: seq<Spec>, pp: string) {
    forall c :: c in cs ==> RootPresent(t, pp, c)
  }

  /** The conditions on a list of children. */
  ghost predicate AcceptsAll(cs: seq<Spec>) {
    DistinctNames(cs) && forall i :: 0 <= i < |cs| ==> Accepts(cs[i])
  }

  lemma {:induction false} NodesPlaced(s: Spec, parent: Option<string>)
    requires Accepts(s)
    ensures PathUnder(parent, s.name) in NodesOf(s, parent)
    ensures NodesOf(s, parent)[PathUnder(parent, s.name)] == NodeOf(s, parent)
    ensures Below(NodesOf(s, parent), PathUnder(parent, s.name))
    ensures AllPlaced(NodesOf(s, parent), parent)
    decreases s, 1
  {
    var path := PathUnder(parent, s.name);
    var forest := NodesOfAll(s.children, path);
    ForestPlaced(s.children, path);
    ForestBelow(s.children, path, forest);
    RootPlaced(s, parent, path, forest, NodesOf(s, parent));
  }

  lemma {:induction false} ForestPlaced(cs: seq<Spec>, pp: string)
    requires AcceptsAll(cs)
    ensures UnderRoots(NodesOfAll(cs, pp), cs, pp)
    ensures AllPlaced(NodesOfAll(cs, pp), Some(pp))
    ensures RootsPresent(NodesOfAll(cs, pp), cs, pp)
    decreases cs, 0
  {
    if cs != [] {
      var n := |cs| - 1;
      var front, last := NodesOfAll(cs[..n], pp), NodesOf(cs[n], Some(pp));
      ForestPlaced(cs[..n], pp);
      NodesPlaced(cs[n], Some(pp));
      ForestJoin(cs, pp, front, last);
    }
  }

  /** Adding the last child's part to the forest of the children before it. */
  lemma ForestJoin(cs: seq<Spec>, pp: string, front: Shape, last: Shape)
    requires cs != [] && AcceptsAll(cs)
    requires UnderRoots(front, cs[..|cs| - 1], pp) && AllPlaced(front, Some(pp)) &&
      RootsPresent(front, cs[..|cs| - 1], pp)
    requires Below(last, pp + "." + cs[|cs| - 1].name) && AllPlaced(last, Some(pp)) &&
      RootPresent(last, pp, cs[|cs| - 1])
    ensures UnderRoots(front + last, cs, pp)
    ensures AllPlaced(front + last, Some(pp))
    ensures RootsPresent(front + last, cs, pp)
  {
    assert forall p :: p in last ==> UnderRoot(p, pp, cs[|cs| - 1]);
    ForestApart(cs, pp, front, last);
    UnionPlaced(front, last, Some(pp));
    ForestRoots(cs, pp, front, last);
  }

  lemma ForestRoots(cs: seq<Spec>, pp: string, front: Shape, last: Shape)
    requires cs != []
    requires UnderRoots(front, cs[..|cs| - 1], pp) && RootsPresent(front, cs[..|cs| - 1], pp) && front.Keys !! last.Keys
    requires RootPresent(last, pp, cs[|cs| - 1]) && forall p :: p in last ==> UnderRoot(p, pp, cs[|cs| - 1])
    ensures UnderRoots(front + last, cs, pp)
    ensures RootsPresent(front + last, cs, pp)
  {
    var n := |cs| - 1;
    assert cs == cs[..n] + [cs[n]];
    forall p | p in front + last ensures exists c :: c in cs && UnderRoot(p, pp, c) {
      if p in last {
        assert cs[n] in cs && UnderRoot(p, pp, cs[n]);
      } else {
        var c :| c in cs[..n] && UnderRoot(p, pp, c);
        assert c in cs;
      }
    }
    forall c | c in cs ensures RootPresent(front + last, pp, c) {
      assert c in cs[..n] || c == cs[n];
      PresentInUnion(front, last, pp, c);
    }
  }

  lemma PresentInUnion(a: Shape, b: Shape, pp: string, c: Spec)
    requires a.Keys !! b.Keys && (RootPresent(a, pp, c) || RootPresent(b, pp, c))
    ensures RootPresent(a + b, pp, c)
  {}

  /** The last child's paths are apart from those of the children before it. */
  lemma ForestApart(cs: seq<Spec>, pp: string, front: Shape, last: Shape)
    requires cs != [] && AcceptsAll(cs)
    requires UnderRoots(front, cs[..|cs| - 1], pp) && forall p :: p in last ==> UnderRoot(p, pp, cs[|cs| - 1])
    ensures front.Keys !! last.Keys && pp !in front && pp !in last
  {
    var n := |cs| - 1;
    forall p | p in front ensures p !in last && p != pp {
      var c :| c in cs[..n] && UnderRoot(p, pp, c);
      var i :| 0 <= i < n && cs[i] == c;
      assert Accepts(cs[i]) && Accepts(cs[n]);
      SiblingsApart(pp, c.name, cs[n].name, p);
    }
  }

  lemma ForestBelow(cs: seq<Spec>, pp: string, forest: Shape)
    requires UnderRoots(forest, cs, pp)
    ensures forall p :: p in forest ==> PathWithinSubtree(p, pp) && |p| > |pp|
  {
    forall p | p in forest ensures PathWithinSubtree(p, pp) && |p| > |pp| {
      var c :| c in cs && UnderRoot(p, pp, c);
      PrefixTrans(p, pp + "." + c.name, pp);
    }
  }

  /** `t` is the forest of a spec's children with the spec's own queue on top. */
  ghost predicate OnTop(s: Spec, parent: Option<string>, path: string, forest: Shape, t: Shape) {
    && path == PathUnder(parent, s.name)
    && t == forest[path := NodeOf(s, parent)]
    && (parent.Some? ==> |parent.value| < |path|)
    && (forall p :: p in forest ==> |p| > |path|)
    && (s.children == [] ==> forall p :: p !in forest)
  }

  /** Putting a queue on top of the forest of its children. */
  lemma RootPlaced(s: Spec, parent: Option<string>, path: string, forest: Shape, t: Shape)
    requires Accepts(s) && OnTop(s, parent, path, forest, t)
    requires AllPlaced(forest, Some(path)) && RootsPresent(forest, s.children, path)
    ensures AllPlaced(t, parent)
  {
    forall p | p in t ensures PlacedUnder(t, p, parent) {
      if p == path {
        RootLeaf(s, parent, path, forest, t);
      } else {
        ChildPlaced(s, parent, path, forest, t, p);
      }
    }
  }

  /** A queue of the forest keeps its place once its root is added. */
  lemma ChildPlaced(s: Spec, parent: Option<string>, path: string, forest: Shape, t: Shape, p: string)
    requires OnTop(s, parent, path, forest, t) && AllPlaced(forest, Some(path)) && p in forest
    ensures PlacedUnder(t, p, parent)
  {
    assert PlacedUnder(forest, p, Some(path));
    ParentInside(forest, Some(path), p);
    forall c | c in forest ensures c != path && t[c] == forest[c] {}
    assert t[path].parent != Some(p) && !t[path].leaf;
  }

  /** The queue on top is a leaf exactly when it has no children. */
  lemma RootLeaf(s: Spec, parent: Option<string>, path: string, forest: Shape, t: Shape)
    requires Accepts(s) && OnTop(s, parent, path, forest, t) && RootsPresent(forest, s.children, path)
    ensures PlacedUnder(t, path, parent)
  {
    if s.children != [] {
      assert RootPresent(forest, path, s.children[0]);
      var p := path + "." + s.children[0].name;
      assert p in t && t[p].parent == Some(path);
    }
  }

  /** The root spec as NewManager builds it: its name is forced to "root". */
  function RootSpec(s: Spec): Spec {
    s.(name := ROOT)
  }

  /** Every accepted spec builds a well-formed tree. */
  lemma AcceptedIsWellFormed(s: Spec)
    requires Accepts(RootSpec(s))
    ensures WellFormed(NodesOf(RootSpec(s), None))
  {
    var t := NodesOf(RootSpec(s), None);
    NodesPlaced(RootSpec(s), None);
    forall p | p in t ensures WellPlaced(t, p) {
      assert PlacedUnder(t, p, None);
      if t[p].parent == None && p != ROOT {
        DottedPrefix(p, ROOT);
      }
    }
  }
}
