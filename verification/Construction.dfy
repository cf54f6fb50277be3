/** NewManager: the recursive builder that fills the index with linked queue objects
    (pkg/queue/manager.go). */
module Construction {
  import opened Vectors
  import opened Paths
  import opened QueueTree
  import opened TreeBuild
  import opened Placement
  import opened Manager

  ghost function ParentPath(parent: Queue?): Option<string> {
    if parent == null then None else Some(parent.path)
  }

  /** `part` holds the queue objects of `t`, unused so far and linked to each other;
      those at the top of the part hang under `parent`. */
  ghost predicate Built(part: Index, objs: set<Queue>, t: Shape, parent: Queue?)
    reads objs
  {
    && part.Keys == t.Keys
    && Held(part, objs)
    && forall p {:trigger BuiltAt(part, objs, t, parent, p)} :: p in part ==> BuiltAt(part, objs, t, parent, p)
  }

  ghost predicate BuiltAt(part: Index, objs: set<Queue>, t: Shape, parent: Queue?, p: string)
    requires p in part && p in t && part[p] in objs
    reads objs
  {
    && part[p].path == p
    && part[p].AsNode(t[p].leaf) == t[p]
    && (t[p].leaf <==> part[p].IsLeafQueue())
    && part[p].Usage() == ZERO
    && (part[p].parent == parent || (part[p].parent != null && Owns(part, part[p].parent)))
  }

  lemma BuiltUnion(a: Index, x: set<Queue>, s: Shape, b: Index, y: set<Queue>, t: Shape, parent: Queue)
    requires Built(a, x, s, parent) && Built(b, y, t, parent) && s.Keys !! t.Keys
    ensures Built(a + b, x + y, s + t, parent)
  {
    forall p | p in a + b ensures BuiltAt(a + b, x + y, s + t, parent, p) {
      if p in b {
        assert BuiltAt(b, y, t, parent, p);
      } else {
        assert BuiltAt(a, x, s, parent, p);
      }
    }
  }

  lemma BuiltTop(part: Index, objs: set<Queue>, t: Shape, q: Queue, node: Node)
    requires Built(part, objs, t, q) && q.path !in t
    requires q.AsNode(node.leaf) == node && (node.leaf <==> q.IsLeafQueue()) && q.Usage() == ZERO
    ensures Built(part[q.path := q], objs + {q}, t[q.path := node], q.parent)
  {
    var part', t' := part[q.path := q], t[q.path := node];
    forall p | p in part' ensures BuiltAt(part', objs + {q}, t', q.parent, p) {
      if p != q.path {
        assert BuiltAt(part, objs, t, q, p);
      }
    }
  }

  /** No path in use lies at or below `path`. */
  ghost predicate Free(used: set<string>, path: string) {
    forall k :: k in used ==> !PathWithinSubtree(k, path)
  }

  /** The paths in use leave room for one more child. */
  lemma ChildPathFree(used: set<string>, forest: Shape, cs: seq<Spec>, pp: string, c: Spec)
    requires UnderRoots(forest, cs, pp) && Free(used - {pp}, pp)
    requires ValidName(c.name) && forall x :: x in cs ==> ValidName(x.name) && x.name != c.name
    ensures Free(used + forest.Keys, pp + "." + c.name)
  {
    forall k | k in forest ensures !PathWithinSubtree(k, pp + "." + c.name) {
      var x :| x in cs && UnderRoot(k, pp, x);
      SiblingsApart(pp, x.name, c.name, k);
    }
    forall k | k in used ensures !PathWithinSubtree(k, pp + "." + c.name) {
      BelowChild(k, pp, c.name);
    }
  }

  lemma BelowChild(k: string, pp: string, name: string)
    ensures PathWithinSubtree(k, pp + "." + name) ==> k != pp && PathWithinSubtree(k, pp)
  {
    if PathWithinSubtree(k, pp + "." + name) {
      Fences.PrefixTrans(k, pp + "." + name, pp);
    }
  }

  /** The checks on a queue's children. */
  ghost predicate AcceptsChildren(cs: seq<Spec>, max: Resource) {
    AcceptsAll(cs) && forall i :: 0 <= i < |cs| ==> MaxWithinParent(cs[i].max, max)
  }

  ghost function Names(cs: seq<Spec>): set<string> {
    set c | c in cs :: c.name
  }

  lemma AcceptsStep(cs: seq<Spec>, i: nat, max: Resource)
    requires i < |cs| && AcceptsChildren(cs[..i], max)
    ensures AcceptsChildren(cs[..i + 1], max) <==>
      cs[i].name !in Names(cs[..i]) && MaxWithinParent(cs[i].max, max) && Accepts(cs[i])
    ensures Names(cs[..i + 1]) == Names(cs[..i]) + {cs[i].name}
  {
    var now, next := cs[..i], cs[..i + 1];
    assert next == now + [cs[i]] && next[..i] == now;
    if AcceptsChildren(next, max) {
      assert Accepts(next[i]) && MaxWithinParent(next[i].max, max);
      forall j | 0 <= j < i ensures now[j].name != cs[i].name {
        assert next[j].name != next[i].name;
      }
    }
    if cs[i].name !in Names(now) && MaxWithinParent(cs[i].max, max) && Accepts(cs[i]) {
      forall j, k | 0 <= j < k < |next| ensures next[j].name != next[k].name {
        assert k < i ==> now[j].name != now[k].name;
        assert now[j] in now;
      }
      forall j | 0 <= j < |next| ensures Accepts(next[j]) && MaxWithinParent(next[j].max, max) {
        assert j < i ==> now[j] == next[j];
      }
    }
  }

  lemma AcceptsPrefix(cs: seq<Spec>, i: nat, max: Resource)
    requires i <= |cs| && AcceptsChildren(cs, max)
    ensures AcceptsChildren(cs[..i], max)
  {
    var now := cs[..i];
    forall j, k | 0 <= j < k < |now| ensures now[j].name != now[k].name {
      assert cs[j].name != cs[k].name;
    }
    forall j | 0 <= j < |now| ensures Accepts(now[j]) && MaxWithinParent(now[j].max, max) {
      assert now[j] == cs[j];
    }
  }

  /** One more child passes exactly when its own checks do, and must for all to pass. */
  lemma AcceptsNext(cs: seq<Spec>, i: nat, max: Resource)
    requires i < |cs| && AcceptsChildren(cs[..i], max)
    ensures AcceptsChildren(cs[..i + 1], max) <==>
      cs[i].name !in Names(cs[..i]) && MaxWithinParent(cs[i].max, max) && Accepts(cs[i])
    ensures AcceptsChildren(cs, max) ==> AcceptsChildren(cs[..i + 1], max)
    ensures Names(cs[..i + 1]) == Names(cs[..i]) + {cs[i].name}
  {
    AcceptsStep(cs, i, max);
    if AcceptsChildren(cs, max) {
      AcceptsPrefix(cs, i + 1, max);
    }
  }

  /** A child with a new name finds its paths free. */
  lemma NewChildFree(cs: seq<Spec>, c: Spec, pp: string, used: set<string>)
    requires AcceptsAll(cs) && c.name !in Names(cs) && Free(used - {pp}, pp)
    ensures ValidName(c.name) ==> Free(used + NodesOfAll(cs, pp).Keys, pp + "." + c.name)
  {
    ForestPlaced(cs, pp);
    SiblingNames(cs, c.name);
    if ValidName(c.name) {
      ChildPathFree(used, NodesOfAll(cs, pp), cs, pp, c);
    }
  }

  /** The checks, as the builder makes them. */
  lemma AcceptsParts(s: Spec)
    ensures Accepts(s) <==>
      && ValidName(s.name) && NonNegative(s.guaranteed) && NonNegative(s.max)
      && AcceptsChildren(s.children, s.max) && GuaranteeCovers(s)
  {}

  lemma PrefixSnoc(cs: seq<Spec>, i: nat)
    requires i < |cs|
    ensures cs[..i + 1] == cs[..i] + [cs[i]]
  {}

  lemma MergeAssoc(a: Index, b: Index, c: Index)
    ensures a + (b + c) == (a + b) + c
  {}

  lemma SiblingNames(cs: seq<Spec>, name: string)
    requires AcceptsAll(cs) && name !in Names(cs)
    ensures forall x :: x in cs ==> ValidName(x.name) && x.name != name
  {
    forall x | x in cs ensures ValidName(x.name) && x.name != name {
      var i :| 0 <= i < |cs| && cs[i] == x;
      assert Accepts(cs[i]);
    }
  }

  /** Adding a child to a forest adds its own, disjoint paths. */
  lemma JoinShapes(cs: seq<Spec>, c: Spec, pp: string)
    requires AcceptsAll(cs) && Accepts(c) && AcceptsAll(cs + [c])
    ensures NodesOfAll(cs, pp).Keys !! NodesOf(c, Some(pp)).Keys
    ensures NodesOfAll(cs + [c], pp) == NodesOfAll(cs, pp) + NodesOf(c, Some(pp))
  {
    ForestPlaced(cs, pp);
    NodesPlaced(c, Some(pp));
    JoinApart(cs, c, pp, NodesOfAll(cs, pp), NodesOf(c, Some(pp)));
    assert (cs + [c])[..|cs|] == cs;
  }

  lemma JoinApart(cs: seq<Spec>, c: Spec, pp: string, front: Shape, last: Shape)
    requires AcceptsAll(cs + [c]) && UnderRoots(front, cs, pp) && Below(last, pp + "." + c.name)
    ensures front.Keys !! last.Keys
  {
    var all := cs + [c];
    assert all[..|all| - 1] == cs && all[|all| - 1] == c;
    assert forall p :: p in last ==> UnderRoot(p, pp, c);
    ForestApart(all, pp, front, last);
  }

  /** Adding a child's part to the siblings built so far. */
  lemma JoinChild(part: Index, objs: set<Queue>, sub: Index, more: set<Queue>, cs: seq<Spec>, c: Spec, q: Queue)
    requires AcceptsAll(cs) && Accepts(c) && AcceptsAll(cs + [c])
    requires Built(part, objs, NodesOfAll(cs, q.path), q) && Built(sub, more, NodesOf(c, Some(q.path)), q)
    ensures Built(part + sub, objs + more, NodesOfAll(cs + [c], q.path), q)
  {
    JoinShapes(cs, c, q.path);
    BuiltUnion(part, objs, NodesOfAll(cs, q.path), sub, more, NodesOf(c, Some(q.path)), q);
  }

  lemma JoinNext(part: Index, objs: set<Queue>, sub: Index, more: set<Queue>, cs: seq<Spec>, i: nat, q: Queue)
    requires i < |cs| && AcceptsChildren(cs[..i], q.max) && AcceptsChildren(cs[..i + 1], q.max) && Accepts(cs[i])
    requires Built(part, objs, NodesOfAll(cs[..i], q.path), q) && Built(sub, more, NodesOf(cs[i], Some(q.path)), q)
    ensures Built(part + sub, objs + more, NodesOfAll(cs[..i + 1], q.path), q)
  {
    PrefixSnoc(cs, i);
    JoinChild(part, objs, sub, more, cs[..i], cs[i], q);
  }

  /** The children's paths leave the queue's own path free. */
  lemma TopApart(cs: seq<Spec>, pp: string)
    requires AcceptsAll(cs)
    ensures pp !in NodesOfAll(cs, pp)
  {
    ForestPlaced(cs, pp);
    ForestBelow(cs, pp, NodesOfAll(cs, pp));
  }

  lemma NoNames(cs: seq<Spec>)
    ensures Names(cs) == {} <==> cs == []
  {
    if cs != [] {
      assert cs[0].name in Names(cs);
    }
  }

  /** Adding the queue on top of its children's part. */
  lemma JoinTop(part: Index, objs: set<Queue>, spec: Spec, q: Queue)
    requires AcceptsAll(spec.children) && Built(part, objs, NodesOfAll(spec.children, q.path), q)
    requires q.path == PathUnder(ParentPath(q.parent), spec.name) &&
      q.AsNode(spec.children == []) == NodeOf(spec, ParentPath(q.parent))
    requires q.children.Keys == Names(spec.children) && q.Usage() == ZERO
    ensures q.path !in part
    ensures Built(part[q.path := q], objs + {q}, NodesOf(spec, ParentPath(q.parent)), q.parent)
  {
    TopApart(spec.children, q.path);
    NoNames(spec.children);
    assert q.children.Keys == {} <==> q.children == map[];
    BuiltTop(part, objs, NodesOfAll(spec.children, q.path), q, NodeOf(spec, ParentPath(q.parent)));
  }

  lemma MergeTop(index: Index, part: Index, path: string, q: Queue)
    requires path !in part
    ensures index[path := q] + part == index + part[path := q]
  {}

  /** Builds one queue and everything below it. It succeeds exactly on accepted specs, and
      then adds to the index one linked queue object per queue of the spec. A path already
      in use is never met, because the sibling check comes first. */
  method Build(spec: Spec, parent: Queue?, index: Index)
    returns (r: Option<Queue>, out: Index, ghost part: Index, ghost objs: set<Queue>)
    requires ValidName(spec.name) ==> Free(index.Keys, PathUnder(ParentPath(parent), spec.name))
    ensures r.Some? <==> Accepts(spec)
    ensures fresh(objs)
    ensures r.Some? ==>
      && out == index + part
      && Built(part, objs, NodesOf(spec, ParentPath(parent)), parent)
      && Owns(part, r.value) && r.value.path == PathUnder(ParentPath(parent), spec.name)
    decreases spec, 2
  {
    AcceptsParts(spec);
    r, out, part, objs := None, index, map[], {};
    if ValidName(spec.name) && (forall d :: d in spec.guaranteed ==> spec.guaranteed[d] >= 0)
       && (forall d :: d in spec.max ==> spec.max[d] >= 0) {
      r, out, part, objs := BuildQueue(spec, parent, index);
    }
  }

  /** The part of Build past the checks on the queue's own fields. */
  method BuildQueue(spec: Spec, parent: Queue?, index: Index)
    returns (r: Option<Queue>, out: Index, ghost part: Index, ghost objs: set<Queue>)
    requires Free(index.Keys, PathUnder(ParentPath(parent), spec.name))
    ensures r.Some? <==> AcceptsChildren(spec.children, spec.max) && GuaranteeCovers(spec)
    ensures fresh(objs)
    ensures r.Some? ==>
      && out == index + part
      && Built(part, objs, NodesOf(spec, ParentPath(parent)), parent)
      && Owns(part, r.value) && r.value.path == PathUnder(ParentPath(parent), spec.name)
    decreases spec, 1
  {
    var path := if parent == null then spec.name else parent.path + "." + spec.name;
    assert path !in index;
    var q := new Queue(spec.name, path, parent, spec.guaranteed, spec.max, spec.fence, spec.serviceAccounts,
                       spec.defaultLeaf);
    var ok;
    ok, out, part, objs := BuildChildren(spec, q, index[path := q]);
    if !ok || !GuaranteeCovers(spec) {
      return None, out, part, objs;
    }
    JoinTop(part, objs, spec, q);
    MergeTop(index, part, path, q);
    return Some(q), out, part[path := q], objs + {q};
  }

  method BuildChildren(spec: Spec, q: Queue, index: Index)
    returns (ok: bool, out: Index, ghost part: Index, ghost objs: set<Queue>)
    requires Free(index.Keys - {q.path}, q.path) && q.children == map[]
    modifies q`children
    ensures ok <==> AcceptsChildren(spec.children, q.max)
    ensures fresh(objs)
    ensures ok ==>
      && out == index + part
      && Built(part, objs, NodesOfAll(spec.children, q.path), q)
      && q.children.Keys == Names(spec.children)
    decreases spec, 0
  {
    var cs := spec.children;
    out, part, objs := index, map[], {};
    for i := 0 to |cs|
      invariant AcceptsChildren(cs[..i], q.max) && q.children.Keys == Names(cs[..i])
      invariant out == index + part && fresh(objs) && q !in objs
      invariant Built(part, objs, NodesOfAll(cs[..i], q.path), q)
    {
      AcceptsNext(cs, i, q.max);
      if cs[i].name in q.children || !MaxWithinParent(cs[i].max, q.max) {
        return false, out, part, objs;
      }
      var child;
      ghost var sub, more;
      child, out, sub, more := BuildChild(cs[i], q, out, cs[..i], index.Keys);
      if child == None {
        return false, out, part, objs;
      }
      JoinNext(part, objs, sub, more, cs, i, q);
      MergeAssoc(index, part, sub);
      part, objs := part + sub, objs + more;
    }
    assert cs[..|cs|] == cs;
    ok := true;
  }

  /** Builds and links one child; its paths are free because its name is new among its siblings. */
  method BuildChild(c: Spec, q: Queue, index: Index, ghost cs: seq<Spec>, ghost used: set<string>)
    returns (child: Option<Queue>, out: Index, ghost sub: Index, ghost objs: set<Queue>)
    requires index.Keys == used + NodesOfAll(cs, q.path).Keys && Free(used - {q.path}, q.path)
    requires AcceptsAll(cs) && c.name !in Names(cs)
    modifies q`children
    ensures child.Some? <==> Accepts(c)
    ensures fresh(objs)
    ensures child.Some? ==> out == index + sub && Built(sub, objs, NodesOf(c, Some(q.path)), q)
    ensures child.Some? ==> q.children.Keys == old(q.children).Keys + {c.name}
    decreases c, 3
  {
    NewChildFree(cs, c, q.path, used);
    child, out, sub, objs := Build(c, q, index);
    if child.Some? {
      q.LinkChild(c.name, child.value);
    }
  }

  /** Queue objects built for a well-formed shape are linked as the manager needs them. */
  lemma BuiltIsLinked(part: Index, objs: set<Queue>, t: Shape)
    requires Built(part, objs, t, null) && WellFormed(t)
    ensures Linked(part, t) && LeavesMarked(part, objs, t) && Tally(part, objs) == EmptyUsage(t)
  {
    forall p | p in part
      ensures part[p].path == p && Mirrored(part, t, p) && part[p].Usage() == ZERO &&
        (t[p].leaf <==> part[p].IsLeafQueue())
    {
      assert BuiltAt(part, objs, t, null, p);
    }
  }

  /** The configuration read back off the queue objects. */
  method ReadShape(index: Index, ghost objs: set<Queue>, ghost t: Shape) returns (shape: Shape)
    requires Linked(index, t) && Held(index, objs) && LeavesMarked(index, objs, t)
    ensures shape == t
  {
    forall p | p in index ensures index[p].AsNode(index[p].IsLeafQueue()) == t[p] {
      assert Mirrored(index, t, p);
    }
    shape := map p | p in index :: index[p].AsNode(index[p].IsLeafQueue());
  }

  /** Builds a manager, or nothing: it succeeds exactly when the spec passes every check and
      its placement is valid. The tree it returns is well formed and carries no usage. */
  method NewManager(root: Spec) returns (m: QueueManager?)
    ensures m != null <==> Accepts(RootSpec(root)) && ValidPlacement(NodesOf(RootSpec(root), None))
    ensures m != null ==> fresh(m) && fresh(m.queues) && m.Valid()
    ensures m != null ==> m.View() == EmptyTree(NodesOf(RootSpec(root), None))
  {
    var spec := RootSpec(root);
    var r, index;
    ghost var part, objs;
    r, index, part, objs := Build(spec, null, map[]);
    if r == None {
      return null;
    }
    m := Finish(root, index, part, objs);
  }

  /** The part of NewManager past the builder: the placement checks. */
  method Finish(root: Spec, index: Index, ghost part: Index, ghost objs: set<Queue>) returns (m: QueueManager?)
    requires Accepts(RootSpec(root)) && index == map[] + part && Built(part, objs, NodesOf(RootSpec(root), None), null)
    ensures m != null <==> ValidPlacement(NodesOf(RootSpec(root), None))
    ensures m != null ==> fresh(m) && m.queues == objs && m.Valid()
    ensures m != null ==> m.View() == EmptyTree(NodesOf(RootSpec(root), None))
  {
    ghost var t := NodesOf(RootSpec(root), None);
    assert index == part;
    AcceptedIsWellFormed(root);
    BuiltIsLinked(part, objs, t);
    var shape := ReadShape(index, objs, t);
    var ok := ValidatePlacement(shape);
    if !ok {
      return null;
    }
    m := new QueueManager(index, t, objs);
  }
}
