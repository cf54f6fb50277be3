/** The two builders, said of every queue of a spec in its own fields: which specs NewManager
    accepts and what node each queue becomes (build in pkg/queue/manager.go), and what spec each
    Queue resource becomes (buildNamespace in pkg/controller/queue/build.go). */
module SpecLaws {
  import opened Vectors
  import opened Sums
  import opened Paths
  import opened QueueTree
  import opened Fences
  import opened TreeBuild
  import opened Assembly

  /** `x` is `s` or one of the queues below it. */
  ghost predicate Within(x: Spec, s: Spec)
    decreases s
  {
    x == s || exists i :: 0 <= i < |s.children| && Within(x, s.children[i])
  }

  // ---------------------------------------------------------------- what is accepted

  /** What the queues guarantee together. */
  ghost function Guarantees(cs: seq<Spec>, d: string): int {
    SeqSum(seq(|cs|, i requires 0 <= i < |cs| => Get(cs[i].guaranteed, d)))
  }

  lemma {:induction false} GuaranteedSumIs(cs: seq<Spec>, d: string)
    ensures Get(GuaranteedSum(cs), d) == Guarantees(cs, d)
    decreases |cs|
  {
    if cs != [] {
      var n := |cs| - 1;
      GuaranteedSumIs(cs[..n], d);
      GuaranteesSnoc(cs, n, d);
    }
  }

  lemma GuaranteesSnoc(cs: seq<Spec>, n: nat, d: string)
    requires |cs| == n + 1
    ensures Guarantees(cs, d) == Guarantees(cs[..n], d) + Get(cs[n].guaranteed, d)
  {
    var x := seq(n, i requires 0 <= i < n => Get(cs[i].guaranteed, d));
    assert x == seq(|cs[..n]|, i requires 0 <= i < |cs[..n]| => Get(cs[..n][i].guaranteed, d));
    assert x + [Get(cs[n].guaranteed, d)] == seq(|cs|, i requires 0 <= i < |cs| => Get(cs[i].guaranteed, d));
    SeqSumSnoc(x, Get(cs[n].guaranteed, d));
  }

  /** A queue the builder lets through, its children aside. */
  ghost predicate ProperQueue(x: Spec) {
    && x.name != "" && '.' !in x.name
    && (forall d :: Get(x.guaranteed, d) >= 0 && Get(x.max, d) >= 0)
    && (forall i, j :: 0 <= i < j < |x.children| ==> x.children[i].name != x.children[j].name)
    && (forall i, d :: 0 <= i < |x.children| && d in x.max && d in x.children[i].max ==>
          x.children[i].max[d] <= x.max[d])
    && (forall d :: d in x.guaranteed ==> Guarantees(x.children, d) <= x.guaranteed[d])
  }

  lemma ProperHere(s: Spec)
    ensures Accepts(s) <==> ProperQueue(s) && forall i :: 0 <= i < |s.children| ==> Accepts(s.children[i])
  {
    forall d ensures Get(GuaranteedSum(s.children), d) == Guarantees(s.children, d) {
      GuaranteedSumIs(s.children, d);
    }
    SignHere(s.guaranteed);
    SignHere(s.max);
  }

  lemma SignHere(r: Resource)
    ensures NonNegative(r) <==> forall d :: Get(r, d) >= 0
  {
    if !NonNegative(r) {
      var d :| d in r && r[d] < 0;
      assert Get(r, d) < 0;
    }
  }

  /** A spec is accepted exactly when each of its queues is proper. */
  lemma {:induction false} AcceptsExact(s: Spec)
    ensures Accepts(s) <==> forall x :: Within(x, s) ==> ProperQueue(x)
    decreases s
  {
    ProperHere(s);
    forall i | 0 <= i < |s.children|
      ensures Accepts(s.children[i]) <==> forall x :: Within(x, s.children[i]) ==> ProperQueue(x)
    {
      AcceptsExact(s.children[i]);
    }
    assert Within(s, s);
  }

  // ---------------------------------------------------------------- what is built

  function Join(up: Option<string>, name: string): string {
    if up == None then name else up.value + "." + name
  }

  /** `x` is a queue of `s`, hung from `up` and so with path `p`, when `s` hangs from `parent`. */
  ghost predicate FoundAt(s: Spec, parent: Option<string>, x: Spec, up: Option<string>, p: string)
    decreases s
  {
    || (x == s && up == parent && p == Join(up, x.name))
    || exists i :: 0 <= i < |s.children| && FoundAt(s.children[i], Some(Join(parent, s.name)), x, up, p)
  }

  /** The node has the queue's own settings. */
  predicate Carries(n: Node, x: Spec, up: Option<string>) {
    && n.name == x.name && n.parent == up && (n.leaf <==> x.children == [])
    && n.guaranteed == x.guaranteed && n.max == x.max && n.fence == x.fence
    && n.serviceAccounts == x.serviceAccounts && n.defaultLeaf == x.defaultLeaf
  }

  ghost predicate FoundIn(cs: seq<Spec>, parent: string, x: Spec, up: Option<string>, p: string) {
    exists i :: 0 <= i < |cs| && FoundAt(cs[i], Some(parent), x, up, p)
  }

  /** A queue's path lies at or below the top's. */
  lemma {:induction false} FoundBelow(s: Spec, parent: Option<string>, x: Spec, up: Option<string>, p: string)
    requires FoundAt(s, parent, x, up, p)
    ensures PathWithinSubtree(p, Join(parent, s.name))
    decreases s
  {
    var path := Join(parent, s.name);
    if !(x == s && up == parent && p == Join(up, x.name)) {
      var i :| 0 <= i < |s.children| && FoundAt(s.children[i], Some(path), x, up, p);
      FoundBelow(s.children[i], Some(path), x, up, p);
      PrefixTrans(p, path + "." + s.children[i].name, path);
    }
  }

  lemma ForestMisses(cs: seq<Spec>, pp: string, p: string)
    requires p in NodesOfAll(cs, pp)
    ensures p != pp
  {
    var x, up := ForestComesFrom(cs, pp, p);
    var i :| 0 <= i < |cs| && FoundAt(cs[i], Some(pp), x, up, p);
    FoundBelow(cs[i], Some(pp), x, up, p);
  }

  lemma FrontMisses(cs: seq<Spec>, pp: string, n: nat, p: string)
    requires |cs| == n + 1 && AcceptsAll(cs) && p in NodesOfAll(cs[..n], pp)
    ensures p !in NodesOf(cs[n], Some(pp))
  {
    var x, up := ForestComesFrom(cs[..n], pp, p);
    var i :| 0 <= i < n && FoundAt(cs[..n][i], Some(pp), x, up, p);
    FoundBelow(cs[i], Some(pp), x, up, p);
    assert Accepts(cs[i]) && Accepts(cs[n]);
    SiblingsApart(pp, cs[i].name, cs[n].name, p);
    if p in NodesOf(cs[n], Some(pp)) {
      var y, upy := NodeComesFrom(cs[n], Some(pp), p);
      FoundBelow(cs[n], Some(pp), y, upy, p);
    }
  }

  /** Every queue of the spec becomes the node at its path. */
  lemma {:induction false} QueueBecomes(s: Spec, parent: Option<string>, x: Spec, up: Option<string>, p: string)
    requires Accepts(s) && FoundAt(s, parent, x, up, p)
    ensures p in NodesOf(s, parent) && Carries(NodesOf(s, parent)[p], x, up)
    decreases s, 1
  {
    var path := PathUnder(parent, s.name);
    if !(x == s && up == parent && p == Join(up, x.name)) {
      ForestBecomes(s.children, path, x, up, p);
      ForestMisses(s.children, path, p);
    }
  }

  lemma {:induction false} ForestBecomes(cs: seq<Spec>, pp: string, x: Spec, up: Option<string>, p: string)
    requires AcceptsAll(cs) && FoundIn(cs, pp, x, up, p)
    ensures p in NodesOfAll(cs, pp) && Carries(NodesOfAll(cs, pp)[p], x, up)
    decreases cs, 0
  {
    var n := |cs| - 1;
    var i :| 0 <= i < |cs| && FoundAt(cs[i], Some(pp), x, up, p);
    if i == n {
      QueueBecomes(cs[n], Some(pp), x, up, p);
    } else {
      assert cs[..n][i] == cs[i];
      ForestBecomes(cs[..n], pp, x, up, p);
      FrontMisses(cs, pp, n, p);
    }
  }

  /** And every node comes from a queue of the spec. */
  lemma {:induction false} NodeComesFrom(s: Spec, parent: Option<string>, p: string)
    returns (x: Spec, up: Option<string>)
    requires p in NodesOf(s, parent)
    ensures FoundAt(s, parent, x, up, p)
    decreases s, 1
  {
    var path := PathUnder(parent, s.name);
    if p == path {
      x, up := s, parent;
    } else {
      x, up := ForestComesFrom(s.children, path, p);
    }
  }

  lemma {:induction false} ForestComesFrom(cs: seq<Spec>, pp: string, p: string) returns (x: Spec, up: Option<string>)
    requires p in NodesOfAll(cs, pp)
    ensures FoundIn(cs, pp, x, up, p)
    decreases cs, 0
  {
    var n := |cs| - 1;
    if p in NodesOf(cs[n], Some(pp)) {
      x, up := NodeComesFrom(cs[n], Some(pp), p);
    } else {
      x, up := ForestComesFrom(cs[..n], pp, p);
      var i :| 0 <= i < n && FoundAt(cs[..n][i], Some(pp), x, up, p);
      assert cs[i] == cs[..n][i];
    }
  }

  /** `x` is a queue of the spec, hung from `up`, once the top is renamed to "root". */
  ghost predicate QueueAt(root: Spec, x: Spec, up: Option<string>, p: string) {
    FoundAt(root.(name := ROOT), None, x, up, p)
  }

  /** The tree NewManager builds has, at each path, the node of the one queue found there. */
  lemma TreeLaw(root: Spec, p: string)
    requires Accepts(RootSpec(root))
    ensures var t := NodesOf(RootSpec(root), None);
      && (p in t <==> exists x, up :: QueueAt(root, x, up, p))
      && (forall x, up :: QueueAt(root, x, up, p) ==> p in t && Carries(t[p], x, up))
  {
    var s := RootSpec(root);
    forall x, up | QueueAt(root, x, up, p)
      ensures p in NodesOf(s, None) && Carries(NodesOf(s, None)[p], x, up)
    {
      QueueBecomes(s, None, x, up, p);
    }
    if p in NodesOf(s, None) {
      var x, up := NodeComesFrom(s, None, p);
      assert QueueAt(root, x, up, p);
    }
  }

  // ---------------------------------------------------------------- what is assembled

  /** The spec has its resource's settings and, in name order, the resources it is the parent of
      as its children. */
  ghost predicate SpecFor(m: ByName, x: Spec) {
    && x.name in m
    && x.guaranteed == m[x.name].guaranteed && x.max == m[x.name].max && x.fence == m[x.name].fence
    && x.serviceAccounts == m[x.name].serviceAccounts && x.defaultLeaf == m[x.name].defaultLeaf
    && ChildrenOf(m, x.name, x.children)
  }

  ghost predicate ChildrenOf(m: ByName, parent: string, cs: seq<Spec>) {
    && (forall i :: 0 <= i < |cs| ==> cs[i].name in m && m[cs[i].name].parent == parent)
    && (forall n :: n in m && m[n].parent == parent ==> exists i :: 0 <= i < |cs| && cs[i].name == n)
    && forall i, j :: 0 <= i < j < |cs| ==> StringLess(cs[i].name, cs[j].name)
  }

  lemma ForestIsChildren(m: ByName, p: string, cs: seq<Spec>)
    requires ForestFor(m, p, cs)
    ensures ChildrenOf(m, p, cs)
  {
    var names := NamesIn(cs);
    forall i | 0 <= i < |cs| ensures cs[i].name in m && m[cs[i].name].parent == p {
      assert names[i] in ChildSet(m, p);
    }
    forall n | n in m && m[n].parent == p ensures exists i :: 0 <= i < |cs| && cs[i].name == n {
      assert n in ChildSet(m, p);
      var i :| 0 <= i < |names| && names[i] == n;
      assert cs[i].name == n;
    }
    forall i, j | 0 <= i < j < |cs| ensures StringLess(cs[i].name, cs[j].name) {
      assert StringLess(names[i], names[j]);
    }
  }

  lemma {:induction false} TreeIsSpecFor(m: ByName, s: Spec, x: Spec)
    requires TreeFor(m, s) && Within(x, s)
    ensures SpecFor(m, x)
    decreases s
  {
    if x == s {
      ForestIsChildren(m, s.name, s.children);
    } else {
      var i :| 0 <= i < |s.children| && Within(x, s.children[i]);
      TreeIsSpecFor(m, s.children[i], x);
    }
  }

  /** The assembled namespace: its own queue carries the envelope as max and nothing else, and below
      it every queue is its resource with exactly that resource's children. */
  lemma AssembledLaw(ns: string, m: ByName, envelope: Resource, s: Spec)
    requires Assembled(ns, m, envelope, s)
    ensures s.name == ns && s.max == envelope && s.guaranteed == map[] && s.serviceAccounts == []
    ensures !s.defaultLeaf && !s.fence && ChildrenOf(m, "", s.children)
    ensures forall i, x :: 0 <= i < |s.children| && Within(x, s.children[i]) ==> SpecFor(m, x)
  {
    ForestIsChildren(m, "", s.children);
    forall i, x | 0 <= i < |s.children| && Within(x, s.children[i]) ensures SpecFor(m, x) {
      TreeIsSpecFor(m, s.children[i], x);
    }
  }
}
