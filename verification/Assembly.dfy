/** Assembling one namespace's subtree from its Queue resources
    (buildNamespace in pkg/controller/queue/build.go). */
module Assembly {
  import opened Vectors
  import opened Paths
  import opened QueueTree
  import opened TreeBuild
  import Sorting

  /** One Queue resource; an empty `parent` hangs it under the namespace node. */
  datatype CR = CR(
    name: string,
    parent: string,
    guaranteed: Resource,
    max: Resource,
    serviceAccounts: seq<string>,
    defaultLeaf: bool,
    fence: bool)

  datatype Outcome =
    | Built(spec: Spec)
    | Duplicate(name: string)
    | UnknownParent(name: string, parent: string)
    | Unreachable(count: nat)

  type ByName = map<string, CR>

  function SpecOf(cr: CR, children: seq<Spec>): Spec {
    Spec(cr.name, cr.guaranteed, cr.max, cr.serviceAccounts, cr.defaultLeaf, cr.fence, children)
  }

  // ---------------------------------------------------------------- parent chains

  /** The parent chain of `name` reaches the namespace node after `k` named parents. */
  predicate ReachesIn(m: ByName, name: string, k: nat)
    decreases k
  {
    name in m && (if m[name].parent == "" then k == 0 else k > 0 && ReachesIn(m, m[name].parent, k - 1))
  }

  ghost predicate Reaches(m: ByName, name: string) {
    exists k :: ReachesIn(m, name, k)
  }

  /** A chain has one length. */
  lemma {:induction false} DepthUnique(m: ByName, name: string, j: nat, k: nat)
    requires ReachesIn(m, name, j) && ReachesIn(m, name, k)
    ensures j == k
    decreases j
  {
    if m[name].parent != "" {
      DepthUnique(m, m[name].parent, j - 1, k - 1);
    }
  }

  /** Every name is its own key, and none is empty. */
  ghost predicate Keyed(m: ByName) {
    forall n :: n in m ==> m[n].name == n && n != ""
  }

  /** The names whose parent is `p`. */
  function ChildSet(m: ByName, p: string): set<string> {
    set n | n in m && m[n].parent == p
  }

  ghost predicate StrictlySorted(names: seq<string>) {
    forall i, j :: 0 <= i < j < |names| ==> StringLess(names[i], names[j])
  }

  function NamesIn(cs: seq<Spec>): (names: seq<string>)
    ensures |names| == |cs| && forall i :: 0 <= i < |cs| ==> names[i] == cs[i].name
  {
    seq(|cs|, i requires 0 <= i < |cs| => cs[i].name)
  }

  /** `cs` are subtrees for exactly the names whose parent is `p`, sorted. */
  ghost predicate ForestFor(m: ByName, p: string, cs: seq<Spec>)
    decreases cs, 1
  {
    && StrictlySorted(NamesIn(cs))
    && (forall n :: n in NamesIn(cs) <==> n in ChildSet(m, p))
    && forall i :: 0 <= i < |cs| ==> TreeFor(m, cs[i])
  }

  /** `s` is the queue of its name with, below it, exactly its own children. */
  ghost predicate TreeFor(m: ByName, s: Spec)
    decreases s, 0
  {
    s.name in m && s == SpecOf(m[s.name], s.children) && ForestFor(m, s.name, s.children)
  }

  /** The names in a tree, in preorder. */
  function Preorder(s: Spec): seq<string>
    decreases s, 1
  {
    [s.name] + PreorderAll(s.children)
  }

  function PreorderAll(cs: seq<Spec>): seq<string>
    decreases cs, 0
  {
    if cs == [] then [] else PreorderAll(cs[..|cs| - 1]) + Preorder(cs[|cs| - 1])
  }

  // ---------------------------------------------------------------- each queue exactly once

  /** A queue and its named ancestors. */
  function Ancestors(m: ByName, x: string, k: nat): set<string>
    requires ReachesIn(m, x, k)
    decreases k
  {
    if k == 0 then {x} else {x} + Ancestors(m, m[x].parent, k - 1)
  }

  lemma {:induction false} AncestorDepth(m: ByName, x: string, k: nat, a: string) returns (j: nat)
    requires ReachesIn(m, x, k) && a in Ancestors(m, x, k)
    ensures j <= k && ReachesIn(m, a, j)
    decreases k
  {
    if a == x {
      j := k;
    } else {
      j := AncestorDepth(m, m[x].parent, k - 1, a);
    }
  }

  /** Two ancestors at the same depth are the same. */
  lemma {:induction false} AncestorUnique(m: ByName, x: string, k: nat, a: string, b: string, j: nat)
    requires ReachesIn(m, x, k) && a in Ancestors(m, x, k) && b in Ancestors(m, x, k)
    requires ReachesIn(m, a, j) && ReachesIn(m, b, j)
    ensures a == b
    decreases k
  {
    if a != x && b != x {
      AncestorUnique(m, m[x].parent, k - 1, a, b, j);
    } else if a != b {
      var other := if a == x then b else a;
      var i := AncestorDepth(m, m[x].parent, k - 1, other);
      DepthUnique(m, x, k, j);
      DepthUnique(m, other, i, j);
    }
  }

  /** An ancestor's parent is an ancestor. */
  lemma {:induction false} AncestorStep(m: ByName, x: string, k: nat, a: string)
    requires ReachesIn(m, x, k) && a in Ancestors(m, x, k) && a in m && m[a].parent != ""
    ensures m[a].parent in Ancestors(m, x, k)
    decreases k
  {
    if a == x {
      assert m[x].parent in Ancestors(m, m[x].parent, k - 1);
    } else {
      AncestorStep(m, m[x].parent, k - 1, a);
    }
  }

  /** Trees for some of the names whose parent is `p`, sorted: prefixes of a forest. */
  ghost predicate Trees(m: ByName, p: string, cs: seq<Spec>) {
    && StrictlySorted(NamesIn(cs))
    && forall i :: 0 <= i < |cs| ==> TreeFor(m, cs[i]) && cs[i].name in ChildSet(m, p)
  }

  lemma ForestIsTrees(m: ByName, p: string, cs: seq<Spec>)
    requires ForestFor(m, p, cs)
    ensures Trees(m, p, cs)
  {
    forall i | 0 <= i < |cs| ensures cs[i].name in ChildSet(m, p) {
      assert cs[i].name == NamesIn(cs)[i];
    }
  }

  lemma TreesPrefix(m: ByName, p: string, cs: seq<Spec>, n: nat)
    requires Trees(m, p, cs) && n <= |cs|
    ensures Trees(m, p, cs[..n])
  {
    forall i, j | 0 <= i < j < n ensures StringLess(NamesIn(cs[..n])[i], NamesIn(cs[..n])[j]) {
      assert StringLess(NamesIn(cs)[i], NamesIn(cs)[j]);
    }
  }

  /** Depth of the trees in a forest under `p`: `p` is "" or sits at depth `k - 1`. */
  ghost predicate RootDepth(m: ByName, p: string, k: nat) {
    if p == "" then k == 0 else k > 0 && ReachesIn(m, p, k - 1)
  }

  /** `x` hangs below `a`, at a known depth. */
  ghost predicate HangsBelow(m: ByName, x: string, a: string) {
    exists d :: ReachesIn(m, x, d) && a in Ancestors(m, x, d)
  }

  lemma HangsStep(m: ByName, x: string, a: string)
    requires HangsBelow(m, x, a) && a in m && m[a].parent != ""
    ensures HangsBelow(m, x, m[a].parent)
  {
    var d :| ReachesIn(m, x, d) && a in Ancestors(m, x, d);
    AncestorStep(m, x, d, a);
  }

  /** Everything in a tree hangs below its root. */
  lemma {:induction false} TreeHangs(m: ByName, s: Spec, k: nat, x: string)
    requires Keyed(m) && TreeFor(m, s) && ReachesIn(m, s.name, k) && x in Preorder(s)
    ensures HangsBelow(m, x, s.name)
    decreases s, 1
  {
    if x == s.name {
      assert s.name in Ancestors(m, x, k);
    } else {
      ForestIsTrees(m, s.name, s.children);
      var i := ForestHangs(m, s.name, s.children, k + 1, x);
      HangsStep(m, x, s.children[i].name);
    }
  }

  lemma {:induction false} ForestHangs(m: ByName, p: string, cs: seq<Spec>, k: nat, x: string) returns (i: nat)
    requires Keyed(m) && Trees(m, p, cs) && RootDepth(m, p, k) && x in PreorderAll(cs)
    ensures i < |cs| && HangsBelow(m, x, cs[i].name)
    decreases cs, 0
  {
    var n := |cs| - 1;
    if x in Preorder(cs[n]) {
      i := n;
      assert cs[n].name in ChildSet(m, p);
      TreeHangs(m, cs[n], k, x);
    } else {
      TreesPrefix(m, p, cs, n);
      i := ForestHangs(m, p, cs[..n], k, x);
    }
  }

  ghost predicate NoRepeats(s: seq<string>) {
    forall i, j :: 0 <= i < j < |s| ==> s[i] != s[j]
  }

  lemma NoRepeatsConcat(a: seq<string>, b: seq<string>)
    requires NoRepeats(a) && NoRepeats(b) && forall x :: x in a ==> x !in b
    ensures NoRepeats(a + b)
  {
    forall i, j | 0 <= i < j < |a + b| ensures (a + b)[i] != (a + b)[j] {
      if i < |a| <= j {
        assert a[i] in a && b[j - |a|] in b;
      }
    }
  }

  /** Nothing hangs below two roots of the same depth. */
  lemma HangsBelowOne(m: ByName, x: string, a: string, b: string, k: nat)
    requires HangsBelow(m, x, a) && HangsBelow(m, x, b) && ReachesIn(m, a, k) && ReachesIn(m, b, k)
    ensures a == b
  {
    var d :| ReachesIn(m, x, d) && a in Ancestors(m, x, d);
    var e :| ReachesIn(m, x, e) && b in Ancestors(m, x, e);
    DepthUnique(m, x, d, e);
    AncestorUnique(m, x, d, a, b, k);
  }

  /** A queue does not hang below one of greater depth. */
  lemma NotBelowDeeper(m: ByName, x: string, a: string, j: nat, k: nat)
    requires HangsBelow(m, x, a) && ReachesIn(m, x, j) && ReachesIn(m, a, k)
    ensures k <= j
  {
    var d :| ReachesIn(m, x, d) && a in Ancestors(m, x, d);
    var i := AncestorDepth(m, x, d, a);
    DepthUnique(m, x, d, j);
    DepthUnique(m, a, i, k);
  }

  lemma {:induction false} TreeNoRepeats(m: ByName, s: Spec, k: nat)
    requires Keyed(m) && TreeFor(m, s) && ReachesIn(m, s.name, k)
    ensures NoRepeats(Preorder(s))
    decreases s, 1
  {
    ForestIsTrees(m, s.name, s.children);
    ForestNoRepeats(m, s.name, s.children, k + 1);
    forall x | x in PreorderAll(s.children) ensures x != s.name {
      var i := ForestHangs(m, s.name, s.children, k + 1, x);
      assert s.children[i].name in ChildSet(m, s.name);
      assert ReachesIn(m, s.children[i].name, k + 1);
      if x == s.name {
        NotBelowDeeper(m, x, s.children[i].name, k, k + 1);
      }
    }
    NoRepeatsConcat([s.name], PreorderAll(s.children));
  }

  lemma {:induction false} ForestNoRepeats(m: ByName, p: string, cs: seq<Spec>, k: nat)
    requires Keyed(m) && Trees(m, p, cs) && RootDepth(m, p, k)
    ensures NoRepeats(PreorderAll(cs))
    decreases cs, 0
  {
    if cs != [] {
      var n := |cs| - 1;
      TreesPrefix(m, p, cs, n);
      ForestNoRepeats(m, p, cs[..n], k);
      assert cs[n].name in ChildSet(m, p);
      TreeNoRepeats(m, cs[n], k);
      forall x | x in PreorderAll(cs[..n]) ensures x !in Preorder(cs[n]) {
        var i := ForestHangs(m, p, cs[..n], k, x);
        SubtreesApart(m, p, cs, k, x, i);
      }
      NoRepeatsConcat(PreorderAll(cs[..n]), Preorder(cs[n]));
    }
  }

  lemma SubtreesApart(m: ByName, p: string, cs: seq<Spec>, k: nat, x: string, i: nat)
    requires Keyed(m) && cs != [] && Trees(m, p, cs) && RootDepth(m, p, k) && i < |cs| - 1
    requires HangsBelow(m, x, cs[..|cs| - 1][i].name)
    ensures x !in Preorder(cs[|cs| - 1])
  {
    var n := |cs| - 1;
    assert cs[i].name in ChildSet(m, p) && cs[n].name in ChildSet(m, p);
    assert StringLess(NamesIn(cs)[i], NamesIn(cs)[n]);
    StringLessTrichotomy(cs[i].name, cs[n].name);
    if x in Preorder(cs[n]) {
      TreeHangs(m, cs[n], k, x);
      HangsBelowOne(m, x, cs[i].name, cs[n].name, k);
    }
  }

  // ---------------------------------------------------------------- every queue

  lemma {:induction false} PreorderAllHas(cs: seq<Spec>, i: nat, x: string)
    requires i < |cs| && x in Preorder(cs[i])
    ensures x in PreorderAll(cs)
    decreases |cs|
  {
    if i < |cs| - 1 {
      PreorderAllHas(cs[..|cs| - 1], i, x);
    }
  }

  /** A tree holds the children of everything it holds. */
  lemma {:induction false} TreeClosed(m: ByName, s: Spec, y: string, x: string)
    requires TreeFor(m, s) && y in Preorder(s) && x in ChildSet(m, y)
    ensures x in Preorder(s)
    decreases s, 1
  {
    if y == s.name {
      assert x in NamesIn(s.children);
      var i :| 0 <= i < |s.children| && NamesIn(s.children)[i] == x;
      PreorderAllHas(s.children, i, x);
    } else {
      ForestIsTrees(m, s.name, s.children);
      ForestClosed(m, s.name, s.children, y, x);
    }
  }

  lemma {:induction false} ForestClosed(m: ByName, p: string, cs: seq<Spec>, y: string, x: string)
    requires Trees(m, p, cs) && y in PreorderAll(cs) && x in ChildSet(m, y)
    ensures x in PreorderAll(cs)
    decreases cs, 0
  {
    var n := |cs| - 1;
    if y in Preorder(cs[n]) {
      TreeClosed(m, cs[n], y, x);
    } else {
      TreesPrefix(m, p, cs, n);
      ForestClosed(m, p, cs[..n], y, x);
    }
  }

  /** Every queue whose chain reaches the namespace node is in the forest built from it. */
  lemma {:induction false} ForestComplete(m: ByName, cs: seq<Spec>, x: string, k: nat)
    requires Keyed(m) && ForestFor(m, "", cs) && ReachesIn(m, x, k)
    ensures x in PreorderAll(cs)
    decreases k
  {
    if k == 0 {
      assert x in ChildSet(m, "");
      assert x in NamesIn(cs);
      var i :| 0 <= i < |cs| && NamesIn(cs)[i] == x;
      PreorderAllHas(cs, i, x);
    } else {
      ForestComplete(m, cs, m[x].parent, k - 1);
      ForestIsTrees(m, "", cs);
      ForestClosed(m, "", cs, m[x].parent, x);
    }
  }

  /** The forest under the namespace node holds exactly the queues whose chain reaches it,
      each once. */
  lemma ForestExact(m: ByName, cs: seq<Spec>)
    requires Keyed(m) && ForestFor(m, "", cs)
    ensures NoRepeats(PreorderAll(cs))
    ensures forall x :: x in PreorderAll(cs) <==> Reaches(m, x)
  {
    ForestIsTrees(m, "", cs);
    ForestNoRepeats(m, "", cs, 0);
    forall x ensures x in PreorderAll(cs) <==> Reaches(m, x) {
      if x in PreorderAll(cs) {
        var i := ForestHangs(m, "", cs, 0, x);
      }
      if k :| ReachesIn(m, x, k) {
        ForestComplete(m, cs, x, k);
      }
    }
  }

  // ---------------------------------------------------------------- the builder

  ghost predicate DistinctCRs(crs: seq<CR>) {
    forall i, j :: 0 <= i < j < |crs| ==> crs[i].name != crs[j].name
  }

  ghost predicate ParentsExist(crs: seq<CR>, m: ByName) {
    forall i :: 0 <= i < |crs| ==> crs[i].parent == "" || crs[i].parent in m
  }

  /** `m` indexes the first `n` resources. */
  ghost predicate Indexed(crs: seq<CR>, n: nat, m: ByName)
    requires n <= |crs|
  {
    && (forall i :: 0 <= i < n ==> crs[i].name in m && m[crs[i].name] == crs[i])
    && forall x :: x in m ==> exists i :: 0 <= i < n && crs[i] == m[x] && crs[i].name == x
  }

  /** The resource at `n` is the first whose name was seen before. */
  ghost predicate DuplicateAt(crs: seq<CR>, n: nat) {
    && n < |crs| && DistinctCRs(crs[..n])
    && exists i :: 0 <= i < n && crs[i].name == crs[n].name
  }

  /** `name` is the first name to come up a second time. */
  ghost predicate FirstDuplicate(crs: seq<CR>, name: string) {
    exists n: nat :: DuplicateAt(crs, n) && crs[n].name == name
  }

  lemma DuplicateFound(crs: seq<CR>, n: nat, m: ByName)
    requires n < |crs| && DistinctCRs(crs[..n]) && Indexed(crs, n, m) && crs[n].name in m
    ensures DuplicateAt(crs, n) && !DistinctCRs(crs)
  {
    var i :| 0 <= i < n && crs[i] == m[crs[n].name] && crs[i].name == crs[n].name;
  }

  lemma IndexNext(crs: seq<CR>, n: nat, m: ByName)
    requires n < |crs| && DistinctCRs(crs[..n]) && Indexed(crs, n, m) && crs[n].name !in m
    ensures DistinctCRs(crs[..n + 1]) && Indexed(crs, n + 1, m[crs[n].name := crs[n]])
  {
    var next, m' := crs[..n + 1], m[crs[n].name := crs[n]];
    forall i, j | 0 <= i < j < |next| ensures next[i].name != next[j].name {
      assert next[i] == crs[i] && next[j] == crs[j];
      assert j < n ==> crs[..n][i].name != crs[..n][j].name;
    }
    forall x | x in m' ensures exists i :: 0 <= i < n + 1 && crs[i] == m'[x] && crs[i].name == x {
      if x != crs[n].name {
        var i :| 0 <= i < n && crs[i] == m[x] && crs[i].name == x;
        assert 0 <= i < n + 1;
      }
    }
  }

  method IndexByName(crs: seq<CR>) returns (err: Option<Outcome>, m: ByName)
    ensures err == None <==> DistinctCRs(crs)
    ensures err == None ==> Indexed(crs, |crs|, m)
    ensures err.Some? ==> err.value.Duplicate? && FirstDuplicate(crs, err.value.name)
  {
    err, m := None, map[];
    for n := 0 to |crs|
      invariant DistinctCRs(crs[..n]) && Indexed(crs, n, m)
    {
      if crs[n].name in m {
        DuplicateFound(crs, n, m);
        return Some(Duplicate(crs[n].name)), m;
      }
      IndexNext(crs, n, m);
      m := m[crs[n].name := crs[n]];
    }
    assert crs[..|crs|] == crs;
  }

  /** The child lists after the first `n` resources: who hangs where, each once. */
  ghost predicate Listed(crs: seq<CR>, n: nat, kids: map<string, seq<string>>)
    requires n <= |crs|
  {
    && (forall i :: 0 <= i < n ==> crs[i].parent in kids && crs[i].name in kids[crs[i].parent])
    && (forall p, x :: p in kids && x in kids[p] ==> exists i :: 0 <= i < n && crs[i].parent == p && crs[i].name == x)
    && forall p :: p in kids ==> NoRepeats(kids[p])
  }

  lemma ListOneMore(crs: seq<CR>, n: nat, kids: map<string, seq<string>>, before: seq<string>)
    requires n < |crs| && DistinctCRs(crs) && Listed(crs, n, kids)
    requires before == if crs[n].parent in kids then kids[crs[n].parent] else []
    ensures Listed(crs, n + 1, kids[crs[n].parent := before + [crs[n].name]])
  {
    var kids' := kids[crs[n].parent := before + [crs[n].name]];
    forall x | x in before ensures x != crs[n].name {
      var i :| 0 <= i < n && crs[i].parent == crs[n].parent && crs[i].name == x;
    }
    NoRepeatsConcat(before, [crs[n].name]);
    forall p, x | p in kids' && x in kids'[p]
      ensures exists i :: 0 <= i < n + 1 && crs[i].parent == p && crs[i].name == x
    {
      if p == crs[n].parent && x == crs[n].name {
        assert n < n + 1;
      } else {
        var i :| 0 <= i < n && crs[i].parent == p && crs[i].name == x;
        assert i < n + 1;
      }
    }
  }

  /** The resource at `n` is the first whose named parent does not exist. */
  ghost predicate OrphanAt(crs: seq<CR>, m: ByName, n: nat) {
    && n < |crs| && crs[n].parent != "" && crs[n].parent !in m
    && forall i :: 0 <= i < n ==> crs[i].parent == "" || crs[i].parent in m
  }

  ghost predicate FirstOrphan(crs: seq<CR>, m: ByName, name: string, parent: string) {
    exists n: nat :: OrphanAt(crs, m, n) && crs[n].name == name && crs[n].parent == parent
  }

  method ListChildren(crs: seq<CR>, m: ByName) returns (err: Option<Outcome>, kids: map<string, seq<string>>)
    requires DistinctCRs(crs)
    ensures err == None <==> ParentsExist(crs, m)
    ensures err == None ==> Listed(crs, |crs|, kids)
    ensures err.Some? ==> err.value.UnknownParent? && FirstOrphan(crs, m, err.value.name, err.value.parent)
  {
    err, kids := None, map[];
    for n := 0 to |crs|
      invariant Listed(crs, n, kids)
      invariant forall i :: 0 <= i < n ==> crs[i].parent == "" || crs[i].parent in m
    {
      var p := crs[n].parent;
      if p != "" && p !in m {
        assert OrphanAt(crs, m, n);
        return Some(UnknownParent(crs[n].name, p)), kids;
      }
      var before := if p in kids then kids[p] else [];
      ListOneMore(crs, n, kids, before);
      kids := kids[p := before + [crs[n].name]];
    }
  }

  /** The child lists hold exactly the children, each once. */
  ghost predicate KidsOf(m: ByName, kids: map<string, seq<string>>) {
    && (forall p, x :: x in ChildSet(m, p) ==> p in kids && x in kids[p])
    && forall p :: p in kids ==> NoRepeats(kids[p]) && forall x :: x in kids[p] ==> x in ChildSet(m, p)
  }

  lemma ListedIsKidsOf(crs: seq<CR>, m: ByName, kids: map<string, seq<string>>)
    requires Indexed(crs, |crs|, m) && Listed(crs, |crs|, kids)
    ensures KidsOf(m, kids)
  {}

  /** sortedStrings of a duplicate-free list. */
  method SortNames(names: seq<string>) returns (sorted: seq<string>)
    requires NoRepeats(names)
    ensures StrictlySorted(sorted) && forall x :: x in sorted <==> x in names
  {
    assert Sorting.StrictWeak(StringLess) by {
      forall a, b, c | !StringLess(a, b) && !StringLess(b, c) ensures !StringLess(a, c) {
        StringLessTrichotomy(a, b);
        StringLessTrichotomy(b, c);
        if StringLess(b, a) && StringLess(c, b) {
          StringLessTrans(c, b, a);
        }
        StringLessTrichotomy(a, c);
      }
      forall a, b | StringLess(a, b) ensures !StringLess(b, a) {
        StringLessTrichotomy(a, b);
      }
    }
    sorted := Sorting.Sort(names, StringLess);
    SortedNames(names, sorted);
  }

  lemma SortedNames(names: seq<string>, sorted: seq<string>)
    requires NoRepeats(names) && multiset(sorted) == multiset(names) && Sorting.InOrder(sorted, StringLess)
    ensures StrictlySorted(sorted) && forall x :: x in sorted <==> x in names
  {
    forall x ensures x in sorted <==> x in names {
      assert x in sorted <==> x in multiset(sorted);
      assert x in names <==> x in multiset(names);
    }
    forall i, j | 0 <= i < j < |sorted| ensures StringLess(sorted[i], sorted[j]) {
      StringLessTrichotomy(sorted[i], sorted[j]);
      if sorted[i] == sorted[j] {
        Repeated(names, sorted, i, j);
      }
    }
  }

  lemma Repeated(names: seq<string>, sorted: seq<string>, i: nat, j: nat)
    requires i < j < |sorted| && multiset(sorted) == multiset(names) && sorted[i] == sorted[j]
    ensures !NoRepeats(names)
  {
    Sorting.CountedTwice(sorted, i, j);
    var a, b := Sorting.TwoPositions(names, sorted[i]);
  }

  /** Each of `visiting` sits at a depth smaller than `k`. */
  ghost predicate Above(m: ByName, visiting: set<string>, k: nat) {
    forall v :: v in visiting ==> exists j: nat :: j < k && ReachesIn(m, v, j)
  }

  lemma OneMoreAbove(m: ByName, visiting: set<string>, name: string, k: nat)
    requires Above(m, visiting, k) && ReachesIn(m, name, k)
    ensures Above(m, visiting + {name}, k + 1)
  {
    forall v | v in visiting + {name} ensures exists j: nat :: j < k + 1 && ReachesIn(m, v, j) {
      if v in visiting {
        var j: nat :| j < k && ReachesIn(m, v, j);
        assert j < k + 1;
      }
    }
  }

  lemma NotItsOwnAncestor(m: ByName, name: string, visiting: set<string>, k: nat)
    requires ReachesIn(m, name, k) && Above(m, visiting, k)
    ensures name !in visiting
  {
    if name in visiting {
      var j: nat :| j < k && ReachesIn(m, name, j);
      DepthUnique(m, name, j, k);
    }
  }

  /** The recursion: `visiting` holds the ancestors of `name`. The parent-cycle error it
      guards against is never met, since every name it is called on reaches the root. */
  method BuildNode(m: ByName, kids: map<string, seq<string>>, name: string, visiting: set<string>, built: set<string>,
                   ghost k: nat)
    returns (s: Spec, built': set<string>)
    requires Keyed(m) && KidsOf(m, kids) && ReachesIn(m, name, k) && visiting <= m.Keys
    requires Above(m, visiting, k)
    ensures TreeFor(m, s) && s.name == name
    ensures built' == built + NameSet(Preorder(s))
    decreases |m.Keys - visiting|, 1
  {
    NotItsOwnAncestor(m, name, visiting, k);
    if name in visiting {
      assert false;
    }
    OneMoreAbove(m, visiting, name, k);
    OneFewerLeft(m, visiting, name);
    var cs;
    cs, built' := BuildForest(m, kids, name, visiting + {name}, built, k + 1);
    NodeMade(m, name, cs);
    s := SpecOf(m[name], cs);
    built' := built' + {name};
  }

  lemma OneFewerLeft(m: ByName, visiting: set<string>, name: string)
    requires name in m && name !in visiting
    ensures |m.Keys - (visiting + {name})| < |m.Keys - visiting|
  {
    assert m.Keys - (visiting + {name}) == m.Keys - visiting - {name};
  }

  lemma NodeMade(m: ByName, name: string, cs: seq<Spec>)
    requires Keyed(m) && name in m && ForestFor(m, name, cs)
    ensures TreeFor(m, SpecOf(m[name], cs)) && SpecOf(m[name], cs).name == name
    ensures NameSet(Preorder(SpecOf(m[name], cs))) == NameSet(PreorderAll(cs)) + {name}
  {}

  /** Builds the subtrees of the names whose parent is `p`, in name order. */
  method BuildForest(m: ByName, kids: map<string, seq<string>>, p: string, visiting: set<string>, built: set<string>,
                     ghost k: nat)
    returns (cs: seq<Spec>, built': set<string>)
    requires Keyed(m) && KidsOf(m, kids) && RootDepth(m, p, k) && visiting <= m.Keys
    requires Above(m, visiting, k)
    ensures ForestFor(m, p, cs)
    ensures built' == built + NameSet(PreorderAll(cs))
    decreases |m.Keys - visiting|, 3
  {
    var names := SortNames(if p in kids then kids[p] else []);
    ChildNames(m, kids, p, names);
    cs, built' := BuildEach(m, kids, p, names, visiting, built, k);
    MadeIsForest(m, p, names, cs);
  }

  /** One tree per name, in order. */
  ghost predicate MadeFor(m: ByName, names: seq<string>, cs: seq<Spec>) {
    |cs| <= |names| && forall j :: 0 <= j < |cs| ==> TreeFor(m, cs[j]) && cs[j].name == names[j]
  }

  lemma MadeStep(m: ByName, names: seq<string>, cs: seq<Spec>, s: Spec)
    requires MadeFor(m, names, cs) && |cs| < |names| && TreeFor(m, s) && s.name == names[|cs|]
    ensures MadeFor(m, names, cs + [s])
  {}

  lemma MadeIsForest(m: ByName, p: string, names: seq<string>, cs: seq<Spec>)
    requires MadeFor(m, names, cs) && |cs| == |names| && StrictlySorted(names)
    requires forall x :: x in names <==> x in ChildSet(m, p)
    ensures ForestFor(m, p, cs)
  {
    assert NamesIn(cs) == names;
  }

  method BuildEach(m: ByName, kids: map<string, seq<string>>, p: string, names: seq<string>, visiting: set<string>,
                   built: set<string>, ghost k: nat)
    returns (cs: seq<Spec>, built': set<string>)
    requires Keyed(m) && KidsOf(m, kids) && RootDepth(m, p, k) && visiting <= m.Keys && Above(m, visiting, k)
    requires forall i :: 0 <= i < |names| ==> names[i] in ChildSet(m, p)
    ensures MadeFor(m, names, cs) && |cs| == |names|
    ensures built' == built + NameSet(PreorderAll(cs))
    decreases |m.Keys - visiting|, 2
  {
    cs, built' := [], built;
    for i := 0 to |names|
      invariant |cs| == i && MadeFor(m, names, cs)
      invariant built' == built + NameSet(PreorderAll(cs))
    {
      assert names[i] in ChildSet(m, p);
      var s;
      s, built' := BuildNode(m, kids, names[i], visiting, built', k);
      PreorderSnoc(cs, s);
      MadeStep(m, names, cs, s);
      cs := cs + [s];
    }
  }

  lemma ChildNames(m: ByName, kids: map<string, seq<string>>, p: string, names: seq<string>)
    requires KidsOf(m, kids) && forall x :: x in names <==> p in kids && x in kids[p]
    ensures forall x :: x in names <==> x in ChildSet(m, p)
    ensures forall i :: 0 <= i < |names| ==> names[i] in ChildSet(m, p)
  {
    forall i | 0 <= i < |names| ensures names[i] in ChildSet(m, p) {
      assert names[i] in names;
    }
  }

  function NameSet(names: seq<string>): set<string> {
    set x | x in names
  }

  lemma PreorderSnoc(cs: seq<Spec>, s: Spec)
    ensures PreorderAll(cs + [s]) == PreorderAll(cs) + Preorder(s)
    ensures NameSet(PreorderAll(cs + [s])) == NameSet(PreorderAll(cs)) + NameSet(Preorder(s))
  {
    assert (cs + [s])[..|cs|] == cs;
  }

  /** What the assembled namespace must look like. */
  ghost predicate Assembled(ns: string, m: ByName, envelope: Resource, s: Spec) {
    && s == Spec(ns, map[], envelope, [], false, false, s.children)
    && ForestFor(m, "", s.children)
    && NoRepeats(PreorderAll(s.children))
    && forall x :: x in PreorderAll(s.children) <==> x in m
  }

  /** Succeeds exactly when names are distinct, every named parent exists and every parent
      chain reaches the namespace; then each queue is there once, under its own parent. */
  method BuildNamespace(ns: string, crs: seq<CR>, envelope: Resource) returns (r: Outcome, ghost m: ByName)
    requires forall i :: 0 <= i < |crs| ==> crs[i].name != ""
    ensures DistinctCRs(crs) ==> Indexed(crs, |crs|, m)
    ensures r.Built? <==> DistinctCRs(crs) && ParentsExist(crs, m) && forall x :: x in m ==> Reaches(m, x)
    ensures r.Built? ==> Assembled(ns, m, envelope, r.spec)
    ensures r.Duplicate? <==> !DistinctCRs(crs)
    ensures r.Duplicate? ==> FirstDuplicate(crs, r.name)
    ensures r.UnknownParent? <==> DistinctCRs(crs) && !ParentsExist(crs, m)
    ensures r.UnknownParent? ==> FirstOrphan(crs, m, r.name, r.parent)
    ensures r.Unreachable? ==> r.count > 0 && Unreached(m, r.count)
  {
    var err, index := IndexByName(crs);
    m := index;
    if err.Some? {
      return err.value, m;
    }
    var kids;
    err, kids := ListChildren(crs, index);
    if err.Some? {
      return err.value, m;
    }
    ListedIsKidsOf(crs, index, kids);
    var cs, built := BuildForest(index, kids, "", {}, {}, 0);
    ForestExact(index, cs);
    BuiltAll(index, cs, built);
    if |built| != |index| {
      return Unreachable(|index| - |built|), m;
    }
    return Built(Spec(ns, map[], envelope, [], false, false, cs)), m;
  }

  /** `count` queues have a parent chain that never reaches the namespace. */
  ghost predicate Unreached(m: ByName, count: int) {
    exists lost: set<string> :: |lost| == count && forall x :: x in lost <==> x in m && !Reaches(m, x)
  }

  /** The final count finds every queue that was not reached. */
  lemma BuiltAll(m: ByName, cs: seq<Spec>, built: set<string>)
    requires built == NameSet(PreorderAll(cs)) && forall x :: x in PreorderAll(cs) <==> Reaches(m, x)
    ensures |built| <= |m| && (|built| == |m| <==> forall x :: x in m ==> Reaches(m, x))
    ensures |built| == |m| ==> forall x :: x in PreorderAll(cs) <==> x in m
    ensures Unreached(m, |m| - |built|)
  {
    forall x | x in built ensures x in m {
      assert Reaches(m, x);
    }
    var lost := m.Keys - built;
    assert forall x :: x in lost <==> x in m && !Reaches(m, x);
    SplitSize(m.Keys, built);
    assert |lost| == 0 <==> lost == {};
  }

  lemma SplitSize(all: set<string>, part: set<string>)
    requires part <= all
    ensures |all - part| == |all| - |part|
  {
    assert all == part + (all - part);
  }
}
