/** Routing pods to leaves: what the placement checks guarantee and what Resolve returns
    (pkg/queue/manager.go, pkg/queue/placement/placement.go). */
module Placement {
  import opened Paths
  import opened QueueTree

  /** The queue takes part in routing. */
  predicate Marked(n: Node) {
    n.serviceAccounts != [] || n.defaultLeaf
  }

  /** The namespace default queue, by marker or by the "*" alias. */
  predicate IsDefault(n: Node) {
    n.defaultLeaf || "*" in n.serviceAccounts
  }

  /** `sa` is routed to the queue by name. */
  predicate Routes(n: Node, sa: string) {
    sa in n.serviceAccounts && sa != "*"
  }

  /** Both queues are the default, by marker or alias, or both list one account. */
  predicate Clash(a: Node, b: Node) {
    (IsDefault(a) && IsDefault(b)) || (exists sa :: sa in a.serviceAccounts && sa != "*" && sa in b.serviceAccounts)
  }

  /** Marked queues are leaves with a namespace. */
  ghost predicate MarkedAreLeaves(t: Shape, done: set<string>) {
    forall p :: p in done && p in t && Marked(t[p]) ==> t[p].leaf && NamespaceOf(p) != ""
  }

  /** Within a namespace, no two queues share a service account or are both the default. */
  ghost predicate NoClash(t: Shape, done: set<string>) {
    forall p, q :: p in done && q in done && p in t && q in t && p != q && NamespaceOf(p) == NamespaceOf(q) ==>
      !Clash(t[p], t[q])
  }

  ghost predicate ValidPlacement(t: Shape) {
    MarkedAreLeaves(t, t.Keys) && NoClash(t, t.Keys)
  }

  /** What the checks let through, in the queues' fields: a queue with a service account or the
      default marker is a leaf of some namespace; two queues of one namespace list no account in
      common; and at most one of them is marked as the default or lists "*". */
  lemma PlacementExact(t: Shape)
    ensures ValidPlacement(t) <==>
      && (forall p :: p in t && (t[p].serviceAccounts != [] || t[p].defaultLeaf) ==> t[p].leaf && NamespaceOf(p) != "")
      && (forall p, q :: p in t && q in t && p != q && NamespaceOf(p) == NamespaceOf(q) ==>
            && (forall sa :: sa in t[p].serviceAccounts ==> sa !in t[q].serviceAccounts)
            && (t[p].defaultLeaf || "*" in t[p].serviceAccounts ==>
                  !t[q].defaultLeaf && "*" !in t[q].serviceAccounts))
  {
  }

  /** A leaf of the namespace that lists the service account. */
  ghost predicate Exact(t: Shape, ns: string, sa: string, p: string) {
    IsLeaf(t, p) && NamespaceOf(p) == ns && sa in t[p].serviceAccounts
  }

  ghost predicate Fallback(t: Shape, ns: string, p: string) {
    IsLeaf(t, p) && NamespaceOf(p) == ns && (t[p].defaultLeaf || "*" in t[p].serviceAccounts)
  }

  /** What resolving an identity may return: an exact match, else a default, else nothing. */
  ghost predicate RouteIs(t: Shape, ns: string, sa: string, r: Option<string>) {
    if ROOT + "." + ns !in t then r == None
    else
      match r
      case Some(p) => Exact(t, ns, sa, p) || (Fallback(t, ns, p) && forall q :: !Exact(t, ns, sa, q))
      case None => (forall q :: !Exact(t, ns, sa, q)) && (forall q :: !Fallback(t, ns, q))
  }

  /** In a tree whose placement was checked there is only one answer. */
  lemma RouteUnique(t: Shape, ns: string, sa: string, r: Option<string>, r': Option<string>)
    requires ValidPlacement(t) && RouteIs(t, ns, sa, r) && RouteIs(t, ns, sa, r')
    ensures r == r'
  {
    if r.Some? && r'.Some? {
      assert r.value == r'.value || !Clash(t[r.value], t[r'.value]);
    }
  }

  /** The leaf an identity resolves to. */
  ghost function Route(t: Shape, ns: string, sa: string): (r: Option<string>)
    ensures RouteIs(t, ns, sa, r)
  {
    if ROOT + "." + ns !in t then None
    else if exists p :: Exact(t, ns, sa, p) then
      var p :| Exact(t, ns, sa, p);
      Some(p)
    else if exists p :: Fallback(t, ns, p) then
      var p :| Fallback(t, ns, p);
      Some(p)
    else None
  }

  /** A resolved leaf is a leaf of the identity's own namespace. */
  lemma RouteInNamespace(t: Shape, ns: string, sa: string)
    ensures Route(t, ns, sa).Some? ==> IsLeaf(t, Route(t, ns, sa).value) && NamespaceOf(Route(t, ns, sa).value) == ns
  {}

  /** An identity resolves to the leaf of its namespace that lists its account; failing that, to the
      namespace's default leaf; and to nothing without either, or without the namespace queue. */
  lemma RouteLaw(t: Shape, ns: string, sa: string, p: string)
    requires ValidPlacement(t)
    ensures Route(t, ns, sa) == Some(p) <==>
      && ROOT + "." + ns in t && p in t && t[p].leaf && NamespaceOf(p) == ns
      && (|| sa in t[p].serviceAccounts
          || ((t[p].defaultLeaf || "*" in t[p].serviceAccounts) &&
              forall q :: q in t && t[q].leaf && NamespaceOf(q) == ns ==> sa !in t[q].serviceAccounts))
  {
    assert (forall q :: q in t && t[q].leaf && NamespaceOf(q) == ns ==> sa !in t[q].serviceAccounts)
      <==> forall q :: !Exact(t, ns, sa, q) by {
      assert forall q :: Exact(t, ns, sa, q) <==>
        q in t && t[q].leaf && NamespaceOf(q) == ns && sa in t[q].serviceAccounts;
    }
    if RouteIs(t, ns, sa, Some(p)) {
      RouteUnique(t, ns, sa, Some(p), Route(t, ns, sa));
    }
  }

  /** One walk over the leaves, in any order: the first exact match returns at once, and a
      default met on the way is kept in case there is none. */
  method Resolve(t: Shape, leaves: seq<string>, ns: string, sa: string) returns (r: Option<string>)
    requires forall p :: p in leaves <==> IsLeaf(t, p)
    ensures RouteIs(t, ns, sa, r)
    ensures ValidPlacement(t) ==> r == Route(t, ns, sa)
  {
    r := None;
    if ROOT + "." + ns in t {
      for i := 0 to |leaves|
        invariant forall j :: 0 <= j < i ==> !Exact(t, ns, sa, leaves[j])
        invariant r.Some? ==> Fallback(t, ns, r.value)
        invariant r == None ==> forall j :: 0 <= j < i ==> !Fallback(t, ns, leaves[j])
      {
        var leaf := leaves[i];
        assert IsLeaf(t, leaf);
        if NamespaceOf(leaf) == ns {
          if sa in t[leaf].serviceAccounts {
            r := Some(leaf);
            break;
          }
          if IsDefault(t[leaf]) {
            r := Some(leaf);
          }
        }
      }
    }
    if ValidPlacement(t) {
      RouteUnique(t, ns, sa, r, Route(t, ns, sa));
    }
  }

  // ---------------------------------------------------------------- the checks

  /** What the two maps of the check hold after the queues of `done`. */
  ghost predicate DefaultsFound(t: Shape, done: set<string>, defaults: map<string, string>)
    requires done <= t.Keys
  {
    && (forall p :: p in done && IsDefault(t[p]) ==> NamespaceOf(p) in defaults)
    && forall ns :: ns in defaults ==>
         defaults[ns] in done && IsDefault(t[defaults[ns]]) && NamespaceOf(defaults[ns]) == ns
  }

  ghost predicate AccountsFound(t: Shape, done: set<string>, accounts: map<(string, string), string>)
    requires done <= t.Keys
  {
    && (forall p, sa :: p in done && Routes(t[p], sa) ==> (NamespaceOf(p), sa) in accounts)
    && forall k :: k in accounts ==>
         accounts[k] in done && Routes(t[accounts[k]], k.1) && NamespaceOf(accounts[k]) == k.0
  }

  /** Walks the queues in any order and accepts exactly the valid placements. */
  method ValidatePlacement(t: Shape) returns (ok: bool)
    ensures ok <==> ValidPlacement(t)
  {
    var accounts: map<(string, string), string>, defaults: map<string, string> := map[], map[];
    var todo := t.Keys;
    ghost var done: set<string> := {};
    while todo != {}
      invariant done !! todo && done + todo == t.Keys
      invariant MarkedAreLeaves(t, done) && NoClash(t, done)
      invariant DefaultsFound(t, done, defaults) && AccountsFound(t, done, accounts)
      decreases todo
    {
      var p :| p in todo;
      if Marked(t[p]) {
        var ns := NamespaceOf(p);
        if !t[p].leaf || ns == "" {
          return false;
        }
        if IsDefault(t[p]) && ns in defaults {
          assert Clash(t[p], t[defaults[ns]]);
          return false;
        }
        var clash;
        clash, accounts := AddAccounts(t, p, done, accounts);
        if clash {
          return false;
        }
        NoClashStep(t, done, p, defaults);
        if IsDefault(t[p]) {
          defaults := defaults[ns := p];
        }
      } else {
        NoClashStep(t, done, p, defaults);
      }
      done, todo := done + {p}, todo - {p};
    }
    assert done == t.Keys;
    return true;
  }

  lemma NoClashStep(t: Shape, done: set<string>, p: string, defaults: map<string, string>)
    requires done <= t.Keys && p in t && p !in done && NoClash(t, done) && DefaultsFound(t, done, defaults)
    requires IsDefault(t[p]) ==> NamespaceOf(p) !in defaults
    requires forall q, sa :: q in done && NamespaceOf(q) == NamespaceOf(p) && Routes(t[q], sa) ==> !Routes(t[p], sa)
    ensures NoClash(t, done + {p})
  {
    forall q | q in done && NamespaceOf(q) == NamespaceOf(p) ensures !Clash(t[p], t[q]) && !Clash(t[q], t[p]) {
      forall sa | sa in t[p].serviceAccounts && sa != "*" ensures sa !in t[q].serviceAccounts {
        assert Routes(t[p], sa);
      }
    }
  }

  /** The inner walk over one queue's service accounts; listing one twice is harmless. */
  method AddAccounts(t: Shape, p: string, ghost done: set<string>, before: map<(string, string), string>)
    returns (clash: bool, accounts: map<(string, string), string>)
    requires done <= t.Keys && p in t && p !in done && AccountsFound(t, done, before)
    ensures clash ==> exists q :: q in done && NamespaceOf(q) == NamespaceOf(p) && Clash(t[p], t[q])
    ensures !clash ==> AccountsFound(t, done + {p}, accounts)
    ensures !clash ==> forall q, sa :: q in done && NamespaceOf(q) == NamespaceOf(p) && Routes(t[q], sa) ==>
      !Routes(t[p], sa)
  {
    accounts := before;
    var ns, sas := NamespaceOf(p), t[p].serviceAccounts;
    for i := 0 to |sas|
      invariant forall k :: k in before ==> k in accounts && accounts[k] == before[k]
      invariant forall k :: k in accounts && k !in before ==> accounts[k] == p && k.0 == ns && Routes(t[p], k.1)
      invariant forall j :: 0 <= j < i && sas[j] != "*" ==> (ns, sas[j]) in accounts && (ns, sas[j]) !in before
    {
      if sas[i] != "*" {
        if (ns, sas[i]) in accounts && accounts[(ns, sas[i])] != p {
          assert (ns, sas[i]) in before && Clash(t[p], t[before[(ns, sas[i])]]);
          return true, accounts;
        }
        accounts := accounts[(ns, sas[i]) := p];
      }
    }
    clash := false;
    forall q, sa | q in done && NamespaceOf(q) == ns && Routes(t[q], sa) ensures !Routes(t[p], sa) {
      assert (ns, sa) in before;
    }
  }
}
