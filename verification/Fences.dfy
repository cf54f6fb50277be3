/** Preemption fences: the dotted-prefix test is tree descent, and a fence confines
    a preemptor to its own namespace (pkg/queue/queue.go, pkg/queue/manager.go). */
module Fences {
  import opened Paths
  import opened QueueTree

  /** A direct child of the root: always a fence. */
  predicate IsTopLevel(t: Shape, p: string) {
    p in t && t[p].parent.Some? && t[p].parent.value in t && t[t[p].parent.value].parent == None
  }

  predicate IsFence(t: Shape, p: string) {
    p in t && (t[p].fence || IsTopLevel(t, p))
  }

  /** The nearest fence at or above `p`, or the top of its chain when there is none; "" for a
      path that is not in the tree. */
  function FenceBoundary(t: Shape, p: string): string
    decreases |p|
  {
    if p !in t then ""
    else if IsFence(t, p) || t[p].parent == None || |t[p].parent.value| >= |p| then p
    else FenceBoundary(t, t[p].parent.value)
  }

  /** A preemptor at `asker` may consider victims at `victim`. */
  predicate WithinFence(t: Shape, asker: string, victim: string) {
    asker in t && PathWithinSubtree(victim, FenceBoundary(t, asker))
  }

  /** In a well-formed tree the dotted-prefix test holds exactly for descendants-or-self. */
  lemma {:induction false} PrefixIsDescent(t: Shape, p: string, q: string)
    requires WellFormed(t) && p in t && q in t
    ensures PathWithinSubtree(p, q) <==> OnPath(t, p, q)
    decreases |p|
  {
    assert WellPlaced(t, p);
    if p != q {
      match t[p].parent
      case None =>
        DottedPrefix(p, q);
      case Some(pp) =>
        PrefixIsDescent(t, pp, q);
        PrefixStep(pp, t[p].name, q);
    }
  }

  /** Only a string with a dot in it has a dotted prefix. */
  lemma DottedPrefix(p: string, q: string)
    ensures q + "." <= p ==> '.' in p
  {
    if q + "." <= p {
      assert p[|q|] == '.';
    }
  }

  /** One step of the induction: a dotted prefix of `pp.name` other than itself is a
      dotted prefix of `pp`, because `name` has no dot. */
  lemma PrefixStep(pp: string, name: string, q: string)
    ensures q + "." <= pp + "." + name && '.' !in name ==> PathWithinSubtree(pp, q)
    ensures PathWithinSubtree(pp, q) ==> q + "." <= pp + "." + name
  {
    var p := pp + "." + name;
    if q + "." <= p {
      assert p[|q|] == '.';
      if |q| > |pp| {
        assert name[|q| - |pp| - 1] == '.';
      } else if |q| == |pp| {
        assert p[..|q|] == q && p[..|pp|] == pp;
      } else {
        assert p[..|q| + 1] == q + "." && pp[..|q| + 1] == p[..|q| + 1];
      }
    }
    if pp == q {
      assert p[..|q| + 1] == q + ".";
    } else if q + "." <= pp {
      assert p[..|q| + 1] == pp[..|q| + 1];
    }
  }

  /** The boundary lies on the asker's path, is a fence unless the path has none, and is
      the nearest one: every fence on the path is at or above it. */
  lemma {:induction false} BoundaryNearest(t: Shape, p: string)
    requires WellFormed(t) && p in t
    ensures OnPath(t, p, FenceBoundary(t, p)) && FenceBoundary(t, p) in t
    ensures forall q :: OnPath(t, p, q) && IsFence(t, q) ==>
      IsFence(t, FenceBoundary(t, p)) && OnPath(t, FenceBoundary(t, p), q)
    ensures p != ROOT ==> IsFence(t, FenceBoundary(t, p)) && FenceBoundary(t, p) != ROOT
    ensures p == ROOT ==> FenceBoundary(t, p) == ROOT
    decreases |p|
  {
    assert WellPlaced(t, p);
    if t[p].parent.Some? {
      var pp := t[p].parent.value;
      BoundaryNearest(t, pp);
      assert WellPlaced(t, pp);
      assert WellPlaced(t, ROOT);
      RootHasNoParent(t);
    } else {
      assert FenceBoundary(t, p) == p;
    }
  }

  /** A queue marked as a fence, or a namespace queue. */
  predicate Fenced(n: Node) {
    n.fence || n.parent == Some(ROOT)
  }

  /** Said of the queues themselves: below the root the boundary is the one queue at or above the
      asker that is marked as a fence, or hangs off the root, with no such queue beneath it. */
  lemma BoundaryLaw(t: Shape, p: string, b: string)
    requires WellFormed(t) && p in t && p != ROOT
    ensures b == FenceBoundary(t, p) <==>
      && b in t && OnPath(t, p, b) && Fenced(t[b])
      && forall q :: q in t && OnPath(t, p, q) && Fenced(t[q]) ==> OnPath(t, b, q)
  {
    BoundaryNearest(t, p);
    RootHasNoParent(t);
    forall q | q in t ensures IsFence(t, q) <==> Fenced(t[q]) {
      assert WellPlaced(t, q);
      if t[q].parent.Some? {
        assert WellPlaced(t, t[q].parent.value);
      }
    }
    if b in t && OnPath(t, b, FenceBoundary(t, p)) && OnPath(t, FenceBoundary(t, p), b) {
      PrefixIsDescent(t, b, FenceBoundary(t, p));
      PrefixIsDescent(t, FenceBoundary(t, p), b);
    }
  }

  lemma RootHasNoParent(t: Shape)
    requires WellFormed(t)
    ensures t[ROOT].parent == None
  {
    assert WellPlaced(t, ROOT);
    if t[ROOT].parent.Some? {
      DottedPrefix(ROOT, t[ROOT].parent.value);
    }
  }

  /** So WithinFence is membership in the subtree of the nearest enclosing fence. */
  lemma WithinFenceIsSubtree(t: Shape, asker: string, victim: string)
    requires WellFormed(t) && asker in t && victim in t
    ensures WithinFence(t, asker, victim) <==> OnPath(t, victim, FenceBoundary(t, asker))
  {
    BoundaryNearest(t, asker);
    PrefixIsDescent(t, victim, FenceBoundary(t, asker));
  }

  /** Every queue below the root lies in exactly one top-level subtree. */
  lemma {:induction false} TopLevelOf(t: Shape, p: string) returns (ns: string)
    requires WellFormed(t) && p in t && p != ROOT
    ensures ValidName(ns) && PathWithinSubtree(p, ROOT + "." + ns) && NamespaceOf(p) == ns
    decreases |p|
  {
    assert WellPlaced(t, p);
    var pp := t[p].parent.value;
    if pp == ROOT {
      ns := t[p].name;
    } else {
      ns := TopLevelOf(t, pp);
      PrefixStep(pp, t[p].name, ROOT + "." + ns);
    }
    UnderNamespace(p, ns);
  }

  lemma PrefixTrans(a: string, b: string, c: string)
    requires PathWithinSubtree(a, b) && PathWithinSubtree(b, c)
    ensures PathWithinSubtree(a, c)
  {
    if a != b && b != c {
      assert a[..|c| + 1] == b[..|c| + 1] == c + ".";
    }
  }

  /** A preemptor below the root never reaches another namespace, whatever the path. */
  lemma FenceConfinesNamespace(t: Shape, asker: string, victim: string)
    requires WellFormed(t) && asker in t && asker != ROOT && WithinFence(t, asker, victim)
    ensures NamespaceOf(victim) == NamespaceOf(asker) != ""
  {
    var b := FenceBoundary(t, asker);
    BoundaryNearest(t, asker);
    var ns := TopLevelOf(t, b);
    PrefixTrans(victim, b, ROOT + "." + ns);
    UnderNamespace(victim, ns);
    PrefixIsDescent(t, asker, b);
    PrefixTrans(asker, b, ROOT + "." + ns);
    UnderNamespace(asker, ns);
  }
}
