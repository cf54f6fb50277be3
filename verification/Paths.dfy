/** Dotted queue paths and the string order (pkg/queue/manager.go). */
module Paths {

  const ROOT := "root"

  /** strings.Split(s, "."). */
  function Split(s: string): (parts: seq<string>)
    ensures |parts| >= 1
    decreases |s|
  {
    if s == "" then [""]
    else
      var rest := Split(s[1..]);
      if s[0] == '.' then [""] + rest else [[s[0]] + rest[0]] + rest[1..]
  }

  /** The namespace segment of a path "root.<ns>...", or "" when there is none. */
  function NamespaceOf(path: string): string {
    var parts := Split(path);
    if |parts| < 2 || parts[0] != ROOT then "" else parts[1]
  }

  /** The dotted-prefix test used by every fence check. */
  predicate PathWithinSubtree(path: string, subtreeRoot: string) {
    path == subtreeRoot || subtreeRoot + "." <= path
  }

  /** A queue name `build` accepts. */
  predicate ValidName(name: string) {
    name != "" && '.' !in name
  }

  /** Nothing with a namespace lies at or below the empty path. */
  lemma NothingBelowEmpty(p: string)
    requires NamespaceOf(p) != ""
    ensures !PathWithinSubtree(p, "")
  {}

  lemma {:induction false} SplitPlain(s: string)
    requires '.' !in s
    ensures Split(s) == [s]
    decreases |s|
  {
    if s != "" {
      SplitPlain(s[1..]);
      assert [s[0]] + s[1..] == s;
    }
  }

  /** Splitting at the first dot. */
  lemma {:induction false} SplitAtDot(a: string, b: string)
    requires '.' !in a
    ensures Split(a + "." + b) == [a] + Split(b)
    decreases |a|
  {
    var s := a + "." + b;
    if a == "" {
      assert s[1..] == b;
    } else {
      SplitAtDot(a[1..], b);
      assert s[1..] == a[1..] + "." + b;
      assert [a[0]] + a[1..] == a;
    }
  }

  /** The byte order Go's `<` uses on strings. */
  predicate StringLess(a: string, b: string)
    decreases |a|
  {
    b != "" && (a == "" || a[0] < b[0] || (a[0] == b[0] && StringLess(a[1..], b[1..])))
  }

  lemma {:induction false} StringLessTrans(a: string, b: string, c: string)
    requires StringLess(a, b) && StringLess(b, c)
    ensures StringLess(a, c)
    decreases |a|
  {
    if a != "" && a[0] == b[0] && b[0] == c[0] {
      StringLessTrans(a[1..], b[1..], c[1..]);
    }
  }

  lemma {:induction false} StringLessTrichotomy(a: string, b: string)
    ensures a == b <==> !StringLess(a, b) && !StringLess(b, a)
    ensures !(StringLess(a, b) && StringLess(b, a))
    decreases |a|
  {
    if a != "" && b != "" && a[0] == b[0] {
      StringLessTrichotomy(a[1..], b[1..]);
      assert a == [a[0]] + a[1..] && b == [b[0]] + b[1..];
    }
  }

  /** The byte order is a strict total order, so it is transitive where it does not hold. */
  lemma StringOrder(a: string, b: string, c: string)
    ensures !StringLess(a, a)
    ensures StringLess(a, b) ==> !StringLess(b, a)
    ensures a != b ==> StringLess(a, b) || StringLess(b, a)
    ensures StringLess(a, b) && StringLess(b, c) ==> StringLess(a, c)
    ensures !StringLess(a, b) && !StringLess(b, c) ==> !StringLess(a, c)
  {
    StringLessTrichotomy(a, a);
    StringLessTrichotomy(a, b);
    StringLessTrichotomy(b, c);
    if StringLess(a, b) && StringLess(b, c) {
      StringLessTrans(a, b, c);
    }
    if StringLess(a, c) && StringLess(c, b) {
      StringLessTrans(a, c, b);
    }
  }

  lemma {:induction false} StringLessExtend(a: string, more: string)
    requires more != ""
    ensures StringLess(a, a + more)
    decreases |a|
  {
    if a != "" {
      StringLessExtend(a[1..], more);
      assert (a + more)[1..] == a[1..] + more;
    }
  }

  /** The strings agree up to `k`, where `a` ends or has the smaller character. */
  predicate DiffersAt(a: string, b: string, k: nat) {
    k <= |a| && k < |b| && a[..k] == b[..k] && (k == |a| || a[k] < b[k])
  }

  /** The order is the dictionary order: the first difference decides, and a prefix comes first. */
  lemma {:induction false} StringLessExact(a: string, b: string)
    ensures StringLess(a, b) <==> exists k: nat :: DiffersAt(a, b, k)
    decreases |a|
  {
    if a == "" {
      assert b != "" ==> DiffersAt(a, b, 0);
    } else if b != "" && a[0] < b[0] {
      assert DiffersAt(a, b, 0);
    } else if b != "" && a[0] == b[0] {
      StringLessExact(a[1..], b[1..]);
      if k: nat :| DiffersAt(a[1..], b[1..], k) {
        FirstAgrees(a, b, k);
      }
      if k: nat :| DiffersAt(a, b, k) {
        assert k > 0;
        RestAgrees(a, b, k);
      }
    } else {
      forall k: nat ensures !DiffersAt(a, b, k) {
        SameStart(a, b, k);
      }
    }
  }

  lemma SameStart(a: string, b: string, k: nat)
    ensures k > 0 && DiffersAt(a, b, k) ==> a != "" && b != "" && a[0] == b[0]
  {
    if k > 0 && DiffersAt(a, b, k) {
      assert a[0] == a[..k][0] && b[0] == b[..k][0];
    }
  }

  lemma FirstAgrees(a: string, b: string, k: nat)
    requires a != "" && b != "" && a[0] == b[0] && DiffersAt(a[1..], b[1..], k)
    ensures DiffersAt(a, b, k + 1)
  {
    assert a[..k + 1] == [a[0]] + a[1..][..k] && b[..k + 1] == [b[0]] + b[1..][..k];
  }

  lemma RestAgrees(a: string, b: string, k: nat)
    requires a != "" && k > 0 && DiffersAt(a, b, k)
    ensures DiffersAt(a[1..], b[1..], k - 1)
  {
    assert a[1..][..k - 1] == a[..k][1..] && b[1..][..k - 1] == b[..k][1..];
  }

  /** A common first part plays no role. */
  lemma {:induction false} StringLessAfter(front: string, a: string, b: string)
    ensures StringLess(front + a, front + b) <==> StringLess(a, b)
    decreases |front|
  {
    if front == "" {
      assert front + a == a && front + b == b;
    } else {
      StringLessAfter(front[1..], a, b);
      assert (front + a)[1..] == front[1..] + a && (front + b)[1..] == front[1..] + b;
    }
  }

  /** The first part of a split is what stands before the first dot. */
  lemma {:induction false} SplitHead(s: string)
    ensures var head := Split(s)[0];
      '.' !in head && if |Split(s)| == 1 then s == head else head + "." <= s && Split(s)[1..] == Split(s[|head| + 1..])
    decreases |s|
  {
    if s != "" {
      SplitHead(s[1..]);
      var rest := Split(s[1..])[0];
      if s[0] == '.' {
        assert s[..1] == ".";
      } else {
        assert s == [s[0]] + s[1..];
        if |Split(s[1..])| > 1 {
          assert s[1..][..|rest| + 1] == rest + ".";
          assert s[..|rest| + 2] == [s[0]] + rest + ".";
          assert s[|rest| + 2..] == s[1..][|rest| + 1..];
        }
      }
    }
  }

  /** A path belongs to a namespace exactly when it is "root.<ns>" or lies below it. */
  lemma NamespaceExact(path: string, ns: string)
    requires ValidName(ns)
    ensures NamespaceOf(path) == ns <==> PathWithinSubtree(path, ROOT + "." + ns)
  {
    var top := ROOT + "." + ns;
    if NamespaceOf(path) == ns {
      SplitHead(path);
      var rest := path[|ROOT| + 1..];
      SplitHead(rest);
      assert path == ROOT + "." + rest;
      if rest != ns {
        assert path[..|top| + 1] == top + ".";
      }
    }
    if PathWithinSubtree(path, top) {
      UnderNamespace(path, ns);
    }
  }

  lemma UnderNamespace(path: string, ns: string)
    requires ValidName(ns) && PathWithinSubtree(path, ROOT + "." + ns)
    ensures NamespaceOf(path) == ns
  {
    if path == ROOT + "." + ns {
      SplitAtDot(ROOT, ns);
      SplitPlain(ns);
    } else {
      var top := ROOT + "." + ns + ".";
      var rest := path[|top|..];
      assert path == ROOT + "." + (ns + "." + rest);
      SplitAtDot(ROOT, ns + "." + rest);
      SplitAtDot(ns, rest);
    }
  }
}
