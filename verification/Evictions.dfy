/** What evicting pods does to the tree: every victim's deletion is one ObserveDeleted
    step, and each queue on its path gives back exactly its request. */
module Evictions {
  import opened Vectors
  import opened Sums
  import opened QueueTree
  import opened Ledger
  import opened Balance
  import opened Victims
  import opened Donors
  import Sorting

  function UIDs(victims: seq<Victim>): (uids: seq<string>)
    ensures |uids| == |victims| && forall i :: 0 <= i < |victims| ==> uids[i] == victims[i].uid
  {
    seq(|victims|, i requires 0 <= i < |victims| => victims[i].uid)
  }

  /** What one booking counts for at `q`, in whichever state it is. */
  function Weight(t: Shape, rec: Booking, q: string, d: string): int {
    if IsLeaf(t, rec.leaf) && OnPath(t, rec.leaf, q) then Get(rec.req, d) else 0
  }

  /** What the bookings of `uids` count for at `q`. */
  ghost function Evicted(t: Shape, book: map<string, Booking>, uids: set<string>, q: string, d: string): int {
    Sum(map u | u in book && u in uids :: Weight(t, book[u], q, d))
  }

  lemma {:induction false} DeletePodsTree(s: State, uids: seq<string>)
    requires s.tree.Some?
    ensures var s' := DeletePods(s, uids);
      s'.tree.Some? && s'.tree.value.shape == s.tree.value.shape && s'.tree.value.gangs == s.tree.value.gangs
    decreases |uids|
  {
    if uids != [] {
      DeletePodsTree(s, uids[..|uids| - 1]);
    }
  }

  /** Both pod sums together, as one sum of weights. */
  lemma PodSumsAreWeights(t: Shape, book: map<string, Booking>, q: string, d: string)
    ensures PodSum(t, book, Committed, q, d) + PodSum(t, book, Reserved, q, d) == Evicted(t, book, book.Keys, q, d)
  {
    SumSplit(map u | u in book :: PodShare(t, book[u], Committed, q, d),
             map u | u in book :: PodShare(t, book[u], Reserved, q, d),
             map u | u in book && u in book.Keys :: Weight(t, book[u], q, d));
  }

  lemma {:induction false} SumSplit(a: map<string, int>, b: map<string, int>, c: map<string, int>)
    requires a.Keys == b.Keys == c.Keys && forall k :: k in c ==> c[k] == a[k] + b[k]
    ensures Sum(a) + Sum(b) == Sum(c)
    decreases |c|
  {
    if c == map[] {
      assert a == map[] && b == map[];
    } else {
      var k :| k in c;
      SumRemove(a, k);
      SumRemove(b, k);
      SumRemove(c, k);
      SumSplit(a - {k}, b - {k}, c - {k});
    }
  }

  /** Splitting a sum by a set of keys. */
  lemma {:induction false} SumPartition(m: map<string, int>, s: set<string>)
    ensures Sum(m) == Sum(map k | k in m && k in s :: m[k]) + Sum(m - s)
    decreases |m|
  {
    var inside := map k | k in m && k in s :: m[k];
    if m == map[] {
      assert inside == map[] && m - s == map[];
    } else {
      var x :| x in m;
      SumRemove(m, x);
      SumPartition(m - {x}, s);
      var rest := map k | k in m - {x} && k in s :: (m - {x})[k];
      if x in s {
        SumRemove(inside, x);
        assert inside - {x} == rest;
        assert m - {x} - s == m - s;
      } else {
        assert inside == rest;
        SumRemove(m - s, x);
        assert m - {x} - s == m - s - {x};
      }
    }
  }

  lemma EvictedPartition(t: Shape, book: map<string, Booking>, rest: map<string, Booking>, uids: set<string>,
                         q: string, d: string)
    requires rest == book - uids
    ensures Evicted(t, book, book.Keys, q, d) == Evicted(t, book, uids, q, d) + Evicted(t, rest, rest.Keys, q, d)
  {
    var m := map u | u in book && u in book.Keys :: Weight(t, book[u], q, d);
    SumPartition(m, uids);
    assert (map k | k in m && k in uids :: m[k]) == map u | u in book && u in uids :: Weight(t, book[u], q, d);
    assert m - uids == map u | u in rest && u in rest.Keys :: Weight(t, rest[u], q, d);
  }

  /** Usage at `q` read off the ledger. */
  lemma UsedIsWeights(s: State, q: string, d: string)
    requires Inv(s) && s.tree.Some? && q in s.tree.value.usage
    ensures Get(Used(s.tree.value.usage[q]), d)
         == Evicted(s.tree.value.shape, s.book, s.book.Keys, q, d)
           + HoldSum(s.tree.value.shape, s.tree.value.gangs, q, d)
  {
    assert BalancedAt(s.tree.value, s.book, q, d);
    PodSumsAreWeights(s.tree.value.shape, s.book, q, d);
  }

  /** Deleting pods lowers each queue's usage by exactly what they were booked for below it. */
  lemma DeletedUsage(s: State, uids: seq<string>, q: string, d: string)
    requires Inv(s) && s.tree.Some? && q in s.tree.value.usage
    ensures var s' := DeletePods(s, uids);
      && Inv(s') && s'.tree.Some? && q in s'.tree.value.usage
      && Get(Used(s'.tree.value.usage[q]), d)
         == Get(Used(s.tree.value.usage[q]), d) - Evicted(s.tree.value.shape, s.book, (set u | u in uids), q, d)
  {
    var s' := DeletePods(s, uids);
    DeletePodsInv(s, uids);
    DeletePodsTree(s, uids);
    DeletePodsBooks(s, uids);
    UsedIsWeights(s, q, d);
    UsedIsWeights(s', q, d);
    assert s'.book == s.book - (set u | u in uids);
    EvictedPartition(s.tree.value.shape, s.book, s'.book, (set u | u in uids), q, d);
  }

  // ---------------------------------------------------------------- victims of a decision

  /** The engine books each chosen pod where it resolves, for its effective request. */
  ghost predicate BookedAsChosen(s: State, chosen: Choices) {
    && s.tree.Some?
    && forall u :: u in chosen ==>
         u in s.book && s.book[u].leaf == chosen[u].leaf && s.book[u].req == chosen[u].pod.req &&
           IsLeaf(s.tree.value.shape, chosen[u].leaf)
  }

  /** A leaf is on no path but its own. */
  lemma {:induction false} LeafOwnPath(t: Shape, from: string, leaf: string)
    requires WellFormed(t) && IsLeaf(t, leaf) && OnPath(t, from, leaf)
    ensures from == leaf
    decreases |from|
  {
    if from != leaf {
      assert WellPlaced(t, from);
      LeafOwnPath(t, t[from].parent.value, leaf);
    }
  }

  /** What the selected victims free at a donor leaf is what was chosen there, at most. */
  lemma EvictedAtLeaf(s: State, chosen: Choices, uids: set<string>, leaf: string, limit: int, d: string)
    requires BookedAsChosen(s, chosen) && WellFormed(s.tree.value.shape) && IsLeaf(s.tree.value.shape, leaf)
    requires uids <= chosen.Keys && ChoicesNonNegative(chosen) && forall u :: u in chosen ==>
      chosen[u].pod.priority <= limit
    ensures 0 <= Evicted(s.tree.value.shape, s.book, uids, leaf, d) <= DonorSum(chosen, leaf, limit, d)
  {
    var t := s.tree.value.shape;
    var a := map u | u in s.book && u in uids :: Weight(t, s.book[u], leaf, d);
    forall u | u in a ensures u in chosen && 0 <= a[u] <= Share(chosen[u], leaf, limit, d) {
      if OnPath(t, s.book[u].leaf, leaf) {
        LeafOwnPath(t, s.book[u].leaf, leaf);
      }
    }
    SumNonNegative(a);
    SumMonotone(a, map u | u in chosen :: Share(chosen[u], leaf, limit, d));
  }

  lemma EvictedOneMore(t: Shape, book: map<string, Booking>, uids: set<string>, u: string, q: string, d: string)
    requires u in book && u !in uids
    ensures Evicted(t, book, uids + {u}, q, d) == Evicted(t, book, uids, q, d) + Weight(t, book[u], q, d)
  {
    var all := uids + {u};
    var m := map x | x in book && x in all :: Weight(t, book[x], q, d);
    SumRemove(m, u);
    assert m - {u} == map x | x in book && x in uids :: Weight(t, book[x], q, d);
  }

  /** The victims' uids, as a set. */
  ghost function UIDSet(victims: seq<Victim>): set<string> {
    if victims == [] then {} else UIDSet(victims[..|victims| - 1]) + {victims[|victims| - 1].uid}
  }

  lemma {:induction false} UIDSetIs(victims: seq<Victim>)
    ensures forall u :: u in UIDSet(victims) <==> exists i :: 0 <= i < |victims| && victims[i].uid == u
    ensures UIDSet(victims) == set u | u in UIDs(victims)
    decreases |victims|
  {
    if victims != [] {
      var n := |victims| - 1;
      UIDSetIs(victims[..n]);
      forall u ensures u in UIDSet(victims) <==> exists i :: 0 <= i < |victims| && victims[i].uid == u {
        if u in UIDSet(victims[..n]) {
          var i :| 0 <= i < n && victims[..n][i].uid == u;
          assert victims[i].uid == u;
        }
        if i :| 0 <= i < |victims| && victims[i].uid == u {
          assert i < n ==> victims[..n][i].uid == u;
        }
      }
    }
    forall u ensures u in UIDs(victims) <==> exists i :: 0 <= i < |victims| && victims[i].uid == u {
      if i :| 0 <= i < |victims| && victims[i].uid == u {
        assert UIDs(victims)[i] == u;
      }
    }
  }

  /** The victim's booking is live, below `q`, and for its request. */
  ghost predicate BookedBelow(t: Shape, book: map<string, Booking>, v: Victim, q: string) {
    v.uid in book && v.request == book[v.uid].req && IsLeaf(t, book[v.uid].leaf) && OnPath(t, book[v.uid].leaf, q)
  }

  /** No uid twice among the victims. */
  ghost predicate DistinctVictims(victims: seq<Victim>) {
    forall i, j :: 0 <= i < j < |victims| ==> victims[i].uid != victims[j].uid
  }

  /** At a queue above all of their leaves, the selected victims free their whole requests. */
  lemma {:induction false} EvictedAbove(t: Shape, book: map<string, Booking>, selected: seq<Victim>, q: string,
                                        d: string)
    requires DistinctVictims(selected) && forall i :: 0 <= i < |selected| ==> BookedBelow(t, book, selected[i], q)
    ensures Evicted(t, book, UIDSet(selected), q, d) == Freed(multiset(selected), d)
    decreases |selected|
  {
    if selected == [] {
      assert (map u | u in book && u in UIDSet(selected) :: Weight(t, book[u], q, d)) == map[];
    } else {
      var n := |selected| - 1;
      EvictedAbove(t, book, selected[..n], q, d);
      UIDSetIs(selected[..n]);
      FreedSnoc(selected, d);
      assert BookedBelow(t, book, selected[n], q);
      EvictedOneMore(t, book, UIDSet(selected[..n]), selected[n].uid, q, d);
    }
  }

  /** Victims drawn from a list without repeats have none. */
  lemma DrawnDistinct(victims: seq<Victim>, selected: seq<Victim>)
    requires DistinctVictims(victims) && multiset(selected) <= multiset(victims)
    ensures DistinctVictims(selected) && forall v :: v in selected ==> v in victims
  {
    forall v | v in selected ensures v in victims {
      assert v in multiset(selected);
    }
    forall i, j | 0 <= i < j < |selected| ensures selected[i].uid != selected[j].uid {
      if selected[i].uid == selected[j].uid {
        DrawnTwice(victims, selected, i, j);
      }
    }
  }

  /** Victims drawn from the list of chosen pods are chosen pods, each once. */
  lemma DrawnFromChosen(victims: seq<Victim>, chosen: Choices, selected: seq<Victim>)
    requires Lists(victims, chosen) && ChoicesNonNegative(chosen) && multiset(selected) <= multiset(victims)
    ensures DistinctVictims(selected) && RequestsNonNegative(multiset(selected))
    ensures forall v :: v in selected ==> v.uid in chosen && v == AsVictim(chosen[v.uid].pod)
  {
    DrawnDistinct(victims, selected);
    forall v: Victim | v in multiset(selected) ensures NonNegative(v.request) {
      assert v in selected;
    }
  }

  lemma DrawnTwice(victims: seq<Victim>, selected: seq<Victim>, i: nat, j: nat)
    requires i < j < |selected| && multiset(selected) <= multiset(victims) && selected[i].uid == selected[j].uid
    ensures !DistinctVictims(victims)
  {
    var v, w := selected[i], selected[j];
    if v == w {
      Sorting.CountedTwice(selected, i, j);
      var x, y := Sorting.TwoPositions(victims, v);
      assert victims[x].uid == victims[y].uid;
    } else {
      assert v in multiset(selected) && w in multiset(selected);
      assert v in multiset(victims) && w in multiset(victims);
      var x :| 0 <= x < |victims| && victims[x] == v;
      var y :| 0 <= y < |victims| && victims[y] == w;
      assert victims[x].uid == victims[y].uid;
    }
  }
}
