/** The process-wide queue order (pkg/queue/sort.go). */
module Ordering {
  import opened Paths

  datatype SortPolicy = FIFO | Fair | StateAware

  datatype AppOrder = AppOrder(
    dominantShare: real,
    priority: int,
    submitNanos: int,
    uid: string,
    gangID: string,
    gangPriority: int,
    gangSubmitNanos: int)

  /** The contiguous block a unit belongs to: its gang, or itself. */
  function BlockID(a: AppOrder): string {
    if a.gangID != "" then "g/" + a.gangID else "p/" + a.uid
  }

  /** The block's representative priority and submit time. */
  function Repr(a: AppOrder): (int, int) {
    if a.gangID != "" then (a.gangPriority, a.gangSubmitNanos) else (a.priority, a.submitNanos)
  }

  predicate Less(policy: SortPolicy, a: AppOrder, b: AppOrder) {
    if BlockID(a) == BlockID(b) then
      if a.submitNanos != b.submitNanos then a.submitNanos < b.submitNanos else StringLess(a.uid, b.uid)
    else BlockLess(policy, a, b)
  }

  /** The ranking of units of different blocks. */
  predicate BlockLess(policy: SortPolicy, a: AppOrder, b: AppOrder) {
    var (pa, sa) := Repr(a);
    var (pb, sb) := Repr(b);
    if policy == Fair && a.dominantShare != b.dominantShare then a.dominantShare < b.dominantShare
    else if policy != Fair && sa != sb then sa < sb
    else if pa != pb then pa > pb
    else if sa != sb then sa < sb
    else StringLess(BlockID(a), BlockID(b))
  }

  /** Ranking blocks is a strict weak order on all units, total on units of different blocks. */
  lemma BlockOrder(policy: SortPolicy, a: AppOrder, b: AppOrder, c: AppOrder)
    ensures !BlockLess(policy, a, a)
    ensures BlockLess(policy, a, b) ==> !BlockLess(policy, b, a)
    ensures BlockID(a) != BlockID(b) ==> BlockLess(policy, a, b) || BlockLess(policy, b, a)
    ensures BlockLess(policy, a, b) && BlockLess(policy, b, c) ==> BlockLess(policy, a, c)
    ensures !BlockLess(policy, a, b) && !BlockLess(policy, b, c) ==> !BlockLess(policy, a, c)
  {
    StringOrder(BlockID(a), BlockID(b), BlockID(c));
    StringOrder(BlockID(b), BlockID(a), BlockID(a));
  }

  /** Ranking members of one block is a strict weak order. */
  lemma MemberOrder(policy: SortPolicy, a: AppOrder, b: AppOrder, c: AppOrder)
    requires BlockID(a) == BlockID(b) == BlockID(c)
    ensures !Less(policy, a, a)
    ensures Less(policy, a, b) && Less(policy, b, c) ==> Less(policy, a, c)
    ensures !Less(policy, a, b) && !Less(policy, b, c) ==> !Less(policy, a, c)
  {
    StringOrder(a.uid, b.uid, c.uid);
    StringOrder(a.uid, a.uid, a.uid);
  }

  // ---------------------------------------------------------------- strict weak order

  /** Irreflexive, transitive, and transitive where it does not hold. */
  predicate StrictWeakOn(policy: SortPolicy, a: AppOrder, b: AppOrder, c: AppOrder) {
    && !Less(policy, a, a)
    && (Less(policy, a, b) && Less(policy, b, c) ==> Less(policy, a, c))
    && (!Less(policy, a, b) && !Less(policy, b, c) ==> !Less(policy, a, c))
  }

  /** Members of one block that the block keys tell apart are ranked the same way inside it. */
  predicate Consistent(policy: SortPolicy, a: AppOrder, b: AppOrder) {
    BlockID(a) == BlockID(b) && BlockLess(policy, a, b) ==> Less(policy, a, b)
  }

  predicate ConsistentPair(policy: SortPolicy, a: AppOrder, b: AppOrder) {
    Consistent(policy, a, b) && Consistent(policy, b, a)
  }

  /** Less is a strict weak order on consistent units. */
  lemma LessStrictWeak(policy: SortPolicy, a: AppOrder, b: AppOrder, c: AppOrder)
    requires ConsistentPair(policy, a, b) && ConsistentPair(policy, b, c) && ConsistentPair(policy, a, c)
    ensures StrictWeakOn(policy, a, b, c)
  {
    if BlockID(a) == BlockID(b) == BlockID(c) {
      MemberOrder(policy, a, b, c);
    } else {
      MemberOrder(policy, a, a, a);
      BlockOrder(policy, a, b, c);
      BlockOrder(policy, c, b, a);
      BlockOrder(policy, b, a, c);
      BlockOrder(policy, a, c, b);
      AsymmetricInside(policy, a, b);
      AsymmetricInside(policy, b, c);
      AsymmetricInside(policy, a, c);
    }
  }

  lemma AsymmetricInside(policy: SortPolicy, a: AppOrder, b: AppOrder)
    ensures BlockID(a) == BlockID(b) && Less(policy, a, b) ==> !Less(policy, b, a)
  {
    StringOrder(a.uid, b.uid, a.uid);
    StringOrder(a.uid, a.uid, a.uid);
  }

  /** A solo unit right after `a` in the ranking of blocks. */
  function JustAfter(a: AppOrder): AppOrder {
    AppOrder(a.dominantShare, Repr(a).0, Repr(a).1, a.uid + "a", "", 0, 0)
  }

  lemma JustAfterRanks(policy: SortPolicy, a: AppOrder)
    ensures BlockID(JustAfter(a)) != BlockID(a)
    ensures Less(policy, a, JustAfter(a)) && BlockLess(policy, a, JustAfter(a))
    ensures forall b :: BlockID(b) == BlockID(a) && BlockLess(policy, a, b) ==> Less(policy, JustAfter(a), b)
  {
    var c := JustAfter(a);
    StringLessExtend("p/" + a.uid, "a");
    assert BlockID(c) == "p/" + a.uid + "a";
    assert StringLess(BlockID(a), BlockID(c));
    StringLessTrichotomy(BlockID(a), BlockID(c));
    StringLessTrichotomy(BlockID(a), BlockID(a));
  }

  /** What the block keys of two members decide: whether some unit of another block falls
      between them. */
  lemma BetweenExact(policy: SortPolicy, a: AppOrder, b: AppOrder)
    requires BlockID(a) == BlockID(b)
    ensures BlockLess(policy, a, b)
       <==> exists c :: BlockID(c) != BlockID(a) && Less(policy, a, c) && Less(policy, c, b)
  {
    if BlockLess(policy, a, b) {
      JustAfterRanks(policy, a);
    }
    if c :| BlockID(c) != BlockID(a) && Less(policy, a, c) && Less(policy, c, b) {
      BlockOrder(policy, a, c, b);
    }
  }

  /** Two members of one block and a unit of another form a cycle exactly when the block keys
      rank the members against their order inside the block. */
  lemma CycleExact(policy: SortPolicy, a: AppOrder, b: AppOrder)
    requires BlockID(a) == BlockID(b)
    ensures (exists c :: BlockID(c) != BlockID(a) && Less(policy, a, b) && Less(policy, b, c) && Less(policy, c, a))
       <==> Less(policy, a, b) && BlockLess(policy, b, a)
  {
    BetweenExact(policy, b, a);
    if Less(policy, a, b) && BlockLess(policy, b, a) {
      var c :| BlockID(c) != BlockID(b) && Less(policy, b, c) && Less(policy, c, a);
      assert BlockID(c) != BlockID(a);
    }
  }

  /** Exactly when: Less is a strict weak order on two members of a block and every unit of
      the other blocks if and only if the members are consistent. */
  lemma StrictWeakExact(policy: SortPolicy, a: AppOrder, b: AppOrder)
    requires BlockID(a) == BlockID(b)
    ensures (forall c :: BlockID(c) != BlockID(a) ==> StrictWeakOn(policy, a, c, b) && StrictWeakOn(policy, b, c, a))
       <==> ConsistentPair(policy, a, b)
  {
    if ConsistentPair(policy, a, b) {
      forall c | BlockID(c) != BlockID(a) ensures StrictWeakOn(policy, a, c, b) && StrictWeakOn(policy, b, c, a) {
        LessStrictWeak(policy, a, c, b);
        LessStrictWeak(policy, b, c, a);
      }
    } else if !Consistent(policy, a, b) {
      JustAfterRanks(policy, a);
      assert !StrictWeakOn(policy, a, JustAfter(a), b);
    } else {
      JustAfterRanks(policy, b);
      assert !StrictWeakOn(policy, b, JustAfter(b), a);
    }
  }

  // ---------------------------------------------------------------- contiguous gangs

  /** No later unit ranks before an earlier one. */
  ghost predicate Sorted(policy: SortPolicy, s: seq<AppOrder>) {
    forall i, j :: 0 <= i < j < |s| ==> !Less(policy, s[j], s[i])
  }

  /** Nothing of another block stands between two units of block `id`. */
  ghost predicate Contiguous(s: seq<AppOrder>, id: string) {
    forall i, k, j :: 0 <= i < k < j < |s| && BlockID(s[i]) == id && BlockID(s[j]) == id ==> BlockID(s[k]) == id
  }

  /** The block keys let a unit of another block in between the two, in that order. */
  predicate Splits(policy: SortPolicy, a: AppOrder, b: AppOrder) {
    BlockLess(policy, a, b) && !Less(policy, b, a)
  }

  /** The units of block `id` in `s` are all members of `gang`. */
  ghost predicate MembersIn(s: seq<AppOrder>, id: string, gang: set<AppOrder>) {
    forall i :: 0 <= i < |s| && BlockID(s[i]) == id ==> s[i] in gang
  }

  /** In a sorted sequence no two members with a foreign unit between them escape the keys. */
  lemma SplitBetween(policy: SortPolicy, s: seq<AppOrder>, i: nat, k: nat, j: nat)
    requires Sorted(policy, s) && i < k < j < |s| && BlockID(s[i]) == BlockID(s[j]) != BlockID(s[k])
    ensures Splits(policy, s[i], s[j])
  {
    BlockOrder(policy, s[i], s[k], s[j]);
    BlockOrder(policy, s[k], s[j], s[i]);
  }

  lemma SplitWitness(policy: SortPolicy, a: AppOrder, b: AppOrder) returns (s: seq<AppOrder>)
    requires BlockID(a) == BlockID(b) && Splits(policy, a, b)
    ensures Sorted(policy, s) && MembersIn(s, BlockID(a), {a, b}) && !Contiguous(s, BlockID(a))
  {
    var c := JustAfter(a);
    JustAfterRanks(policy, a);
    BlockOrder(policy, a, c, b);
    BlockOrder(policy, c, b, a);
    s := [a, c, b];
    assert s[0] == a && s[1] == c && s[2] == b;
  }

  /** Exactly when: a gang is contiguous in every sorted sequence, whatever other units are in
      it, if and only if the block keys split no two of its members. */
  lemma ContiguityExact(policy: SortPolicy, id: string, gang: set<AppOrder>)
    requires forall a :: a in gang ==> BlockID(a) == id
    ensures (forall s :: Sorted(policy, s) && MembersIn(s, id, gang) ==> Contiguous(s, id))
       <==> (forall a, b :: a in gang && b in gang ==> !Splits(policy, a, b))
  {
    if forall a, b :: a in gang && b in gang ==> !Splits(policy, a, b) {
      forall s, i, k, j | Sorted(policy, s) && MembersIn(s, id, gang)
                          && 0 <= i < k < j < |s| && BlockID(s[i]) == id && BlockID(s[j]) == id
        ensures BlockID(s[k]) == id
      {
        if BlockID(s[k]) != id {
          SplitBetween(policy, s, i, k, j);
        }
      }
    } else {
      var a, b :| a in gang && b in gang && Splits(policy, a, b);
      var s := SplitWitness(policy, a, b);
    }
  }

  /** Both promises at once, for two members of a block: Less is a strict weak order on them
      and every unit of the other blocks, and they stay together in every sorted sequence. */
  ghost predicate PromisesKept(policy: SortPolicy, a: AppOrder, b: AppOrder) {
    && (forall c :: BlockID(c) != BlockID(a) ==> StrictWeakOn(policy, a, c, b) && StrictWeakOn(policy, b, c, a))
    && (forall s :: Sorted(policy, s) && MembersIn(s, BlockID(a), {a, b}) ==> Contiguous(s, BlockID(a)))
  }

  /** Exactly when: the promises hold if and only if the policy's key does not tell the two
      members apart; a key the policy never reads plays no part. */
  lemma BothExact(policy: SortPolicy, a: AppOrder, b: AppOrder)
    requires BlockID(a) == BlockID(b)
    ensures PromisesKept(policy, a, b) <==> !BlockLess(policy, a, b) && !BlockLess(policy, b, a)
  {
    StrictWeakExact(policy, a, b);
    ContiguityExact(policy, BlockID(a), {a, b});
    AsymmetricInside(policy, a, b);
    AsymmetricInside(policy, b, a);
    PairSplits(policy, a, b);
  }

  lemma PairSplits(policy: SortPolicy, a: AppOrder, b: AppOrder)
    ensures (forall x, y :: x in {a, b} && y in {a, b} ==> !Splits(policy, x, y))
       <==> !Splits(policy, a, b) && !Splits(policy, b, a)
  {
    BlockOrder(policy, a, a, a);
    BlockOrder(policy, b, b, b);
  }

  /** Two members of one gang with different gang submit times and a solo unit between them
      form a cycle. */
  lemma DisagreementMakesCycle() returns (a: AppOrder, b: AppOrder, c: AppOrder)
    ensures BlockID(a) == BlockID(b) && Less(FIFO, a, b) && Less(FIFO, b, c) && Less(FIFO, c, a)
  {
    a := AppOrder(0.0, 0, 1, "a", "g", 0, 30);
    b := AppOrder(0.0, 0, 2, "b", "g", 0, 10);
    c := AppOrder(0.0, 0, 20, "c", "", 0, 0);
    assert BlockID(a) == "g/g" && BlockID(c) == "p/c";
  }

  // ---------------------------------------------------------------- in the units' own fields

  /** Members of one gang, or one and the same solo unit. */
  predicate Together(a: AppOrder, b: AppOrder) {
    a.gangID == b.gangID && (a.gangID != "" || a.uid == b.uid)
  }

  lemma BlockIsTogether(a: AppOrder, b: AppOrder)
    ensures BlockID(a) == BlockID(b) <==> Together(a, b)
  {
    assert BlockID(a)[0] == if a.gangID != "" then 'g' else 'p';
    assert BlockID(b)[0] == if b.gangID != "" then 'g' else 'p';
    assert BlockID(a)[2..] == if a.gangID != "" then a.gangID else a.uid;
    assert BlockID(b)[2..] == if b.gangID != "" then b.gangID else b.uid;
  }

  /** The last tie-break: gangs before solo units, gangs by name and solo units by uid. */
  predicate NameBefore(a: AppOrder, b: AppOrder) {
    if a.gangID != "" && b.gangID != "" then StringLess(a.gangID, b.gangID)
    else if a.gangID == "" && b.gangID == "" then StringLess(a.uid, b.uid)
    else a.gangID != ""
  }

  lemma BlockNames(a: AppOrder, b: AppOrder)
    ensures StringLess(BlockID(a), BlockID(b)) <==> NameBefore(a, b)
  {
    StringLessAfter("g/", a.gangID, b.gangID);
    StringLessAfter("p/", a.uid, b.uid);
  }

  /** `a` may stand before a unit `b` of another block. The fair policy compares dominant shares
      first, the others submit times; then the higher priority, then the earlier submit time, and
      last the name decide. A gang member counts with its gang's priority and submit time. */
  ghost predicate MayPrecede(policy: SortPolicy, a: AppOrder, b: AppOrder) {
    var pa, pb := if a.gangID == "" then a.priority else a.gangPriority,
                  if b.gangID == "" then b.priority else b.gangPriority;
    var sa, sb := if a.gangID == "" then a.submitNanos else a.gangSubmitNanos,
                  if b.gangID == "" then b.submitNanos else b.gangSubmitNanos;
    var tied := if policy == Fair then a.dominantShare == b.dominantShare else sa == sb;
    && (policy == Fair ==> a.dominantShare <= b.dominantShare)
    && (policy != Fair ==> sa <= sb)
    && (tied ==> pa >= pb)
    && (tied && pa == pb ==> sa <= sb)
    && (tied && pa == pb && sa == sb ==> NameBefore(a, b))
  }

  /** What a sorted sequence looks like: blocks stand in the order above, and the units of one
      block by submit time and then uid. */
  lemma SortedLaw(policy: SortPolicy, s: seq<AppOrder>, i: nat, j: nat)
    requires Sorted(policy, s) && i < j < |s|
    ensures !Together(s[i], s[j]) ==> MayPrecede(policy, s[i], s[j])
    ensures Together(s[i], s[j]) ==>
      && s[i].submitNanos <= s[j].submitNanos
      && (s[i].submitNanos == s[j].submitNanos ==> !StringLess(s[j].uid, s[i].uid))
  {
    var a, b := s[i], s[j];
    BlockIsTogether(a, b);
    BlockNames(a, b);
    BlockNames(b, a);
    StringLessTrichotomy(BlockID(a), BlockID(b));
    assert !Less(policy, b, a);
  }

  /** Members of one gang that carry the same gang priority and submit time, and under the fair
      policy the same share, have nothing but members of their gang between them. */
  lemma GangStaysTogether(policy: SortPolicy, s: seq<AppOrder>, i: nat, k: nat, j: nat)
    requires Sorted(policy, s) && i < k < j < |s| && s[i].gangID == s[j].gangID != ""
    requires s[i].gangPriority == s[j].gangPriority && s[i].gangSubmitNanos == s[j].gangSubmitNanos
    requires policy == Fair ==> s[i].dominantShare == s[j].dominantShare
    ensures s[k].gangID == s[i].gangID
  {
    if s[k].gangID != s[i].gangID {
      SortedLaw(policy, s, i, k);
      SortedLaw(policy, s, k, j);
      StringLessTrichotomy(s[i].gangID, s[k].gangID);
    }
  }
}
