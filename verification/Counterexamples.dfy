/** Runs in which the engine does less than its comments say, each from the empty engine
    (pkg/framework/engine.go). */
module Counterexamples {
  import opened Vectors
  import opened QueueTree
  import opened Ledger

  /** One more call at the end of a run. */
  lemma RunSnoc(run: seq<State>, ops: seq<Op>, op: Op)
    requires IsRun(run, ops) && Enabled(run[|ops|], op)
    ensures IsRun(run + [Step(run[|ops|], op)], ops + [op])
  {
    var run', ops' := run + [Step(run[|ops|], op)], ops + [op];
    forall i | 0 <= i < |ops'| ensures Enabled(run'[i], ops'[i]) && run'[i + 1] == Step(run'[i], ops'[i]) {
      assert i < |ops| ==> run'[i] == run[i] && run'[i + 1] == run[i + 1] && ops'[i] == ops[i];
    }
  }

  /** A run of three calls. */
  lemma ThreeCalls(s0: State, s1: State, s2: State, s3: State, a: Op, b: Op, c: Op)
    requires Enabled(s0, a) && Enabled(s1, b) && Enabled(s2, c)
    requires s1 == Step(s0, a) && s2 == Step(s1, b) && s3 == Step(s2, c)
    ensures IsRun([s0, s1, s2, s3], [a, b, c])
  {}

  // ---------------------------------------------------------------- a hold that is lost

  /** A root with one leaf whose cpu is capped at `cap`. */
  function OneLeaf(cap: nat): Shape {
    map["root" := Node("root", None, false, map[], map[], false, [], false),
        "root.a" := Node("a", Some("root"), true, map[], map["cpu" := cap], false, [], false)]
  }

  lemma OneLeafWellFormed(cap: nat)
    ensures WellFormed(OneLeaf(cap))
  {
    var t := OneLeaf(cap);
    assert "root.a" == "root" + "." + "a";
    assert t["root.a"].parent == Some("root");
    assert WellPlaced(t, "root") && WellPlaced(t, "root.a");
  }

  /** A gang asking for 2 gets in exactly when the cap allows it. */
  lemma OneLeafAdmits(cap: nat)
    ensures var (t, r) := TreeAdmitGang(EmptyTree(OneLeaf(cap)), "root.a", "g", map["cpu" := 2]);
      (cap >= 2 ==> r == Admitted) && (cap < 2 ==> t == EmptyTree(OneLeaf(cap)))
  {
    var shape, need: Resource := OneLeaf(cap), map["cpu" := 2];
    assert need["cpu"] == 2 && StrictlyGtZero(need);
    assert OnPath(shape, "root.a", "root.a");
    assert FitsHere(shape["root.a"].max, map[], need) <==> cap >= 2;
    if cap >= 2 {
      assert forall q :: q in shape ==> FitsHere(shape[q].max, map[], need);
      assert forall q :: q in shape ==> Used(EmptyUsage(shape)[q]) == map[];
    }
  }

  /** Rebuilding with one gang in the ledger that the new tree refuses. */
  lemma LoneGangRefused(s: State, after: Shape, leaf: string, need: Resource)
    requires s.book == map[] && s.gangBook == map["g" := Hold(leaf, need)] && IsLeaf(after, leaf)
    requires TreeAdmitGang(EmptyTree(after), leaf, "g", need).0 == EmptyTree(after)
    ensures Rebuild(s, after, [], ["g"]).tree == Some(EmptyTree(after)) &&
      Rebuild(s, after, [], ["g"]).gangBook == s.gangBook
  {
    SeedGangsSnoc(EmptyTree(after), s.gangBook, [], "g");
    assert [] + ["g"] == ["g"];
  }

  lemma LoneGangAdmitted(before: Shape, leaf: string, need: Resource)
    requires TreeAdmitGang(EmptyTree(before), leaf, "g", need).1 == Admitted
    ensures var s1 := Rebuild(Init(0), before, [], []);
      AdmitGang(s1, leaf, "g", need).0.book == map[] &&
        AdmitGang(s1, leaf, "g", need).0.gangBook == map["g" := Hold(leaf, need)]
  {
    assert Rebuild(Init(0), before, [], []).tree == Some(EmptyTree(before));
  }

  /** A tree that admits a gang, replaced by one with the same leaf that would not. */
  lemma SwapLosesHold(before: Shape, after: Shape, leaf: string, need: Resource) returns (run: seq<State>, ops: seq<Op>)
    requires WellFormed(before) && WellFormed(after) && IsLeaf(after, leaf)
    requires TreeAdmitGang(EmptyTree(before), leaf, "g", need).1 == Admitted
    requires TreeAdmitGang(EmptyTree(after), leaf, "g", need).0 == EmptyTree(after)
    ensures IsRun(run, ops) && run[0] == Init(0)
    ensures var s := run[|run| - 1];
      s.tree == Some(EmptyTree(after)) && "g" in s.gangBook && s.gangBook["g"].leaf == leaf
  {
    var s1 := Rebuild(Init(0), before, [], []);
    var s2 := AdmitGang(s1, leaf, "g", need).0;
    var s3 := Rebuild(s2, after, [], ["g"]);
    LoneGangAdmitted(before, leaf, need);
    LoneGangRefused(s2, after, leaf, need);
    run := [Init(0), s1, s2, s3];
    ops := [OpRebuild(before, [], []), OpAdmitGang(leaf, "g", need), OpRebuild(after, [], ["g"])];
    ThreeCalls(Init(0), s1, s2, s3, ops[0], ops[1], ops[2]);
  }

  /** The two ledgers can part: lowering a leaf's max below a gang's hold makes the rebuild
      drop the hold from the tree while the gang ledger still lists it. */
  lemma RebuildCanLoseHold() returns (run: seq<State>, ops: seq<Op>)
    ensures IsRun(run, ops) && run[0] == Init(0)
    ensures var s := run[|run| - 1];
      s.tree.Some? && "g" in s.gangBook && IsLeaf(s.tree.value.shape, s.gangBook["g"].leaf) &&
        "g" !in s.tree.value.gangs
  {
    OneLeafWellFormed(4);
    OneLeafWellFormed(1);
    OneLeafAdmits(4);
    OneLeafAdmits(1);
    run, ops := SwapLosesHold(OneLeaf(4), OneLeaf(1), "root.a", map["cpu" := 2]);
  }

  // ---------------------------------------------------------------- a bid that does not expire

  const NEED: Resource := map["cpu" := 2]
  const HOLDER := WoundWaitKey(1, 0, "h")
  const CONTENDER := WoundWaitKey(0, 0, "c")

  /** The leaf is full: a gang that would fit an empty one finds no room. */
  lemma FullLeaf(t: Tree)
    requires t == TreeAdmitGang(EmptyTree(OneLeaf(2)), "root.a", "x", NEED).0
    ensures TreeAdmitGang(t, "root.a", "h", NEED) == (t, NoRoom)
  {
    var shape := OneLeaf(2);
    OneLeafAdmits(2);
    assert NEED["cpu"] == 2 && StrictlyGtZero(NEED);
    assert OnPath(shape, "root.a", "root.a");
    assert forall q :: q in shape ==> FitsHere(shape[q].max, map[], NEED);
    assert Get(Used(t.usage["root.a"]), "cpu") == 2;
    assert !FitsHere(shape["root.a"].max, Used(t.usage["root.a"]), NEED);
  }

  /** A lower-ranked gang is held back and refreshes the bid. */
  lemma Refreshes(s: State, now: int)
    requires s.tree.Some? && "c" !in s.gangBook && "root.a" in s.bids && s.bids["root.a"].key == HOLDER
    requires now - s.bids["root.a"].at <= s.timeout
    ensures AdmitGangWW(s, "root.a", "c", NEED, CONTENDER, now).0 == s.(bids := s.bids["root.a" := Bid(HOLDER, now)])
  {}

  /** A call that finds no room puts in a bid where none stands. */
  lemma FirstBid(s: State, leaf: string, key: string, rank: WoundWaitKey, now: int)
    requires s.tree.Some? && key !in s.gangBook && s.bids == map[]
    requires TreeAdmitGang(s.tree.value, leaf, key, NEED) == (s.tree.value, NoRoom)
    ensures AdmitGangWW(s, leaf, key, NEED, rank, now).0 == s.(bids := map[leaf := Bid(rank, now)])
  {}

  lemma FirstHold(s: State, leaf: string, key: string)
    requires s.tree.Some? && s.gangBook == map[] && TreeAdmitGang(s.tree.value, leaf, key, NEED).1 == Admitted
    ensures AdmitGang(s, leaf, key, NEED).0
         == s.(tree := Some(TreeAdmitGang(s.tree.value, leaf, key, NEED).0), gangBook := map[key := Hold(leaf, NEED)])
  {}

  /** The leaf fills up, then the holder asks at time 0 and finds no room. */
  lemma HolderAsks(timeout: int) returns (run: seq<State>, ops: seq<Op>)
    ensures IsRun(run, ops) && run[0] == Init(timeout) && |ops| == 3
    ensures ops[2] == OpAdmitGangWW("root.a", "h", NEED, HOLDER, 0)
    ensures run[3].tree.Some? && run[3].gangBook.Keys == {"x"} && run[3].timeout == timeout
    ensures run[3].bids == map["root.a" := Bid(HOLDER, 0)]
  {
    OneLeafWellFormed(2);
    OneLeafAdmits(2);
    FullLeaf(TreeAdmitGang(EmptyTree(OneLeaf(2)), "root.a", "x", NEED).0);
    run, ops := AskFullLeaf(timeout, OneLeaf(2));
  }

  lemma AskFullLeaf(timeout: int, shape: Shape) returns (run: seq<State>, ops: seq<Op>)
    requires WellFormed(shape) && TreeAdmitGang(EmptyTree(shape), "root.a", "x", NEED).1 == Admitted
    requires var t := TreeAdmitGang(EmptyTree(shape), "root.a", "x", NEED).0;
      TreeAdmitGang(t, "root.a", "h", NEED) == (t, NoRoom)
    ensures IsRun(run, ops) && run[0] == Init(timeout) && |ops| == 3
    ensures ops[2] == OpAdmitGangWW("root.a", "h", NEED, HOLDER, 0)
    ensures run[3].tree.Some? && run[3].gangBook.Keys == {"x"} && run[3].timeout == timeout
    ensures run[3].bids == map["root.a" := Bid(HOLDER, 0)]
  {
    var s1 := Init(timeout).(tree := Some(EmptyTree(shape)));
    var s2 := AdmitGang(s1, "root.a", "x", NEED).0;
    var s3 := AdmitGangWW(s2, "root.a", "h", NEED, HOLDER, 0).0;
    FirstTree(timeout, shape);
    FirstHold(s1, "root.a", "x");
    FirstBid(s2, "root.a", "h", HOLDER, 0);
    ops := [OpRebuild(shape, [], []), OpAdmitGang("root.a", "x", NEED), OpAdmitGangWW("root.a", "h", NEED, HOLDER, 0)];
    run := [Init(timeout), s1, s2, s3];
    ThreeCalls(Init(timeout), s1, s2, s3, ops[0], ops[1], ops[2]);
  }

  lemma FirstTree(timeout: int, shape: Shape)
    requires WellFormed(shape)
    ensures Enabled(Init(timeout), OpRebuild(shape, [], []))
    ensures Step(Init(timeout), OpRebuild(shape, [], [])) == Init(timeout).(tree := Some(EmptyTree(shape)))
  {}

  /** A bid outlives any timeout: for every span there is a run in which the holder asks once,
      at time 0, and its bid still stands `span` later, because a lower-ranked gang kept asking. */
  lemma {:induction false} BidOutlivesTimeout(timeout: int, span: nat) returns (run: seq<State>, ops: seq<Op>)
    requires timeout > 0
    ensures IsRun(run, ops) && run[0] == Init(timeout) && |ops| == 3 + span
    ensures ops[2] == OpAdmitGangWW("root.a", "h", NEED, HOLDER, 0)
    ensures forall j :: 3 <= j < |ops| ==> ops[j] == OpAdmitGangWW("root.a", "c", NEED, CONTENDER, j - 2)
    ensures var s := run[|ops|];
      s.tree.Some? && s.gangBook.Keys == {"x"} && s.timeout == timeout && s.bids == map["root.a" := Bid(HOLDER, span)]
    decreases span
  {
    if span == 0 {
      run, ops := HolderAsks(timeout);
    } else {
      run, ops := BidOutlivesTimeout(timeout, span - 1);
      var op := OpAdmitGangWW("root.a", "c", NEED, CONTENDER, span);
      Refreshes(run[|ops|], span);
      RunSnoc(run, ops, op);
      run, ops := run + [Step(run[|ops|], op)], ops + [op];
    }
  }

  // ---------------------------------------------------------------- a booking that counts nowhere

  /** The leaf of OneLeaf with a child of its own. */
  function Deeper(): Shape {
    map["root" := Node("root", None, false, map[], map[], false, [], false),
        "root.a" := Node("a", Some("root"), false, map[], map[], false, [], false),
        "root.a.b" := Node("b", Some("root.a"), true, map[], map[], false, [], false)]
  }

  lemma DeeperWellFormed()
    ensures WellFormed(Deeper())
  {
    var t := Deeper();
    assert "root.a" == "root" + "." + "a" && "root.a.b" == "root.a" + "." + "b";
    assert t["root.a"].parent == Some("root") && t["root.a.b"].parent == Some("root.a");
    assert WellPlaced(t, "root") && WellPlaced(t, "root.a") && WellPlaced(t, "root.a.b");
  }

  lemma LonePodDropped(s: State, after: Shape, leaf: string)
    requires s.book == map["p" := Booking(Committed, leaf, NEED)] && s.gangBook == map[]
    requires leaf in after && !after[leaf].leaf
    ensures Rebuild(s, after, ["p"], []).tree == Some(EmptyTree(after)) && Rebuild(s, after, ["p"], []).book == s.book
  {
    SeedPodsSnoc(after, EmptyUsage(after), s.book, [], "p");
    assert [] + ["p"] == ["p"];
  }

  /** A pod seen bound on a leaf that the next tree turns into an interior queue. */
  lemma SwapLosesCount(before: Shape, after: Shape, leaf: string) returns (run: seq<State>, ops: seq<Op>)
    requires WellFormed(before) && WellFormed(after) && leaf in before && leaf in after && !after[leaf].leaf
    ensures IsRun(run, ops) && run[0] == Init(0)
    ensures var s := run[|run| - 1];
      s.tree == Some(EmptyTree(after)) && s.book == map["p" := Booking(Committed, leaf, NEED)]
  {
    FirstTree(0, before);
    var s1 := Init(0).(tree := Some(EmptyTree(before)));
    var s2 := ObserveBound(s1, "p", leaf, NEED);
    assert s2.book == map["p" := Booking(Committed, leaf, NEED)] && s2.gangBook == map[];
    var s3 := Rebuild(s2, after, ["p"], []);
    LonePodDropped(s2, after, leaf);
    run := [Init(0), s1, s2, s3];
    ops := [OpRebuild(before, [], []), OpObserveBound("p", leaf, NEED), OpRebuild(after, ["p"], [])];
    ThreeCalls(Init(0), s1, s2, s3, ops[0], ops[1], ops[2]);
  }

  /** Giving a leaf a child makes a rebuild keep the bookings of its pods while counting them
      nowhere. */
  lemma BookingCountsNowhere() returns (run: seq<State>, ops: seq<Op>)
    ensures IsRun(run, ops) && run[0] == Init(0)
    ensures var s := run[|run| - 1];
      && s.tree == Some(EmptyTree(Deeper()))
      && s.book == map["p" := Booking(Committed, "root.a", NEED)] && "root.a" in Deeper() && !Deeper()["root.a"].leaf
  {
    OneLeafWellFormed(4);
    DeeperWellFormed();
    run, ops := SwapLosesCount(OneLeaf(4), Deeper(), "root.a");
  }
}
