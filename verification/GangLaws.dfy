/** What every gang call and a rebuild do, said in the fields of the state before and after
    (pkg/framework/engine.go, pkg/queue/gang.go). */
module GangLaws {
  import opened Vectors
  import opened Paths
  import opened QueueTree
  import opened Ledger
  import opened Balance
  import opened Limits
  import opened WoundWait
  import opened CallLaws

  ghost predicate PodsKept(s: State, s': State) {
    s'.book == s.book && s'.timeout == s.timeout
  }

  // ---------------------------------------------------------------- admission

  /** A gang that may ask at all: it has an id, asks for something and for nothing negative, and
      its queue is a live leaf. */
  ghost predicate MayAsk(t: Shape, leaf: string, key: string, need: Resource) {
    && key != "" && Live(t, leaf)
    && (forall d :: d in need ==> need[d] >= 0) && (exists d :: d in need && need[d] > 0)
  }

  /** What the gang asks for is within max at every queue of the path, on its own. */
  ghost predicate WithinCeilings(t: Shape, leaf: string, need: Resource) {
    forall q, d :: q in t && OnPath(t, leaf, q) && d in need && d in t[q].max ==> need[d] <= t[q].max[d]
  }

  /** It is within max on top of what each queue of the path uses. */
  ghost predicate HasRoom(t: Tree, leaf: string, need: Resource) {
    forall q, d :: q in t.shape && q in t.usage && OnPath(t.shape, leaf, q) && d in need && d in t.shape[q].max ==>
      Get(t.usage[q].confirmed, d) + Get(t.usage[q].inflight, d) + need[d] <= t.shape[q].max[d]
  }

  lemma CeilingsAre(t: Shape, leaf: string, need: Resource)
    ensures FitsMax(t, leaf, need) <==> WithinCeilings(t, leaf, need)
  {
    if WithinCeilings(t, leaf, need) {
      forall q | q in t && OnPath(t, leaf, q) ensures FitsHere(t[q].max, map[], need) {}
    }
    if FitsMax(t, leaf, need) {
      forall q, d | q in t && OnPath(t, leaf, q) && d in need && d in t[q].max ensures need[d] <= t[q].max[d] {
        assert FitsHere(t[q].max, map[], need);
      }
    }
  }

  lemma RoomIs(t: Tree, leaf: string, need: Resource)
    ensures CanFit(t.shape, t.usage, leaf, need) <==> HasRoom(t, leaf, need)
  {
    if HasRoom(t, leaf, need) {
      forall q | q in t.shape && q in t.usage && OnPath(t.shape, leaf, q)
        ensures FitsHere(t.shape[q].max, Used(t.usage[q]), need)
      {}
    } else {
      var q, d :| q in t.shape && q in t.usage && OnPath(t.shape, leaf, q) && d in need && d in t.shape[q].max &&
        Get(t.usage[q].confirmed, d) + Get(t.usage[q].inflight, d) + need[d] > t.shape[q].max[d];
      NoRoomMeans(t, leaf, need, q, d);
    }
  }

  /** A gang without a hold that gets in: the hold is recorded and the in-flight usage along the
      path rises by what it asked for. */
  ghost predicate Gains(t: Tree, t': Tree, leaf: string, key: string, need: Resource) {
    t'.gangs == t.gangs[key := Hold(leaf, need)] && Shifted(t, t', leaf, need, 0, 1)
  }

  /** The tree's answer to a gang that holds nothing yet, each in its own case. */
  lemma AnswerLaw(t: Tree, leaf: string, key: string, need: Resource)
    requires key !in t.gangs
    ensures var (t', r) := TreeAdmitGang(t, leaf, key, need);
      && (r in {Admitted, NoRoom, NeverFits} <==> MayAsk(t.shape, leaf, key, need))
      && (r in {Admitted, NoRoom} <==> MayAsk(t.shape, leaf, key, need) && WithinCeilings(t.shape, leaf, need))
      && (r in {Admitted, NoRoom} ==> (r == Admitted <==> HasRoom(t, leaf, need)))
      && if r == Admitted then Gains(t, t', leaf, key, need) else t' == t
  {
    ReasonLaw(t, leaf, key, need);
    assert TreeAdmitGang(t, leaf, key, need).1 == Admitted ==>
      Gains(t, TreeAdmitGang(t, leaf, key, need).0, leaf, key, need) by {
      RollShifts(t, leaf, Reserve, need);
    }
  }

  /** AdmitGang records a new gang exactly when it may ask and has room, and otherwise changes
      nothing; a gang already recorded, or no tree, changes nothing either. */
  lemma AdmitGangLaw(s: State, leaf: string, key: string, need: Resource)
    requires Inv(s)
    ensures var s' := Step(s, OpAdmitGang(leaf, key, need));
      if s.tree.Some? && key !in s.gangBook && MayAsk(s.tree.value.shape, leaf, key, need)
         && WithinCeilings(s.tree.value.shape, leaf, need) && HasRoom(s.tree.value, leaf, need)
      then
        && s'.gangBook == s.gangBook[key := Hold(leaf, need)] && s'.bids == s.bids && PodsKept(s, s')
        && s'.tree.Some? && Gains(s.tree.value, s'.tree.value, leaf, key, need)
      else s' == s
  {
    if s.tree.Some? && key !in s.gangBook {
      AnswerLaw(s.tree.value, leaf, key, need);
    }
  }

  // ---------------------------------------------------------------- wound-wait

  /** `a` comes before `b`: higher priority, then the older gang, then the smaller uid. */
  predicate Ahead(a: WoundWaitKey, b: WoundWaitKey) {
    || a.priority > b.priority
    || (a.priority == b.priority && a.age > b.age)
    || (a.priority == b.priority && a.age == b.age && StringLess(a.uid, b.uid))
  }

  /** The bid that stands at `leaf` when a call comes at `now`: one no older than the timeout. */
  predicate Stands(s: State, leaf: string, now: int) {
    leaf in s.bids && now - s.bids[leaf].at <= s.timeout
  }

  /** The bids without a stale one at `leaf`. */
  function Fresh(s: State, leaf: string, now: int): map<string, Bid> {
    if Stands(s, leaf, now) then s.bids else s.bids - {leaf}
  }

  /** Everything a wound-wait call of a gang not yet recorded does. A standing bid of a gang
      ahead of it holds it back and is refreshed. Otherwise it gets in when it may ask and has
      room, which ends a standing bid of its own key; and failing for want of room it takes the
      head of the line. A stale bid is dropped on the way. */
  lemma AdmitGangWWLaw(s: State, leaf: string, key: string, need: Resource, rank: WoundWaitKey, now: int)
    requires Inv(s) && s.tree.Some? && key !in s.gangBook
    ensures var s', t := Step(s, OpAdmitGangWW(leaf, key, need, rank, now)), s.tree.value;
      var mayGetIn := MayAsk(t.shape, leaf, key, need) && WithinCeilings(t.shape, leaf, need);
      if Stands(s, leaf, now) && Ahead(s.bids[leaf].key, rank) then
        s' == s.(bids := s.bids[leaf := Bid(s.bids[leaf].key, now)])
      else if mayGetIn && HasRoom(t, leaf, need) then
        && s'.gangBook == s.gangBook[key := Hold(leaf, need)] && PodsKept(s, s')
        && s'.tree.Some? && Gains(t, s'.tree.value, leaf, key, need)
        && s'.bids == if Stands(s, leaf, now) && s.bids[leaf].key != rank then s.bids else s.bids - {leaf}
      else if mayGetIn then s' == s.(bids := s.bids[leaf := Bid(rank, now)])
      else s' == s.(bids := Fresh(s, leaf, now))
  {
    AnswerLaw(s.tree.value, leaf, key, need);
    if leaf in s.bids {
      RankIsAhead(s.bids[leaf].key, rank);
      RankIsAhead(rank, s.bids[leaf].key);
      AheadTotal(s.bids[leaf].key, rank);
    } else {
      assert s.bids - {leaf} == s.bids;
    }
    BidsLaw(s, leaf, rank, now);
  }

  // ---------------------------------------------------------------- answers

  /** Why a gang that holds nothing yet is refused: the first check it fails gives the reason. */
  ghost predicate ReasonIs(t: Tree, leaf: string, key: string, need: Resource, r: Admission) {
    var positive := (forall d :: d in need ==> need[d] >= 0) && exists d :: d in need && need[d] > 0;
    if key == "" then r == EmptyGangID
    else if !positive then r == NotPositive
    else if leaf !in t.shape then r == UnknownQueue
    else if !t.shape[leaf].leaf then r == NotALeaf
    else if !WithinCeilings(t.shape, leaf, need) then r == NeverFits
    else r == if HasRoom(t, leaf, need) then Admitted else NoRoom
  }

  /** A gang is told it is in exactly when it is recorded at that leaf afterwards, and that its leaf
      does not match exactly when it was recorded at another one before. */
  ghost predicate Truthful(s: State, s': State, leaf: string, key: string, r: Admission) {
    && (r == Admitted <==> key in s'.gangBook && s'.gangBook[key].leaf == leaf)
    && (r == LeafMismatch <==> key in s.gangBook && s.gangBook[key].leaf != leaf)
    && (r == NoTree <==> key !in s.gangBook && s.tree == None)
    && (key in s.gangBook || s.tree == None ==> s' == s)
  }

  lemma ReasonLaw(t: Tree, leaf: string, key: string, need: Resource)
    requires key !in t.gangs
    ensures ReasonIs(t, leaf, key, need, TreeAdmitGang(t, leaf, key, need).1)
  {
    CeilingsAre(t.shape, leaf, need);
    RoomIs(t, leaf, need);
  }

  /** The plain call answers truthfully and gives the reason. */
  lemma AdmitGangAnswers(s: State, leaf: string, key: string, need: Resource)
    requires Inv(s)
    ensures var s', r := Step(s, OpAdmitGang(leaf, key, need)), AdmitGang(s, leaf, key, need).1;
      && Truthful(s, s', leaf, key, r)
      && (key !in s.gangBook && s.tree.Some? ==> ReasonIs(s.tree.value, leaf, key, need, r))
  {
    if s.tree.Some? && key !in s.gangBook {
      ReasonLaw(s.tree.value, leaf, key, need);
    }
  }

  /** So does the wound-wait call, for which a standing bid of a gang ahead means no room. */
  lemma AdmitGangWWAnswers(s: State, leaf: string, key: string, need: Resource, rank: WoundWaitKey, now: int)
    requires Inv(s)
    ensures var s', r := Step(s, OpAdmitGangWW(leaf, key, need, rank, now)),
                         AdmitGangWW(s, leaf, key, need, rank, now).1;
      && Truthful(s, s', leaf, key, r)
      && (key !in s.gangBook && s.tree.Some? ==>
            if Stands(s, leaf, now) && Ahead(s.bids[leaf].key, rank) then r == NoRoom
            else ReasonIs(s.tree.value, leaf, key, need, r))
  {
    if s.tree.Some? && key !in s.gangBook {
      ReasonLaw(s.tree.value, leaf, key, need);
      BidsLaw(s, leaf, rank, now);
    }
  }

  lemma RankIsAhead(a: WoundWaitKey, b: WoundWaitKey)
    ensures WoundWaitLess(a, b) <==> Ahead(a, b)
  {}

  lemma AheadTotal(a: WoundWaitKey, b: WoundWaitKey)
    ensures a != b ==> Ahead(a, b) || Ahead(b, a)
    ensures !Ahead(a, a)
  {
    StringOrder(a.uid, b.uid, a.uid);
  }

  lemma BidsLaw(s: State, leaf: string, rank: WoundWaitKey, now: int)
    ensures Unexpired(s, leaf, now) == Fresh(s, leaf, now)
    ensures HeldBack(s.(bids := Fresh(s, leaf, now)), leaf, rank)
       <==> Stands(s, leaf, now) && Ahead(s.bids[leaf].key, rank)
    ensures Fresh(s, leaf, now)[leaf := Bid(rank, now)] == s.bids[leaf := Bid(rank, now)]
    ensures Fresh(s, leaf, now) - {leaf} == s.bids - {leaf}
  {
    if leaf in s.bids {
      RankIsAhead(s.bids[leaf].key, rank);
      AheadTotal(s.bids[leaf].key, rank);
    }
  }

  /** Over every run, in fields: while a bid stands, no gang of lower priority, nor a younger one
      of the same priority, nor one of the same priority and age with a larger uid, is newly
      admitted at its leaf through wound-wait. */
  lemma NobodyPassesTheBid(run: seq<State>, ops: seq<Op>, leaf: string, i: nat, j: nat, k: nat)
    requires IsRun(run, ops) && i <= k < j < |run| && leaf in run[i].bids
    requires forall x :: i <= x < j ==> !Expires(run[x], ops[x], leaf) && !HolderAdmitted(run[x], ops[x], leaf)
    requires Admits(run[k], ops[k], leaf)
    ensures var bid, rank := run[i].bids[leaf].key, ops[k].rank;
      && rank.priority >= bid.priority
      && (rank.priority == bid.priority ==> rank.age >= bid.age)
      && (rank.priority == bid.priority && rank.age == bid.age ==> !StringLess(bid.uid, rank.uid))
  {
    BidReign(run, ops, leaf, i, j);
    StringOrder(ops[k].rank.uid, run[i].bids[leaf].key.uid, ops[k].rank.uid);
  }

  // ---------------------------------------------------------------- release

  /** Releasing a recorded gang forgets it; its hold in the tree, if it has one, is dropped and
      taken back along the path. An unrecorded gang changes nothing. */
  lemma ReleaseGangLaw(s: State, key: string)
    requires Inv(s)
    ensures var s' := Step(s, OpReleaseGang(key));
      if key !in s.gangBook then s' == s
      else
        && s'.gangBook == s.gangBook - {key} && s'.bids == s.bids && PodsKept(s, s')
        && match s.tree
           case None => s'.tree == None
           case Some(t) =>
             && s'.tree.Some? && s'.tree.value.gangs == t.gangs - {key}
             && if key in t.gangs then Shifted(t, s'.tree.value, t.gangs[key].leaf, t.gangs[key].held, 0, -1)
                else s'.tree.value.usage == t.usage && s'.tree.value.shape == t.shape
  {
    if key in s.gangBook && s.tree.Some? && key in s.tree.value.gangs {
      RollShifts(s.tree.value, s.tree.value.gangs[key].leaf, Unreserve, s.tree.value.gangs[key].held);
    }
  }

  /** The in-flight usage falls by exactly what the tree no longer holds. */
  ghost predicate FallsWithHolds(t: Tree, t': Tree) {
    && t'.shape == t.shape && t'.usage.Keys == t.usage.Keys
    && forall q, d {:trigger HoldsFallAt(t, t', q, d)} :: q in t.usage ==> HoldsFallAt(t, t', q, d)
  }

  ghost predicate HoldsFallAt(t: Tree, t': Tree, q: string, d: string)
    requires q in t.usage && q in t'.usage
  {
    && Get(t'.usage[q].confirmed, d) == Get(t.usage[q].confirmed, d)
    && Get(t.usage[q].inflight, d) - Get(t'.usage[q].inflight, d)
       == HoldSum(t.shape, t.gangs, q, d) - HoldSum(t.shape, t'.gangs, q, d)
  }

  lemma ReleaseFalls(s: State, key: string)
    requires Inv(s) && s.tree.Some? && key in s.gangBook
    ensures var s' := ReleaseGang(s, key);
      && s'.tree.Some? && s'.gangBook == s.gangBook - {key} && s'.bids == s.bids && PodsKept(s, s')
      && s'.tree.value.gangs == s.tree.value.gangs - {key} && FallsWithHolds(s.tree.value, s'.tree.value)
  {
    var t, s' := s.tree.value, ReleaseGang(s, key);
    ReleaseGangLaw(s, key);
    assert Step(s, OpReleaseGang(key)) == s';
    forall q, d | q in t.usage ensures HoldsFallAt(t, s'.tree.value, q, d) {
      if key in t.gangs {
        HoldSumDrop(t.shape, t.gangs, key, q, d);
        assert ShiftedAt(t, s'.tree.value, t.gangs[key].leaf, t.gangs[key].held, 0, -1, q, d);
      } else {
        assert t.gangs - {key} == t.gangs;
      }
    }
  }

  lemma HoldsTrans(a: Tree, b: Tree, c: Tree)
    requires FallsWithHolds(a, b) && FallsWithHolds(b, c)
    ensures FallsWithHolds(a, c)
  {
    forall q, d | q in a.usage ensures HoldsFallAt(a, c, q, d) {
      assert HoldsFallAt(a, b, q, d) && HoldsFallAt(b, c, q, d);
    }
  }

  /** After releasing the gangs of `gone`. */
  ghost predicate Released(s: State, s': State, gone: set<string>) {
    && s'.gangBook == s.gangBook - gone && s'.bids == s.bids && PodsKept(s, s')
    && match s.tree
       case None => s'.tree == None
       case Some(t) => s'.tree.Some? && s'.tree.value.gangs == t.gangs - gone && FallsWithHolds(t, s'.tree.value)
  }

  lemma ReleasedNone(s: State)
    ensures Released(s, s, {})
  {
    if s.tree.Some? {
      var t := s.tree.value;
      assert t.gangs - {} == t.gangs;
      forall q, d | q in t.usage ensures HoldsFallAt(t, t, q, d) {}
    }
    assert s.gangBook - {} == s.gangBook;
  }

  lemma ReleasedNext(s: State, mid: State, gone: set<string>, key: string)
    requires Released(s, mid, gone) && Inv(mid) && key in mid.gangBook
    ensures Released(s, ReleaseGang(mid, key), gone + {key})
  {
    var s' := ReleaseGang(mid, key);
    assert s.gangBook - gone - {key} == s.gangBook - (gone + {key});
    if s.tree.Some? {
      ReleaseFalls(mid, key);
      HoldsTrans(s.tree.value, mid.tree.value, s'.tree.value);
      assert s.tree.value.gangs - gone - {key} == s.tree.value.gangs - (gone + {key});
    }
  }

  lemma {:induction false} ReleaseGangsFall(s: State, keys: seq<string>)
    requires Inv(s) && (forall g :: g in keys ==> g in s.gangBook)
    requires forall i, j :: 0 <= i < j < |keys| ==> keys[i] != keys[j]
    ensures Released(s, ReleaseGangs(s, keys), set g | g in keys)
    decreases |keys|
  {
    if keys == [] {
      ReleasedNone(s);
      assert (set g | g in keys) == {};
    } else {
      var n := |keys| - 1;
      ReleaseGangsFall(s, keys[..n]);
      ReleaseGangsInv(s, keys[..n]);
      assert keys == keys[..n] + [keys[n]];
      assert (set g | g in keys) == (set g | g in keys[..n]) + {keys[n]};
      ReleasedNext(s, ReleaseGangs(s, keys[..n]), (set g | g in keys[..n]), keys[n]);
    }
  }

  /** Collecting gangs releases exactly the recorded ones that are not live. */
  lemma GCGangsLaw(s: State, live: set<string>, order: seq<string>)
    requires Inv(s) && Enabled(s, OpGCGangs(live, order))
    ensures Released(s, Step(s, OpGCGangs(live, order)), s.gangBook.Keys - live)
  {
    ReleaseGangsFall(s, order);
    assert (set g | g in order) == s.gangBook.Keys - live;
  }

  // ---------------------------------------------------------------- rebuild

  /** After a rebuild the ledgers hold exactly the entries whose queue exists in the new tree,
      unchanged; the tree has the new shape, its holds are recorded ones on live leaves, and its
      counters are the sums over the ledger and those holds. The bids stay. */
  lemma RebuildLaw(s: State, shape: Shape, pods: seq<string>, gangs: seq<string>)
    requires Inv(s) && Enabled(s, OpRebuild(shape, pods, gangs))
    ensures var s' := Step(s, OpRebuild(shape, pods, gangs));
      && s'.book == (map u | u in s.book && s.book[u].leaf in shape :: s.book[u])
      && s'.gangBook == (map g | g in s.gangBook && s.gangBook[g].leaf in shape :: s.gangBook[g])
      && s'.bids == s.bids && s'.timeout == s.timeout
      && s'.tree.Some? && s'.tree.value.shape == shape && s'.tree.value.usage.Keys == shape.Keys
      && (forall g :: g in s'.tree.value.gangs ==>
            g in s.gangBook && s'.tree.value.gangs[g] == s.gangBook[g] && Live(shape, s.gangBook[g].leaf))
      && forall q, d :: q in shape ==>
           && Get(s'.tree.value.usage[q].confirmed, d) == PodSum(shape, s.book, Committed, q, d)
           && Get(s'.tree.value.usage[q].inflight, d)
              == PodSum(shape, s.book, Reserved, q, d) + HoldSum(shape, s'.tree.value.gangs, q, d)
  {
    var s' := Step(s, OpRebuild(shape, pods, gangs));
    var t := s'.tree.value;
    BalancedSeedPods(shape, s.book, pods);
    BalancedSeedGangs(Tree(shape, SeedPods(shape, s.book, pods), map[]), Survivors(shape, s.book, pods), s.gangBook,
      gangs);
    RebuildLedgers(s, shape, pods, gangs);
    forall q, d | q in shape
      ensures Get(t.usage[q].confirmed, d) == PodSum(shape, s.book, Committed, q, d)
      ensures Get(t.usage[q].inflight, d) == PodSum(shape, s.book, Reserved, q, d) + HoldSum(shape, t.gangs, q, d)
    {
      assert BalancedAt(t, Survivors(shape, s.book, pods), q, d);
      SurvivorsSum(shape, s.book, pods, Committed, q, d);
      SurvivorsSum(shape, s.book, pods, Reserved, q, d);
    }
  }

  lemma RebuildLedgers(s: State, shape: Shape, pods: seq<string>, gangs: seq<string>)
    requires Enabled(s, OpRebuild(shape, pods, gangs))
    ensures var s' := Rebuild(s, shape, pods, gangs);
      && s'.book == (map u | u in s.book && s.book[u].leaf in shape :: s.book[u])
      && s'.gangBook == (map g | g in s.gangBook && s.gangBook[g].leaf in shape :: s.gangBook[g])
      && s'.bids == s.bids && s'.timeout == s.timeout
  {}
}
