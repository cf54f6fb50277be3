/** Head-of-line gang admission: what a leaf's bid guarantees while it stands, and
    how long it can stand (AdmitGangWW in pkg/framework/engine.go). */
module WoundWait {
  import opened Paths
  import opened Ledger

  /** `a` ranks at least as high as `b`. */
  predicate AtLeast(a: WoundWaitKey, b: WoundWaitKey) {
    a == b || WoundWaitLess(a, b)
  }

  /** WoundWaitLess is a strict total order on ranking keys. */
  lemma WoundWaitOrder(a: WoundWaitKey, b: WoundWaitKey, c: WoundWaitKey)
    ensures !WoundWaitLess(a, a)
    ensures a == b || WoundWaitLess(a, b) || WoundWaitLess(b, a)
    ensures WoundWaitLess(a, b) && WoundWaitLess(b, c) ==> WoundWaitLess(a, c)
  {
    StringLessTrichotomy(a.uid, a.uid);
    StringLessTrichotomy(a.uid, b.uid);
    if StringLess(a.uid, b.uid) && StringLess(b.uid, c.uid) {
      StringLessTrans(a.uid, b.uid, c.uid);
    }
  }

  /** A wound-wait call at `leaf` that gets past the ledger and the tree checks. */
  predicate Contends(s: State, op: Op, leaf: string) {
    op.OpAdmitGangWW? && op.leaf == leaf && op.key !in s.gangBook && s.tree.Some?
  }

  /** The call comes more than the timeout after the bid was last refreshed. */
  predicate Expires(s: State, op: Op, leaf: string) {
    Contends(s, op, leaf) && leaf in s.bids && op.now - s.bids[leaf].at > s.timeout
  }

  /** The call newly admits a gang at `leaf` through wound-wait. */
  ghost predicate Admits(s: State, op: Op, leaf: string)
    requires Enabled(s, op)
  {
    Contends(s, op, leaf) && op.key in Step(s, op).gangBook
  }

  /** The call admits a gang under the very key that holds the bid. */
  ghost predicate HolderAdmitted(s: State, op: Op, leaf: string)
    requires Enabled(s, op)
  {
    leaf in s.bids && Admits(s, op, leaf) && op.rank == s.bids[leaf].key
  }

  lemma {:induction false} DeletePodsBids(s: State, uids: seq<string>)
    ensures DeletePods(s, uids).bids == s.bids && DeletePods(s, uids).timeout == s.timeout
    decreases |uids|
  {
    if uids != [] {
      DeletePodsBids(s, uids[..|uids| - 1]);
    }
  }

  lemma {:induction false} ReleaseGangsBids(s: State, keys: seq<string>)
    ensures ReleaseGangs(s, keys).bids == s.bids && ReleaseGangs(s, keys).timeout == s.timeout
    decreases |keys|
  {
    if keys != [] {
      ReleaseGangsBids(s, keys[..|keys| - 1]);
    }
  }

  /** Only a contending call at the leaf touches the leaf's bid. */
  lemma OtherCallsKeepBid(s: State, op: Op, leaf: string)
    requires Enabled(s, op) && !Contends(s, op, leaf)
    ensures var s' := Step(s, op);
      (leaf in s'.bids <==> leaf in s.bids) && (leaf in s.bids ==> s'.bids[leaf] == s.bids[leaf])
    ensures Step(s, op).timeout == s.timeout
  {
    match op
    case OpGCBookings(_, order) => DeletePodsBids(s, order);
    case OpGCGangs(_, order) => ReleaseGangsBids(s, order);
    case _ =>
  }

  /** One call, bid standing: the bid is lost exactly when it expires or its holder is
      admitted; otherwise its rank does not fall. A call that does not find the bid
      expired admits no gang ranked strictly below it. */
  lemma BidStep(s: State, op: Op, leaf: string)
    requires Enabled(s, op) && leaf in s.bids
    ensures Step(s, op).timeout == s.timeout
    ensures !Expires(s, op, leaf) && !HolderAdmitted(s, op, leaf) ==>
      leaf in Step(s, op).bids && AtLeast(Step(s, op).bids[leaf].key, s.bids[leaf].key)
    ensures !Expires(s, op, leaf) && HolderAdmitted(s, op, leaf) ==> leaf !in Step(s, op).bids
    ensures Expires(s, op, leaf) && leaf in Step(s, op).bids ==>
      Step(s, op).bids[leaf] == Bid(op.rank, op.now) && !Admits(s, op, leaf)
    ensures !Expires(s, op, leaf) && Admits(s, op, leaf) ==> AtLeast(op.rank, s.bids[leaf].key)
  {
    if Contends(s, op, leaf) {
      WoundWaitOrder(op.rank, s.bids[leaf].key, op.rank);
    } else {
      OtherCallsKeepBid(s, op, leaf);
    }
  }

  /** Over every run: while a bid stands at a leaf its rank never falls, and no gang
      ranked strictly below it is newly admitted at that leaf through wound-wait. */
  lemma {:induction false} BidReign(run: seq<State>, ops: seq<Op>, leaf: string, i: nat, j: nat)
    requires IsRun(run, ops) && i <= j < |run| && leaf in run[i].bids
    requires forall k :: i <= k < j ==> !Expires(run[k], ops[k], leaf) && !HolderAdmitted(run[k], ops[k], leaf)
    ensures leaf in run[j].bids && AtLeast(run[j].bids[leaf].key, run[i].bids[leaf].key)
    ensures forall k :: i <= k < j && Admits(run[k], ops[k], leaf) ==> AtLeast(ops[k].rank, run[i].bids[leaf].key)
    decreases j
  {
    if i < j {
      BidReign(run, ops, leaf, i, j - 1);
      BidStep(run[j - 1], ops[j - 1], leaf);
      var first, last := run[i].bids[leaf].key, run[j - 1].bids[leaf].key;
      WoundWaitOrder(run[j].bids[leaf].key, last, first);
      if Admits(run[j - 1], ops[j - 1], leaf) {
        WoundWaitOrder(ops[j - 1].rank, last, first);
      }
    }
  }

  /** The time of the last wound-wait call at `leaf` among `ops`, or `start`. */
  function LastCall(ops: seq<Op>, leaf: string, start: int): int {
    if ops == [] then start
    else
      var op := ops[|ops| - 1];
      if op.OpAdmitGangWW? && op.leaf == leaf then op.now else LastCall(ops[..|ops| - 1], leaf, start)
  }

  /** Every wound-wait call at the leaf comes from a lower-ranked gang without a hold,
      no later than the timeout after the one before. */
  ghost predicate SteadyContention(run: seq<State>, ops: seq<Op>, leaf: string, bid: Bid)
    requires IsRun(run, ops)
  {
    forall k :: 0 <= k < |ops| && ops[k].OpAdmitGangWW? && ops[k].leaf == leaf ==>
      && Contends(run[k], ops[k], leaf)
      && WoundWaitLess(bid.key, ops[k].rank)
      && ops[k].now - LastCall(ops[..k], leaf, bid.at) <= run[k].timeout
  }

  /** Under steady contention from below the bid survives for ever and shuts out every
      contender, whether or not its holder ever calls again: the timeout is not a bound
      on how long an absent gang can block a leaf. */
  lemma {:induction false} BidSurvives(run: seq<State>, ops: seq<Op>, leaf: string, j: nat)
    requires IsRun(run, ops) && j < |run| && leaf in run[0].bids
    requires SteadyContention(run, ops, leaf, run[0].bids[leaf])
    ensures leaf in run[j].bids
    ensures run[j].bids[leaf] == Bid(run[0].bids[leaf].key, LastCall(ops[..j], leaf, run[0].bids[leaf].at))
    ensures forall k :: 0 <= k < j ==> !Admits(run[k], ops[k], leaf)
    decreases j
  {
    if j > 0 {
      BidSurvives(run, ops, leaf, j - 1);
      var op := ops[j - 1];
      assert ops[..j][..j - 1] == ops[..j - 1];
      if Contends(run[j - 1], op, leaf) {
        WoundWaitOrder(run[0].bids[leaf].key, op.rank, op.rank);
      } else {
        OtherCallsKeepBid(run[j - 1], op, leaf);
      }
    }
  }
}
