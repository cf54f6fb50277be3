/** Headroom vectors against the admission gate (pkg/queue/queue.go). */
module Headroom {
  import opened Vectors
  import opened QueueTree

  /** `room` holds, for each dimension some queue of `seen` bounds, the least slack. */
  ghost predicate Tightest(t: Shape, u: Usage, seen: set<string>, room: Resource) {
    Bounds(t, u, seen, room) && forall d :: d in room ==> Attained(t, u, seen, d, room[d])
  }

  ghost predicate Bounds(t: Shape, u: Usage, seen: set<string>, room: Resource) {
    forall q, d :: q in seen && d in SlackAt(t, u, q) ==> d in room && room[d] <= SlackAt(t, u, q)[d]
  }

  ghost predicate Attained(t: Shape, u: Usage, seen: set<string>, d: string, x: int) {
    exists q :: q in seen && d in SlackAt(t, u, q) && x == SlackAt(t, u, q)[d]
  }

  function SlackAt(t: Shape, u: Usage, q: string): Resource {
    if q in t && q in u then Slack(t[q].max, Used(u[q])) else map[]
  }

  ghost predicate IsHeadroom(t: Shape, u: Usage, path: string, room: Resource) {
    Tightest(t, u, (set q | q in t && OnPath(t, path, q)), room)
  }

  function MergeMin(room: Resource, slack: Resource): Resource {
    map d | d in room.Keys + slack.Keys ::
      if d !in room || (d in slack && slack[d] < room[d]) then slack[d] else room[d]
  }

  method MinInto(room: Resource, slack: Resource) returns (out: Resource)
    ensures out == MergeMin(room, slack)
  {
    out := room;
    var todo := slack.Keys;
    while todo != {}
      invariant todo <= slack.Keys
      invariant out == map d | d in room.Keys + (slack.Keys - todo) ::
        if d !in room || (d in slack && d !in todo && slack[d] < room[d]) then slack[d] else room[d]
      decreases todo
    {
      var d :| d in todo;
      if d !in out || slack[d] < out[d] {
        out := out[d := slack[d]];
      }
      todo := todo - {d};
    }
  }

  lemma TightestStep(t: Shape, u: Usage, seen: set<string>, room: Resource, q: string)
    requires Tightest(t, u, seen, room)
    ensures Tightest(t, u, seen + {q}, MergeMin(room, SlackAt(t, u, q)))
  {
    BoundsStep(t, u, seen, room, q);
    var out := MergeMin(room, SlackAt(t, u, q));
    forall d | d in out ensures Attained(t, u, seen + {q}, d, out[d]) {
      AttainedStep(t, u, seen, room, q, d);
    }
  }

  lemma BoundsStep(t: Shape, u: Usage, seen: set<string>, room: Resource, q: string)
    requires Bounds(t, u, seen, room)
    ensures Bounds(t, u, seen + {q}, MergeMin(room, SlackAt(t, u, q)))
  {}

  lemma AttainedStep(t: Shape, u: Usage, seen: set<string>, room: Resource, q: string, d: string)
    requires d in room ==> Attained(t, u, seen, d, room[d])
    requires d in MergeMin(room, SlackAt(t, u, q))
    ensures Attained(t, u, seen + {q}, d, MergeMin(room, SlackAt(t, u, q))[d])
  {
    var slack := SlackAt(t, u, q);
    if d !in room || (d in slack && slack[d] < room[d]) {
      assert q in seen + {q};
    } else {
      var p :| p in seen && d in SlackAt(t, u, p) && room[d] == SlackAt(t, u, p)[d];
      assert p in seen + {q};
    }
  }

  /** Comparing a request with headroom on just the dimensions headroom lists. */
  predicate HeadroomFits(room: Resource, request: Resource) {
    forall d :: d in request && d in room ==> request[d] <= room[d]
  }

  /** For every request, comparing with headroom is the admission gate on the request's
      positive part, even where a queue is over max and its slack is clamped to 0. */
  lemma HeadroomIsGate(t: Shape, u: Usage, path: string, room: Resource, request: Resource)
    requires u.Keys == t.Keys && IsHeadroom(t, u, path, room)
    ensures HeadroomFits(room, request) <==> CanFit(t, u, path, ClampNonNeg(request))
  {
    if HeadroomFits(room, request) {
      forall q | q in t && OnPath(t, path, q) ensures FitsHere(t[q].max, Used(u[q]), ClampNonNeg(request)) {
        HeadroomAtQueue(t, u, path, room, request, q);
      }
    }
    if CanFit(t, u, path, ClampNonNeg(request)) {
      GateWithinHeadroom(t, u, path, room, request);
    }
  }

  lemma HeadroomAtQueue(t: Shape, u: Usage, path: string, room: Resource, request: Resource, q: string)
    requires u.Keys == t.Keys && IsHeadroom(t, u, path, room) && HeadroomFits(room, request)
    requires q in t && OnPath(t, path, q)
    ensures FitsHere(t[q].max, Used(u[q]), ClampNonNeg(request))
  {
    assert q in set q | q in t && OnPath(t, path, q);
    assert forall d :: d in t[q].max ==> d in SlackAt(t, u, q);
  }

  lemma GateWithinHeadroom(t: Shape, u: Usage, path: string, room: Resource, request: Resource)
    requires u.Keys == t.Keys && IsHeadroom(t, u, path, room) && CanFit(t, u, path, ClampNonNeg(request))
    ensures HeadroomFits(room, request)
  {
    var seen := set q | q in t && OnPath(t, path, q);
    forall d | d in request && d in room ensures request[d] <= room[d] {
      assert Attained(t, u, seen, d, room[d]);
      var q :| q in seen && d in SlackAt(t, u, q) && room[d] == SlackAt(t, u, q)[d];
      assert FitsHere(t[q].max, Used(u[q]), ClampNonNeg(request));
    }
  }

  /** The room that remains at `q` covers what the request lists at zero or below. */
  predicate LowEntriesFit(t: Shape, u: Usage, q: string, request: Resource) {
    q in t && q in u ==> forall d :: d in request && request[d] <= 0 && d in t[q].max ==>
      request[d] <= t[q].max[d] - Get(Used(u[q]), d)
  }

  /** Exactly when: the gate lets a request through if and only if headroom does and each
      queue of the path has room for the entries that are not positive. */
  lemma HeadroomExact(t: Shape, u: Usage, path: string, room: Resource, request: Resource)
    requires u.Keys == t.Keys && IsHeadroom(t, u, path, room)
    ensures CanFit(t, u, path, request)
       <==> HeadroomFits(room, request) && forall q :: q in t && OnPath(t, path, q) ==> LowEntriesFit(t, u, q, request)
  {
    HeadroomIsGate(t, u, path, room, request);
    forall q | q in t && OnPath(t, path, q)
      ensures FitsHere(t[q].max, Used(u[q]), request)
         <==> FitsHere(t[q].max, Used(u[q]), ClampNonNeg(request)) && LowEntriesFit(t, u, q, request)
    {
      SplitEntries(t[q].max, Used(u[q]), request);
    }
  }

  /** A request fits one queue when its positive part and its other entries do. */
  lemma SplitEntries(max: Resource, used: Resource, request: Resource)
    ensures FitsHere(max, used, request) <==>
      && FitsHere(max, used, ClampNonNeg(request))
      && forall d :: d in request && request[d] <= 0 && d in max ==> request[d] <= max[d] - Get(used, d)
  {
    var positive := ClampNonNeg(request);
    assert forall d :: d in positive <==> d in request && request[d] > 0;
    assert forall d :: d in positive ==> positive[d] == request[d];
  }

  /** On requests with positive entries the gate and the comparison agree. */
  lemma HeadroomAgrees(t: Shape, u: Usage, path: string, room: Resource, request: Resource)
    requires u.Keys == t.Keys && IsHeadroom(t, u, path, room)
    requires forall d :: d in request ==> request[d] > 0
    ensures HeadroomFits(room, request) <==> CanFit(t, u, path, request)
  {
    HeadroomExact(t, u, path, room, request);
  }

  /** An entry of zero tells them apart in every tree with a queue of the path over max: the
      gate refuses what headroom allows. */
  lemma HeadroomDiffersAtZero(t: Shape, u: Usage, path: string, room: Resource, q: string, d: string)
    requires u.Keys == t.Keys && IsHeadroom(t, u, path, room)
    requires q in t && OnPath(t, path, q) && d in t[q].max && t[q].max[d] < Get(Used(u[q]), d)
    ensures !CanFit(t, u, path, map[d := 0]) && HeadroomFits(room, map[d := 0])
  {
    var zero: Resource := map[d := 0];
    assert zero[d] == 0 && ClampNonNeg(zero) == map[];
    assert !LowEntriesFit(t, u, q, zero);
    HeadroomExact(t, u, path, room, zero);
    HeadroomIsGate(t, u, path, room, zero);
  }
}
