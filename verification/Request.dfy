/** A pod's effective request (pkg/resource/request.go). */
module Request {
  import opened Vectors
  import opened QueueTree

  /** An init container; a sidecar keeps running for the pod's whole life. */
  datatype InitContainer = InitContainer(sidecar: bool, req: Resource)

  datatype PodSpec = PodSpec(containers: seq<Resource>, inits: seq<InitContainer>, overhead: Option<Resource>)

  function ContainerSum(cs: seq<Resource>, d: string): int {
    if cs == [] then 0 else ContainerSum(cs[..|cs| - 1], d) + Get(cs[|cs| - 1], d)
  }

  /** The sidecars among `inits` together. */
  function SidecarSum(inits: seq<InitContainer>, d: string): int {
    if inits == [] then 0
    else
      var last := inits[|inits| - 1];
      SidecarSum(inits[..|inits| - 1], d) + (if last.sidecar then Get(last.req, d) else 0)
  }

  /** What runs while the ordinary init container at `i` does: it and the sidecars before it. */
  function PhasePeak(inits: seq<InitContainer>, i: nat, d: string): int
    requires i < |inits|
  {
    SidecarSum(inits[..i], d) + Get(inits[i].req, d)
  }

  function Overhead(pod: PodSpec, d: string): int {
    if pod.overhead == None then 0 else Get(pod.overhead.value, d)
  }

  ghost predicate NonNegativePod(pod: PodSpec) {
    && (forall i :: 0 <= i < |pod.containers| ==> NonNegative(pod.containers[i]))
    && forall i :: 0 <= i < |pod.inits| ==> NonNegative(pod.inits[i].req)
  }

  /** The steady state: all containers and all sidecars. */
  function Steady(pod: PodSpec, d: string): int {
    ContainerSum(pod.containers, d) + SidecarSum(pod.inits, d)
  }

  /** `r` is the least request that holds the pod in its steady state and in every init
      phase, plus the overhead. */
  ghost predicate LeastSufficient(pod: PodSpec, d: string, r: int) {
    var need := r - Overhead(pod, d);
    && need >= Steady(pod, d)
    && (forall i :: 0 <= i < |pod.inits| && !pod.inits[i].sidecar ==> need >= PhasePeak(pod.inits, i, d))
    && (need == Steady(pod, d) ||
        exists i :: 0 <= i < |pod.inits| && !pod.inits[i].sidecar && need == PhasePeak(pod.inits, i, d))
  }

  lemma {:induction false} SumsNonNegative(pod: PodSpec, n: nat, m: nat, d: string)
    requires NonNegativePod(pod) && n <= |pod.containers| && m <= |pod.inits|
    ensures ContainerSum(pod.containers[..n], d) >= 0 && SidecarSum(pod.inits[..m], d) >= 0
    decreases n + m
  {
    if n > 0 {
      SumsNonNegative(pod, n - 1, m, d);
      assert pod.containers[..n][..n - 1] == pod.containers[..n - 1];
    } else if m > 0 {
      SumsNonNegative(pod, n, m - 1, d);
      assert pod.inits[..m][..m - 1] == pod.inits[..m - 1];
    }
  }

  /** What the init loop has accumulated on one dimension after `n` init containers: the
      peak is the larger of the sidecars so far and the worst init phase so far. */
  ghost predicate InitState(inits: seq<InitContainer>, n: nat, d: string, sidecars: int, peak: int)
    requires n <= |inits|
  {
    && sidecars == SidecarSum(inits[..n], d)
    && peak >= sidecars
    && (forall i :: 0 <= i < n && !inits[i].sidecar ==> peak >= PhasePeak(inits, i, d))
    && (peak == sidecars || exists i :: 0 <= i < n && !inits[i].sidecar && peak == PhasePeak(inits, i, d))
  }

  lemma InitStep(inits: seq<InitContainer>, n: nat, d: string, sidecars: int, peak: int, sidecars': int, peak': int)
    requires n < |inits| && InitState(inits, n, d, sidecars, peak) && Get(inits[n].req, d) >= 0
    requires sidecars' == if inits[n].sidecar then sidecars + Get(inits[n].req, d) else sidecars
    requires var x := if inits[n].sidecar then sidecars' else sidecars + Get(inits[n].req, d);
      peak' == if x > peak then x else peak
    ensures InitState(inits, n + 1, d, sidecars', peak')
  {
    assert inits[..n + 1][..n] == inits[..n];
    if peak' == peak && peak != sidecars {
      var i :| 0 <= i < n && !inits[i].sidecar && peak == PhasePeak(inits, i, d);
      assert 0 <= i < n + 1;
    } else if peak' != peak && !inits[n].sidecar {
      assert peak' == PhasePeak(inits, n, d);
    }
  }

  lemma InitNonNegative(pod: PodSpec, n: nat, d: string, sidecars: int, peak: int)
    requires NonNegativePod(pod) && n <= |pod.inits| && InitState(pod.inits, n, d, sidecars, peak)
    ensures peak >= 0 && sidecars >= 0
  {
    SumsNonNegative(pod, 0, n, d);
  }

  method SumContainers(cs: seq<Resource>) returns (reqs: Resource)
    ensures forall d :: Get(reqs, d) == ContainerSum(cs, d)
  {
    reqs := map[];
    for i := 0 to |cs|
      invariant forall d :: Get(reqs, d) == ContainerSum(cs[..i], d)
    {
      assert cs[..i + 1][..i] == cs[..i];
      reqs := AddLoop(reqs, cs[i]);
    }
    assert cs[..|cs|] == cs;
  }

  /** What the loop has accumulated on every dimension: the container sum with the sidecars
      seen so far added in, the sidecars alone, and the peak. */
  ghost predicate Accumulated(pod: PodSpec, n: nat, reqs: Resource, sidecars: Resource, peak: Resource)
    requires n <= |pod.inits|
  {
    forall d {:trigger AccumulatedAt(pod, n, reqs, sidecars, peak, d)} :: AccumulatedAt(pod, n, reqs, sidecars, peak, d)
  }

  ghost predicate AccumulatedAt(pod: PodSpec, n: nat, reqs: Resource, sidecars: Resource, peak: Resource, d: string)
    requires n <= |pod.inits|
  {
    && Get(reqs, d) == ContainerSum(pod.containers, d) + Get(sidecars, d)
    && InitState(pod.inits, n, d, Get(sidecars, d), Get(peak, d))
  }

  /** One turn of the init loop. */
  method InitTurn(pod: PodSpec, n: nat, reqs: Resource, sidecars: Resource, peak: Resource)
    returns (reqs': Resource, sidecars': Resource, peak': Resource)
    requires NonNegativePod(pod) && n < |pod.inits| && Accumulated(pod, n, reqs, sidecars, peak)
    ensures Accumulated(pod, n + 1, reqs', sidecars', peak')
  {
    var c := pod.inits[n];
    var together := AddLoop(sidecars, c.req);
    var p := MaxLoop(peak, together);
    var r, s := reqs, sidecars;
    if c.sidecar {
      r := AddLoop(reqs, c.req);
      s := together;
    }
    var next := n + 1;
    forall d ensures AccumulatedAt(pod, next, r, s, p, d) {
      assert AccumulatedAt(pod, n, reqs, sidecars, peak, d);
      NonNegativeGet(c.req, d);
      InitNonNegative(pod, n, d, Get(sidecars, d), Get(peak, d));
      InitStep(pod.inits, n, d, Get(sidecars, d), Get(peak, d), Get(s, d), Get(p, d));
    }
    return r, s, p;
  }

  lemma Combine(pod: PodSpec, d: string, reqs: int, peak: int, sidecars: int)
    requires NonNegativePod(pod) && InitState(pod.inits, |pod.inits|, d, sidecars, peak)
    requires reqs == ContainerSum(pod.containers, d) + sidecars
    ensures LeastSufficient(pod, d, (if peak > reqs then peak else reqs) + Overhead(pod, d))
    ensures peak >= 0 && reqs >= 0
  {
    assert pod.inits[..|pod.inits|] == pod.inits && pod.containers[..|pod.containers|] == pod.containers;
    SumsNonNegative(pod, |pod.containers|, |pod.inits|, d);
  }

  /** The effective request is exactly what the pod needs at its busiest, per dimension. */
  method EffectiveRequest(pod: PodSpec) returns (eff: Resource)
    requires NonNegativePod(pod)
    ensures forall d :: LeastSufficient(pod, d, Get(eff, d))
  {
    var reqs := SumContainers(pod.containers);
    var sidecars, peak: Resource := map[], map[];
    forall d ensures AccumulatedAt(pod, 0, reqs, sidecars, peak, d) {}
    for n := 0 to |pod.inits|
      invariant Accumulated(pod, n, reqs, sidecars, peak)
    {
      reqs, sidecars, peak := InitTurn(pod, n, reqs, sidecars, peak);
    }
    forall d ensures LeastSufficient(pod, d, Get(Max(reqs, peak), d) + Overhead(pod, d)) {
      assert AccumulatedAt(pod, |pod.inits|, reqs, sidecars, peak, d);
      Combine(pod, d, Get(reqs, d), Get(peak, d), Get(sidecars, d));
    }
    eff := MaxLoop(reqs, peak);
    if pod.overhead.Some? {
      eff := AddLoop(eff, pod.overhead.value);
    }
  }
}
