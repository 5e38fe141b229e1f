/**
  Plain round-robin (`RoundRobin`): each call probes the backends cyclically,
  starting after the one chosen last, and takes the first live one.
 */
module RoundRobin {
  import opened Wrappers
  import opened LbMetrics
  import opened Backends

  /** A fresh backend record for `url`: alive, no failures, weights and connections 0. */
  function FreshBackend(url: string): Backend {
    Backend(url, 0, 0, 0, true, 0)
  }

  /** `NewRoundRobin`: one live backend per URL, cursor 0, ActiveBackends = number of URLs. */
  function NewRoundRobin(urls: seq<string>, config: Config): (lb: Balancer)
    ensures |lb.backends| == |urls|
    ensures forall i :: 0 <= i < |urls| ==>
      && lb.backends[i].url == urls[i]
      && lb.backends[i].isAlive && lb.backends[i].failCount == 0
      && lb.backends[i].weight == 0 && lb.backends[i].currentWeight == 0
      && lb.backends[i].connections == 0
    ensures lb.current == 0 && lb.config == config
    ensures lb.metrics.totalRequests == 0 && lb.metrics.failedRequests == 0
    ensures lb.metrics.activeBackends == |urls| && lb.metrics.requestsPerBackend == map[]
    ensures Valid(lb)
  {
    var bs := seq(|urls|, i requires 0 <= i < |urls| => FreshBackend(urls[i]));
    AllFreshAlive(bs);
    Balancer(bs, 0, config, Metrics(0, 0, |urls|, map[]))
  }

  lemma {:induction false} AllFreshAlive(bs: seq<Backend>)
    requires forall i :: 0 <= i < |bs| ==> bs[i].isAlive
    ensures CountAlive(bs) == |bs|
  {
    if bs != [] {
      assert forall i :: 0 <= i < |bs| - 1 ==> bs[1..][i] == bs[i + 1];
      AllFreshAlive(bs[1..]);
    }
  }

  /** The first index a call probes: `(current + 1) % uint32(n)`, where `current + 1` wraps at 2^32. */
  function FirstProbe(c: u32, n: nat): (s: nat)
    requires 0 < n
    ensures s < n
  {
    ((c + 1) % U32) % n
  }

  /** The index probed at step `d` (from 0) of a call that starts from cursor `c`. */
  function ProbeIndex(c: u32, n: nat, d: nat): (k: nat)
    requires 0 < n && d < n
    ensures k < n
  {
    var s := FirstProbe(c, n);
    if s + d < n then s + d else s + d - n
  }

  /** The step at which a call starting from cursor `c` probes index `j`: the inverse of ProbeIndex. */
  function ProbeStep(c: u32, n: nat, j: nat): (d: nat)
    requires 0 < n && j < n
    ensures d < n && ProbeIndex(c, n, d) == j
  {
    var s := FirstProbe(c, n);
    if s <= j then j - s else j + n - s
  }

  /** The `n` probes of one call visit every backend exactly once. */
  lemma ProbeStepOfProbeIndex(c: u32, n: nat, d: nat)
    requires 0 < n && d < n
    ensures ProbeStep(c, n, ProbeIndex(c, n, d)) == d
  {
  }

  lemma MulSmall(k: int, n: int)
    requires n > 0 && -n < k * n < n
    ensures k == 0
  {
  }

  /** Euclidean remainder from a decomposition `x == q * n + r`. */
  lemma ModUnique(x: int, n: int, q: int, r: int)
    requires n > 0 && 0 <= r < n && x == q * n + r
    ensures x % n == r
  {
    var q0, r0 := x / n, x % n;
    assert (q - q0) * n == r0 - r;
    MulSmall(q - q0, n);
  }

  /** When the cursor is a backend index the probe order is current+1, current+2, ... (mod n). */
  lemma ProbeOrderIsCyclic(c: u32, n: nat, d: nat)
    requires 0 < n < U32 && c < n && d < n
    ensures ProbeIndex(c, n, d) == (c + 1 + d) % n
  {
    ModUnique(c + 1, U32, 0, c + 1);
    var s := FirstProbe(c, n);
    if c + 1 == n {
      ModUnique(c + 1, n, 1, 0);
      assert s == 0;
      ModUnique(c + 1 + d, n, 1, d);
    } else {
      ModUnique(c + 1, n, 0, c + 1);
      assert s == c + 1;
      if c + 1 + d < n {
        ModUnique(c + 1 + d, n, 0, c + 1 + d);
      } else {
        ModUnique(c + 1 + d, n, 1, c + 1 + d - n);
      }
    }
  }

  /** One iteration of the Go loop, `next = (next + 1) % uint32(n)`, yields the next probe index. */
  lemma StepIsProbe(c: u32, n: nat, next: nat, i: nat)
    requires 0 < n < U32 && i < n
    requires i == 0 ==> next == c
    requires i > 0 ==> next == ProbeIndex(c, n, i - 1)
    ensures ((next + 1) % U32) % n == ProbeIndex(c, n, i)
  {
    if i > 0 {
      ModUnique(next + 1, U32, 0, next + 1);
      if next + 1 == n {
        ModUnique(next + 1, n, 1, 0);
      } else {
        ModUnique(next + 1, n, 0, next + 1);
      }
    }
  }

  /**
    The probe loop of `RoundRobin.NextBackend`, from iteration `i` on with the
    loop variable at `next`: the first live backend it reaches, if any.
   */
  function Scan(bs: seq<Backend>, c: u32, next: nat, i: nat): (r: Option<nat>)
    requires 0 < |bs| < U32 && i <= |bs|
    requires i == 0 ==> next == c
    requires i > 0 ==> next == ProbeIndex(c, |bs|, i - 1)
    decreases |bs| - i
    ensures r.Some? ==> r.value < |bs| && bs[r.value].isAlive && i <= ProbeStep(c, |bs|, r.value)
    ensures forall d :: i <= d < |bs| && (r.Some? ==> d < ProbeStep(c, |bs|, r.value)) ==>
      !bs[ProbeIndex(c, |bs|, d)].isAlive
  {
    if i == |bs| then None
    else
      var nx := ((next + 1) % U32) % |bs|;
      StepIsProbe(c, |bs|, next, i);
      if bs[nx].isAlive then
        ProbeStepOfProbeIndex(c, |bs|, i);
        Some(nx)
      else
        Scan(bs, c, nx, i + 1)
  }

  /** A scan from the start that finds nothing has probed every backend and found it dead. */
  lemma ScanNoneAllDead(bs: seq<Backend>, c: u32)
    requires 0 < |bs| < U32
    requires Scan(bs, c, c, 0).None?
    ensures NoneAlive(bs)
  {
    forall j | 0 <= j < |bs| ensures !bs[j].isAlive {
      assert ProbeIndex(c, |bs|, ProbeStep(c, |bs|, j)) == j;
    }
  }

  /**
    `RoundRobin.NextBackend`. The chosen backend is alive, becomes the new
    cursor, and every backend probed before it in this call was dead; the call
    fails exactly when no backend is alive. Backends are never changed.
   */
  function Next(lb: Balancer): (r: Step)
    requires |lb.backends| < U32
    ensures r.lb.backends == lb.backends && r.lb.config == lb.config
    ensures r.pick.NoAvailableBackends? <==> NoneAlive(lb.backends)
    ensures r.pick.NoAvailableBackends? ==>
      r.lb.current == lb.current && Counted(lb.metrics, r.lb.metrics, None)
    ensures r.pick.Chosen? ==>
      && r.pick.index < |lb.backends|
      && lb.backends[r.pick.index].isAlive
      && r.lb.current == r.pick.index
      && (forall d :: 0 <= d < ProbeStep(lb.current, |lb.backends|, r.pick.index) ==>
            !lb.backends[ProbeIndex(lb.current, |lb.backends|, d)].isAlive)
      && Counted(lb.metrics, r.lb.metrics, Some(lb.backends[r.pick.index].url))
    ensures Valid(lb) ==> Valid(r.lb)
  {
    var failed := Step(NoAvailableBackends, lb.(metrics := RecordFailed(lb.metrics)));
    if |lb.backends| == 0 then failed
    else
      match Scan(lb.backends, lb.current, lb.current, 0)
      case None =>
        ScanNoneAllDead(lb.backends, lb.current);
        failed
      case Some(k) =>
        Step(Chosen(k), lb.(current := k, metrics := RecordServed(lb.metrics, lb.backends[k].url)))
  }

  /** `GetMetrics`: a snapshot of the counters; under the invariant ActiveBackends is the number of live backends. */
  function GetMetrics(lb: Balancer): (m: Metrics)
    ensures m.totalRequests == lb.metrics.totalRequests
    ensures m.failedRequests == lb.metrics.failedRequests
    ensures m.requestsPerBackend == lb.metrics.requestsPerBackend
    ensures m.activeBackends == lb.metrics.activeBackends
    ensures Valid(lb) ==> m.activeBackends == CountAlive(lb.backends) && Accounted(m)
  {
    Metrics(lb.metrics.totalRequests, lb.metrics.failedRequests, lb.metrics.activeBackends,
            map u | u in lb.metrics.requestsPerBackend :: lb.metrics.requestsPerBackend[u])
  }
}
