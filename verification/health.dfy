/**
  The per-backend health state machine (`checkBackendHealth`) and the
  periodic check of every backend (`HealthCheck`). The HTTP probe is an input:
  `probeOk` is true when the request could be built, was sent, and answered
  200; every other outcome is a failed probe.
 */
module Health {
  import opened Backends

  /**
    `checkBackendHealth` for backend `i`. A failed probe counts one more
    consecutive failure and takes a live backend down once the count reaches
    `MaxFailCount`; a successful probe clears the count and revives a dead
    backend. ActiveBackends moves by exactly the change in liveness, and
    nothing but backend `i`'s liveness and failure count and ActiveBackends
    changes.
   */
  function CheckBackendHealth(lb: Balancer, i: nat, probeOk: bool): (r: Balancer)
    requires i < |lb.backends|
    ensures |r.backends| == |lb.backends|
    ensures forall j :: 0 <= j < |lb.backends| && j != i ==> r.backends[j] == lb.backends[j]
    ensures r.backends[i] == lb.backends[i].(isAlive := r.backends[i].isAlive,
                                             failCount := r.backends[i].failCount)
    ensures r.current == lb.current && r.config == lb.config
    ensures r.metrics == lb.metrics.(activeBackends := r.metrics.activeBackends)
    ensures probeOk ==> r.backends[i].failCount == 0 && r.backends[i].isAlive
    ensures !probeOk ==>
      && r.backends[i].failCount == lb.backends[i].failCount + 1
      && (r.backends[i].isAlive <==>
            lb.backends[i].isAlive && lb.backends[i].failCount + 1 < lb.config.maxFailCount)
    ensures r.metrics.activeBackends ==
      lb.metrics.activeBackends + Ord(r.backends[i].isAlive) - Ord(lb.backends[i].isAlive)
    ensures Valid(lb) ==> Valid(r)
  {
    var b := lb.backends[i];
    var r :=
      if !probeOk then
        var failed := b.(failCount := b.failCount + 1);
        if failed.failCount >= lb.config.maxFailCount && failed.isAlive then
          lb.(backends := lb.backends[i := failed.(isAlive := false)],
              metrics := lb.metrics.(activeBackends := lb.metrics.activeBackends - 1))
        else
          lb.(backends := lb.backends[i := failed])
      else if !b.isAlive then
        lb.(backends := lb.backends[i := b.(failCount := 0, isAlive := true)],
            metrics := lb.metrics.(activeBackends := lb.metrics.activeBackends + 1))
      else
        lb.(backends := lb.backends[i := b.(failCount := 0)]);
    CountAliveUpdate(lb.backends, i, r.backends[i]);
    assert r.backends == lb.backends[i := r.backends[i]];
    r
  }

  /** Checks on two different backends touch disjoint state, so their order does not matter. */
  lemma ChecksCommute(lb: Balancer, i: nat, j: nat, okI: bool, okJ: bool)
    requires i < |lb.backends| && j < |lb.backends| && i != j
    ensures CheckBackendHealth(CheckBackendHealth(lb, i, okI), j, okJ)
         == CheckBackendHealth(CheckBackendHealth(lb, j, okJ), i, okI)
  {
  }

  /** The checks of backends `i..` in index order, one probe outcome per backend. */
  function CheckFrom(lb: Balancer, probes: seq<bool>, i: nat): (r: Balancer)
    requires |probes| == |lb.backends| && i <= |lb.backends|
    decreases |lb.backends| - i
    ensures |r.backends| == |lb.backends|
    ensures forall j :: 0 <= j < i ==> r.backends[j] == lb.backends[j]
    ensures forall j :: i <= j < |lb.backends| ==>
      r.backends[j] == CheckBackendHealth(lb, j, probes[j]).backends[j]
    ensures r.current == lb.current && r.config == lb.config
    ensures r.metrics == lb.metrics.(activeBackends := r.metrics.activeBackends)
    ensures r.metrics.activeBackends ==
      lb.metrics.activeBackends + CountAlive(r.backends) - CountAlive(lb.backends)
    ensures Valid(lb) ==> Valid(r)
  {
    if i == |lb.backends| then lb
    else
      var l1 := CheckBackendHealth(lb, i, probes[i]);
      assert l1.backends == lb.backends[i := l1.backends[i]];
      CountAliveUpdate(lb.backends, i, l1.backends[i]);
      CheckFrom(l1, probes, i + 1)
  }

  /**
    `HealthCheck`: every backend is checked once. The Go code runs the checks
    concurrently; since checks on different backends commute (ChecksCommute)
    they are applied here in index order. Each backend ends up exactly as a
    check of it alone would leave it, and ActiveBackends still counts the live
    backends.
   */
  function HealthCheck(lb: Balancer, probes: seq<bool>): (r: Balancer)
    requires |probes| == |lb.backends|
    ensures |r.backends| == |lb.backends|
    ensures forall j :: 0 <= j < |lb.backends| ==>
      r.backends[j] == CheckBackendHealth(lb, j, probes[j]).backends[j]
    ensures r.current == lb.current && r.config == lb.config
    ensures r.metrics == lb.metrics.(activeBackends := r.metrics.activeBackends)
    ensures r.metrics.activeBackends ==
      lb.metrics.activeBackends + CountAlive(r.backends) - CountAlive(lb.backends)
    ensures Valid(lb) ==> Valid(r)
  {
    CheckFrom(lb, probes, 0)
  }
}
