/**
  Smooth weighted round-robin (`WeightedRoundRobin`), the nginx scheme: each
  call raises every live backend's running weight by its weight, picks the
  live backend with the largest running weight, and makes the winner pay back
  the total live weight.
 */
module Weighted {
  import opened Wrappers
  import opened LbMetrics
  import opened Backends
  import RoundRobin

  /**
    `NewWeightedRoundRobin`: the round-robin initial state, with backend `i`
    given `Weight = CurrentWeight = weights[i]`. The Go code indexes the
    backends by the positions of `weights`, so there may be no more weights
    than URLs; backends past the last weight keep weight 0.
   */
  function NewWeightedRoundRobin(urls: seq<string>, weights: seq<int>, config: Config): (lb: Balancer)
    requires |weights| <= |urls|
    ensures |lb.backends| == |urls|
    ensures forall i :: 0 <= i < |urls| ==>
      && lb.backends[i].url == urls[i]
      && lb.backends[i].isAlive && lb.backends[i].failCount == 0
      && lb.backends[i].connections == 0
      && lb.backends[i].weight == lb.backends[i].currentWeight
      && lb.backends[i].weight == (if i < |weights| then weights[i] else 0)
    ensures lb.current == 0 && lb.config == config
    ensures lb.metrics.totalRequests == 0 && lb.metrics.failedRequests == 0
    ensures lb.metrics.activeBackends == |urls| && lb.metrics.requestsPerBackend == map[]
    ensures Valid(lb)
  {
    var rr := RoundRobin.NewRoundRobin(urls, config);
    var bs := seq(|urls|, i requires 0 <= i < |urls| =>
      if i < |weights| then rr.backends[i].(weight := weights[i], currentWeight := weights[i])
      else rr.backends[i]);
    CountAliveSame(rr.backends, bs);
    rr.(backends := bs)
  }

  /** Step one for a single backend: a live backend's running weight grows by its weight. */
  function Raise(b: Backend): Backend {
    if b.isAlive then b.(currentWeight := b.currentWeight + b.weight) else b
  }

  /** Step one for every backend. */
  function Raised(bs: seq<Backend>): (raised: seq<Backend>)
    ensures |raised| == |bs| && forall j :: 0 <= j < |bs| ==> raised[j] == Raise(bs[j])
    ensures SameAliveness(bs, raised)
  {
    seq(|bs|, j requires 0 <= j < |bs| => Raise(bs[j]))
  }

  /**
    `best` is the first live backend, by index, whose running weight is
    maximal among the live ones; `None` when no backend is alive.
   */
  predicate FirstMaxLive(bs: seq<Backend>, best: Option<nat>) {
    match best
    case None => NoneAlive(bs)
    case Some(k) =>
      && k < |bs| && bs[k].isAlive
      && (forall j :: 0 <= j < |bs| && bs[j].isAlive ==> bs[j].currentWeight <= bs[k].currentWeight)
      && (forall j :: 0 <= j < k && bs[j].isAlive ==> bs[j].currentWeight < bs[k].currentWeight)
  }

  datatype Pass = Pass(backends: seq<Backend>, best: Option<nat>, totalWeight: int)

  /**
    The selection loop of `WeightedRoundRobin.NextBackend` from index `i` on.
    Backends before `i` are already raised and `best` is the winner among
    them; as in the Go code a later backend replaces the winner only when its
    raised weight is strictly larger, so ties keep the earlier one.
   */
  function WeightedPass(bs: seq<Backend>, i: nat, best: Option<nat>, total: int): (r: Pass)
    requires i <= |bs|
    requires FirstMaxLive(bs[..i], best)
    decreases |bs| - i
    ensures |r.backends| == |bs|
    ensures forall j :: 0 <= j < i ==> r.backends[j] == bs[j]
    ensures forall j :: i <= j < |bs| ==> r.backends[j] == Raise(bs[j])
    ensures r.totalWeight == total + LiveWeight(bs[i..])
    ensures FirstMaxLive(r.backends, r.best)
  {
    if i == |bs| then
      assert bs[..i] == bs;
      Pass(bs, best, total)
    else
      assert bs[i..][1..] == bs[i + 1..];
      if !bs[i].isAlive then
        assert bs[..i + 1] == bs[..i] + [bs[i]];
        WeightedPass(bs, i + 1, best, total)
      else
        var b := bs[i].(currentWeight := bs[i].currentWeight + bs[i].weight);
        var bs1 := bs[i := b];
        var best1 := if best.None? || b.currentWeight > bs[best.value].currentWeight then Some(i) else best;
        assert bs1[..i + 1] == bs[..i] + [b];
        assert bs1[i + 1..] == bs[i + 1..];
        WeightedPass(bs1, i + 1, best1, total + bs[i].weight)
  }

  /** Raising the live backends adds the live weight to the sum of running weights. */
  lemma {:induction false} SumRaised(bs: seq<Backend>, raised: seq<Backend>)
    requires |raised| == |bs| && forall j :: 0 <= j < |bs| ==> raised[j] == Raise(bs[j])
    ensures SumCurrentWeight(raised) == SumCurrentWeight(bs) + LiveWeight(bs)
  {
    if bs != [] {
      SumRaised(bs[1..], raised[1..]);
    }
  }

  /** Lowering one running weight by `t` lowers the sum by `t`. */
  lemma {:induction false} SumPayBack(bs: seq<Backend>, k: nat, t: int)
    requires k < |bs|
    ensures SumCurrentWeight(bs[k := bs[k].(currentWeight := bs[k].currentWeight - t)])
         == SumCurrentWeight(bs) - t
  {
    var paid := bs[k := bs[k].(currentWeight := bs[k].currentWeight - t)];
    if k == 0 {
      assert paid[1..] == bs[1..];
    } else {
      assert paid[1..] == bs[1..][k - 1 := bs[k].(currentWeight := bs[k].currentWeight - t)];
      SumPayBack(bs[1..], k - 1, t);
    }
  }

  /**
    `WeightedRoundRobin.NextBackend`. Every live backend's running weight
    grows by its weight; the chosen backend is the first live one whose raised
    running weight is maximal, and it pays back the total live weight, so the
    sum of running weights over all backends is unchanged. Dead backends, and
    everything but running weights, are left alone; a call with no live
    backend changes no backend.
   */
  function Next(lb: Balancer): (r: Step)
    ensures r.lb.current == lb.current && r.lb.config == lb.config
    ensures |r.lb.backends| == |lb.backends|
    ensures forall j :: 0 <= j < |lb.backends| ==>
      r.lb.backends[j] == lb.backends[j].(currentWeight := r.lb.backends[j].currentWeight)
    ensures forall j :: 0 <= j < |lb.backends| && !lb.backends[j].isAlive ==>
      r.lb.backends[j] == lb.backends[j]
    ensures SumCurrentWeight(r.lb.backends) == SumCurrentWeight(lb.backends)
    ensures r.pick.NoAvailableBackends? <==> NoneAlive(lb.backends)
    ensures r.pick.NoAvailableBackends? ==>
      r.lb.backends == lb.backends && Counted(lb.metrics, r.lb.metrics, None)
    ensures r.pick.Chosen? ==>
      var k := r.pick.index;
      && k < |lb.backends|
      && FirstMaxLive(Raised(lb.backends), Some(k))
      && r.lb.backends[k].currentWeight
           == lb.backends[k].currentWeight + lb.backends[k].weight - LiveWeight(lb.backends)
      && (forall j :: 0 <= j < |lb.backends| && j != k ==> r.lb.backends[j] == Raise(lb.backends[j]))
      && Counted(lb.metrics, r.lb.metrics, Some(lb.backends[k].url))
    ensures Valid(lb) ==> Valid(r.lb)
  {
    assert lb.backends[..0] == [];
    assert lb.backends[0..] == lb.backends;
    var pass := WeightedPass(lb.backends, 0, None, 0);
    var raised := Raised(lb.backends);
    assert pass.backends == raised;
    SumRaised(lb.backends, raised);
    match pass.best
    case None =>
      assert raised == lb.backends;
      Step(NoAvailableBackends, lb.(metrics := RecordFailed(lb.metrics)))
    case Some(k) =>
      var paid := raised[k := raised[k].(currentWeight := raised[k].currentWeight - pass.totalWeight)];
      SumPayBack(raised, k, pass.totalWeight);
      CountAliveSame(lb.backends, paid);
      Step(Chosen(k), lb.(backends := paid, metrics := RecordServed(lb.metrics, lb.backends[k].url)))
  }
}
