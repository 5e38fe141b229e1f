/**
  Least-connections (`LeastConnections`): each call picks the live backend
  with the fewest connections handed out so far and counts one more
  connection for it.
 */
module LeastConnections {
  import opened Wrappers
  import opened LbMetrics
  import opened Backends
  import RoundRobin

  /**
    `NewLeastConnections`: the round-robin initial state, in which every
    backend is alive and has handed out no connections.
   */
  function NewLeastConnections(urls: seq<string>, config: Config): (lb: Balancer)
    ensures |lb.backends| == |urls|
    ensures forall i :: 0 <= i < |urls| ==>
      && lb.backends[i].url == urls[i]
      && lb.backends[i].isAlive && lb.backends[i].failCount == 0
      && lb.backends[i].connections == 0
    ensures lb.current == 0 && lb.config == config
    ensures lb.metrics.totalRequests == 0 && lb.metrics.failedRequests == 0
    ensures lb.metrics.activeBackends == |urls| && lb.metrics.requestsPerBackend == map[]
    ensures Valid(lb)
  {
    RoundRobin.NewRoundRobin(urls, config)
  }

  predicate NonNegativeConnections(bs: seq<Backend>) {
    forall j :: 0 <= j < |bs| ==> bs[j].connections >= 0
  }

  /**
    `best` is the first live backend, by index, whose connection count is
    minimal among the live ones; `None` when no backend is alive.
   */
  predicate FirstMinLive(bs: seq<Backend>, best: Option<nat>) {
    match best
    case None => NoneAlive(bs)
    case Some(k) =>
      && k < |bs| && bs[k].isAlive
      && (forall j :: 0 <= j < |bs| && bs[j].isAlive ==> bs[k].connections <= bs[j].connections)
      && (forall j :: 0 <= j < k && bs[j].isAlive ==> bs[k].connections < bs[j].connections)
  }

  /**
    The selection loop of `LeastConnections.NextBackend` from index `i` on.
    As in the Go code, `minConn == -1` stands for "nothing chosen yet" and a
    later backend replaces the current choice only with strictly fewer
    connections. The sentinel can be mistaken for a real count of -1, so the
    first-minimum property needs connection counts that are never negative,
    which every reachable state has (Valid).
   */
  function LeastPass(bs: seq<Backend>, i: nat, best: Option<nat>, minConn: int): (r: Option<nat>)
    requires i <= |bs|
    requires best.None? ==> minConn == -1
    requires best.Some? ==> best.value < i && bs[best.value].isAlive && minConn == bs[best.value].connections
    decreases |bs| - i
    ensures r.Some? ==> r.value < |bs| && bs[r.value].isAlive
    ensures r.None? <==> best.None? && forall j :: i <= j < |bs| ==> !bs[j].isAlive
    ensures NonNegativeConnections(bs) && FirstMinLive(bs[..i], best) ==> FirstMinLive(bs, r)
  {
    if i == |bs| then
      assert bs[..i] == bs;
      best
    else
      assert bs[..i + 1] == bs[..i] + [bs[i]];
      if !bs[i].isAlive then LeastPass(bs, i + 1, best, minConn)
      else if minConn == -1 || bs[i].connections < minConn then LeastPass(bs, i + 1, Some(i), bs[i].connections)
      else LeastPass(bs, i + 1, best, minConn)
  }

  /**
    `LeastConnections.NextBackend`. The chosen backend is alive and, when no
    connection count is negative, it is the first live backend with the fewest
    connections; its count, and nothing else about any backend, goes up by
    one. The call fails exactly when no backend is alive and then changes no
    backend.
   */
  function Next(lb: Balancer): (r: Step)
    ensures r.lb.current == lb.current && r.lb.config == lb.config
    ensures r.pick.NoAvailableBackends? <==> NoneAlive(lb.backends)
    ensures r.pick.NoAvailableBackends? ==>
      r.lb.backends == lb.backends && Counted(lb.metrics, r.lb.metrics, None)
    ensures r.pick.Chosen? ==>
      var k := r.pick.index;
      && k < |lb.backends| && lb.backends[k].isAlive
      && (NonNegativeConnections(lb.backends) ==> FirstMinLive(lb.backends, Some(k)))
      && |r.lb.backends| == |lb.backends|
      && r.lb.backends[k] == lb.backends[k].(connections := lb.backends[k].connections + 1)
      && (forall j :: 0 <= j < |lb.backends| && j != k ==> r.lb.backends[j] == lb.backends[j])
      && Counted(lb.metrics, r.lb.metrics, Some(lb.backends[k].url))
    ensures Valid(lb) ==> Valid(r.lb)
  {
    assert lb.backends[..0] == [];
    match LeastPass(lb.backends, 0, None, -1)
    case None =>
      Step(NoAvailableBackends, lb.(metrics := RecordFailed(lb.metrics)))
    case Some(k) =>
      var b := lb.backends[k];
      var bs := lb.backends[k := b.(connections := b.connections + 1)];
      CountAliveSame(lb.backends, bs);
      Step(Chosen(k), lb.(backends := bs, metrics := RecordServed(lb.metrics, b.url)))
  }

  /**
    Why the first-minimum property is conditional: a live backend holding a
    count of -1 is taken for the empty sentinel, and the next live backend
    replaces it although it has more connections.
   */
  lemma SentinelMistakesMinusOne()
    ensures LeastPass([Backend("a", 0, 0, -1, true, 0), Backend("b", 0, 0, 5, true, 0)], 0, None, -1) == Some(1)
  {
  }
}
