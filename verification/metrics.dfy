/**
  The counters every load balancer keeps (`LoadBalancerMetrics`), and how one
  `NextBackend` call moves them. `AverageLatency` is not modelled.
 */
module LbMetrics {
  import opened Wrappers

  datatype Metrics = Metrics(
    totalRequests: nat,                      // every NextBackend call
    failedRequests: nat,                     // calls that found no live backend
    activeBackends: int,                     // live backends, maintained by the health check
    requestsPerBackend: map<string, nat>)    // successful calls, keyed by backend URL

  /** The count recorded for `url`; a URL that was never served has no entry and counts 0. */
  function Requests(m: map<string, nat>, url: string): nat {
    if url in m then m[url] else 0
  }

  /** Some URL that has a count; which one is immaterial (see MapSumRemove). */
  ghost function AnyKey(m: map<string, nat>): (k: string)
    requires |m| > 0
    ensures k in m
  {
    var k :| k in m; k
  }

  /** Sum of all per-URL counts. */
  ghost function MapSum(m: map<string, nat>): nat
    decreases |m|
  {
    if |m| == 0 then 0
    else
      var k := AnyKey(m);
      RemoveShrinks(m, k);
      m[k] + MapSum(m - {k})
  }

  /** Every request is accounted for: it either failed or was served by exactly one URL. */
  ghost predicate Accounted(m: Metrics) {
    m.totalRequests == m.failedRequests + MapSum(m.requestsPerBackend)
  }

  /** How one NextBackend call moves the counters; `served` is the URL of the chosen backend. */
  ghost predicate Counted(m: Metrics, m': Metrics, served: Option<string>) {
    && m'.totalRequests == m.totalRequests + 1
    && m'.activeBackends == m.activeBackends
    && (match served
        case None =>
          && m'.failedRequests == m.failedRequests + 1
          && m'.requestsPerBackend == m.requestsPerBackend
        case Some(url) =>
          && m'.failedRequests == m.failedRequests
          && Requests(m'.requestsPerBackend, url) == Requests(m.requestsPerBackend, url) + 1
          && forall u :: u != url ==>
               Requests(m'.requestsPerBackend, u) == Requests(m.requestsPerBackend, u))
  }

  lemma RemoveShrinks(m: map<string, nat>, k: string)
    requires k in m
    ensures |m - {k}| == |m| - 1
  {
  }

  /** The sum does not depend on which key the definition happens to pick first. */
  lemma {:induction false} MapSumRemove(m: map<string, nat>, k: string)
    requires k in m
    ensures MapSum(m) == m[k] + MapSum(m - {k})
    decreases |m|
  {
    var k' := AnyKey(m);
    if k' != k {
      RemoveShrinks(m, k);
      RemoveShrinks(m, k');
      MapSumRemove(m - {k'}, k);
      MapSumRemove(m - {k}, k');
      assert (m - {k'}) - {k} == (m - {k}) - {k'};
    }
  }

  /** Adding one request to one URL adds one to the sum of all counts. */
  lemma MapSumIncrement(m: map<string, nat>, url: string)
    ensures MapSum(m[url := Requests(m, url) + 1]) == MapSum(m) + 1
  {
    var m' := m[url := Requests(m, url) + 1];
    MapSumRemove(m', url);
    assert m' - {url} == m - {url};
    if url in m {
      MapSumRemove(m, url);
    } else {
      assert m - {url} == m;
    }
  }

  /** Counters after a call that served `url` (loadbalancer.go: the TotalRequests and RequestsPerBackend updates). */
  function RecordServed(m: Metrics, url: string): (m': Metrics)
    ensures Counted(m, m', Some(url))
    ensures m'.requestsPerBackend.Keys == m.requestsPerBackend.Keys + {url}
    ensures Accounted(m) ==> Accounted(m')
  {
    MapSumIncrement(m.requestsPerBackend, url);
    var counts := m.requestsPerBackend[url := Requests(m.requestsPerBackend, url) + 1];
    m.(totalRequests := m.totalRequests + 1, requestsPerBackend := counts)
  }

  /** Counters after a call that found no live backend. */
  function RecordFailed(m: Metrics): (m': Metrics)
    ensures Counted(m, m', None)
    ensures Accounted(m) ==> Accounted(m')
  {
    m.(totalRequests := m.totalRequests + 1, failedRequests := m.failedRequests + 1)
  }
}
