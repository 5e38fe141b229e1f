/**
  The state shared by all three scheduling strategies: the backend records, the
  round-robin cursor, the configuration and the metrics. In the Go code
  `WeightedRoundRobin` and `LeastConnections` embed `*RoundRobin`, so they all
  carry this one state; here it is an immutable value and every operation is a
  function from the state before the call to the state after it.
 */
module Backends {
  import opened LbMetrics

  const U32: nat := 0x1_0000_0000

  /** Go's `uint32`, the type of the round-robin cursor. */
  type u32 = x: int | 0 <= x < U32

  /** One backend server. Its `LastCheck` timestamp and its lock are not modelled. */
  datatype Backend = Backend(
    url: string,
    weight: int,          // static weight for weighted round-robin
    currentWeight: int,   // running weight of the smooth weighted round-robin
    connections: int,     // connections handed to it by least-connections
    isAlive: bool,
    failCount: nat)       // consecutive failed health probes

  /** Of the configuration only `MaxFailCount` affects the modelled behaviour. */
  datatype Config = Config(maxFailCount: int)

  datatype Balancer = Balancer(
    backends: seq<Backend>,
    current: u32,         // index the last round-robin call chose
    config: Config,
    metrics: Metrics)

  /** What one NextBackend call returns: the index of the chosen backend, or `ErrNoAvailableBackends`. */
  datatype Pick = Chosen(index: nat) | NoAvailableBackends

  datatype Step = Step(pick: Pick, lb: Balancer)

  function Ord(b: bool): nat {
    if b then 1 else 0
  }

  /** Number of backends marked alive. */
  function CountAlive(bs: seq<Backend>): (n: nat)
    ensures n <= |bs|
  {
    if bs == [] then 0 else Ord(bs[0].isAlive) + CountAlive(bs[1..])
  }

  /** Sum of `CurrentWeight` over all backends, live or not. */
  function SumCurrentWeight(bs: seq<Backend>): int {
    if bs == [] then 0 else bs[0].currentWeight + SumCurrentWeight(bs[1..])
  }

  /** Sum of `Weight` over the live backends: the `totalWeight` of one weighted round-robin call. */
  function LiveWeight(bs: seq<Backend>): int {
    if bs == [] then 0 else (if bs[0].isAlive then bs[0].weight else 0) + LiveWeight(bs[1..])
  }

  predicate NoneAlive(bs: seq<Backend>) {
    forall j :: 0 <= j < |bs| ==> !bs[j].isAlive
  }

  predicate SameAliveness(bs: seq<Backend>, bs': seq<Backend>) {
    |bs| == |bs'| && forall j :: 0 <= j < |bs| ==> bs[j].isAlive == bs'[j].isAlive
  }

  /**
    The invariant every operation keeps: `ActiveBackends` counts the live
    backends, the cursor is a backend index (or 0 before the first call),
    connection counts never go below zero, and the request counters add up.
   */
  ghost predicate Valid(lb: Balancer) {
    && lb.metrics.activeBackends == CountAlive(lb.backends)
    && (lb.current == 0 || lb.current < |lb.backends|)
    && (forall j :: 0 <= j < |lb.backends| ==> lb.backends[j].connections >= 0)
    && Accounted(lb.metrics)
  }

  lemma {:induction false} CountAliveUpdate(bs: seq<Backend>, i: nat, b: Backend)
    requires i < |bs|
    ensures CountAlive(bs[i := b]) == CountAlive(bs) - Ord(bs[i].isAlive) + Ord(b.isAlive)
  {
    if i == 0 {
      assert bs[i := b][1..] == bs[1..];
    } else {
      assert bs[i := b][1..] == bs[1..][i - 1 := b];
      CountAliveUpdate(bs[1..], i - 1, b);
    }
  }

  lemma {:induction false} CountAliveZero(bs: seq<Backend>)
    ensures CountAlive(bs) == 0 <==> NoneAlive(bs)
  {
    if bs != [] {
      CountAliveZero(bs[1..]);
      if NoneAlive(bs) {
        assert NoneAlive(bs[1..]) by {
          forall j | 0 <= j < |bs| - 1 ensures !bs[1..][j].isAlive {
            assert bs[1..][j] == bs[j + 1];
          }
        }
      } else if !bs[0].isAlive {
        var j :| 0 <= j < |bs| && bs[j].isAlive;
        assert bs[1..][j - 1] == bs[j];
      }
    }
  }

  lemma {:induction false} CountAliveSame(bs: seq<Backend>, bs': seq<Backend>)
    requires SameAliveness(bs, bs')
    ensures CountAlive(bs) == CountAlive(bs')
  {
    if bs != [] {
      assert SameAliveness(bs[1..], bs'[1..]) by {
        forall j | 0 <= j < |bs| - 1 ensures bs[1..][j].isAlive == bs'[1..][j].isAlive {
          assert bs[1..][j] == bs[j + 1] && bs'[1..][j] == bs'[j + 1];
        }
      }
      CountAliveSame(bs[1..], bs'[1..]);
    }
  }

  /** Under the invariant, ActiveBackends is zero exactly when no backend is alive. */
  lemma NoneActiveIffNoneAlive(lb: Balancer)
    requires Valid(lb)
    ensures lb.metrics.activeBackends == 0 <==> NoneAlive(lb.backends)
  {
    CountAliveZero(lb.backends);
  }
}
