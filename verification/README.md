# Load-balancer backend selection, modelled in Dafny

This project models the backend-selection core of the CDN's load balancer
(`app/CDN/internal/loadbalancer/loadbalancer.go`). The balancer keeps a list
of backend records. Each record has a URL, a weight, a running weight, a
connection count, a liveness flag and a consecutive-failure count. The
balancer also keeps a round-robin cursor and a set of counters
(`TotalRequests`, `FailedRequests`, `ActiveBackends`, `RequestsPerBackend`).
Three scheduling rules choose a backend for each request:

- plain round-robin probes cyclically from the last chosen index;
- smooth weighted round-robin (the nginx scheme) raises each live backend's
  running weight, picks the largest, and makes the winner pay back the total
  live weight;
- least-connections picks the live backend with the fewest connections.

A per-backend health state machine takes a backend down after
`MaxFailCount` consecutive failed probes. One successful probe brings it back.

Every operation is a pure function from the balancer state before the call
to the state after it. `NextBackend` returns a `Step` holding the pick
(`Chosen(index)` or `NoAvailableBackends`, the Go code's
`ErrNoAvailableBackends`) and the new state. The invariant `Backends.Valid`
says four things:

- `ActiveBackends` equals the number of live backends;
- the cursor is a backend index, or 0 before the first call;
- connection counts are never negative;
- every request is accounted for: `TotalRequests` equals `FailedRequests`
  plus the sum of the per-URL counts.

The constructors establish it, and every operation keeps it.

Modules: `Wrappers` (Option), `LbMetrics` (counters), `Backends` (records,
state, invariant), `RoundRobin` (round-robin constructor and selection, metrics snapshot),
`Health` (health checks), `Weighted` (smooth weighted round-robin),
`LeastConnections` (least-connections constructor and selection).

Loops are modelled as recursive functions that follow the Go loop step by
step. Round-robin computes `next = (next + 1) % uint32(n)`, with the
`uint32` wrap of `current + 1` written out. Weighted round-robin raises and
compares in a single pass, so each comparison sees already-raised weights.
Least-connections keeps the `minConn == -1` sentinel. Each loop is then
proved equal to its independent description: the probe order, the first
maximum, the first minimum.

The Go code never decrements `Connections`. Least-connections therefore
counts connections handed out, not connections open.

## Model

| member | source | states |
|---|---|---|
| `RoundRobin.NewRoundRobin` | app/CDN/internal/loadbalancer/loadbalancer.go:69-95 | one live backend per URL with zero failures, weights and connections; cursor 0; ActiveBackends equals the number of URLs; empty counters; the invariant holds |
| `LeastConnections.NewLeastConnections` | app/CDN/internal/loadbalancer/loadbalancer.go:273-275 | one live backend per URL with zero failures and zero connections; cursor 0; ActiveBackends equals the number of URLs; empty counters; the invariant holds |
| `RoundRobin.ProbeStep` | app/CDN/internal/loadbalancer/loadbalancer.go:172-176 | every backend index is reached at some step below n of one call's probe sequence |
| `RoundRobin.ProbeStepOfProbeIndex` | app/CDN/internal/loadbalancer/loadbalancer.go:172-176 | the n probes of one call are pairwise distinct, so each backend is probed exactly once |
| `RoundRobin.ProbeOrderIsCyclic` | app/CDN/internal/loadbalancer/loadbalancer.go:170-176 | when the cursor is a backend index, the probes run current+1, current+2, ... modulo n |
| `RoundRobin.StepIsProbe` | app/CDN/internal/loadbalancer/loadbalancer.go:175 | one iteration of the uint32 update `(next + 1) % uint32(n)` yields the next index of the probe sequence |
| `RoundRobin.Scan` | app/CDN/internal/loadbalancer/loadbalancer.go:174-190 | the loop returns a live backend, and every backend probed before it (or every backend, if none is returned) is dead |
| `RoundRobin.Next` | app/CDN/internal/loadbalancer/loadbalancer.go:164-194 | the chosen backend is alive and becomes the cursor; all backends probed before it were dead; the call fails exactly when no backend is alive, leaving the cursor alone; backends never change; TotalRequests +1, and either FailedRequests +1 or the chosen URL's count +1 with no other count changed; the invariant is kept |
| `RoundRobin.GetMetrics` | app/CDN/internal/loadbalancer/loadbalancer.go:196-214 | the snapshot carries the same TotalRequests, FailedRequests, ActiveBackends and per-URL counts; under the invariant its ActiveBackends is the number of live backends and its requests add up |
| `Health.CheckBackendHealth` | app/CDN/internal/loadbalancer/loadbalancer.go:117-155 | a failed probe adds one failure and leaves the backend alive only if it was alive and still below MaxFailCount; a success clears the count and makes it alive; ActiveBackends moves by exactly the change in liveness; nothing else changes; the invariant is kept |
| `Health.ChecksCommute` | app/CDN/internal/loadbalancer/loadbalancer.go:104-115 | checks of two different backends give the same state in either order, so the concurrent fan-out equals a sequential one |
| `Health.CheckFrom` | app/CDN/internal/loadbalancer/loadbalancer.go:106-113 | checking backends i.. in order leaves earlier backends alone and leaves each later one as a check of it alone would; ActiveBackends moves by exactly the net change in the number of live backends |
| `Health.HealthCheck` | app/CDN/internal/loadbalancer/loadbalancer.go:104-115 | after checking all backends, each is exactly as its own check leaves it; ActiveBackends moves by exactly the net change in the number of live backends; cursor, config and request counters are unchanged; the invariant is kept |
| `Weighted.NewWeightedRoundRobin` | app/CDN/internal/loadbalancer/loadbalancer.go:221-228 | needs no more weights than URLs; backend i gets Weight = CurrentWeight = weights[i], and later backends keep 0; otherwise the round-robin initial state; the invariant holds |
| `Weighted.WeightedPass` | app/CDN/internal/loadbalancer/loadbalancer.go:239-253 | the single pass raises exactly the backends from i on; it sums the live weights; with the strict `>` its winner is the first live backend of maximal raised running weight |
| `Weighted.SumRaised` | app/CDN/internal/loadbalancer/loadbalancer.go:248-249 | raising the live backends adds the total live weight to the sum of running weights |
| `Weighted.SumPayBack` | app/CDN/internal/loadbalancer/loadbalancer.go:260 | the winner's pay-back lowers the sum of running weights by the total live weight |
| `Weighted.Next` | app/CDN/internal/loadbalancer/loadbalancer.go:230-266 | live backends are raised and dead ones untouched; the winner is the first live backend with the largest raised running weight and pays back the total live weight; the sum of running weights is unchanged; a failed call (no live backend) changes no backend; only running weights change; metrics as for round-robin; the invariant is kept |
| `LeastConnections.LeastPass` | app/CDN/internal/loadbalancer/loadbalancer.go:283-300 | the loop returns a live backend, or nothing exactly when no backend is alive; with non-negative counts its choice is the first live backend with the fewest connections |
| `LeastConnections.Next` | app/CDN/internal/loadbalancer/loadbalancer.go:277-313 | the chosen backend is alive and, with non-negative counts, the first live backend of minimal connections; only its connection count changes, by +1; the call fails exactly when no backend is alive and then changes no backend; metrics as for round-robin; the invariant is kept |
| `LeastConnections.SentinelMistakesMinusOne` | app/CDN/internal/loadbalancer/loadbalancer.go:284-299 | with a live backend holding -1 connections, the sentinel test makes the loop pick a later backend that has more connections |
| `LbMetrics.RecordServed` | app/CDN/internal/loadbalancer/loadbalancer.go:184-187 | TotalRequests +1; the served URL's count +1, starting from 0 when it had no entry; no other URL's count and no other counter changes; requests stay accounted for |
| `LbMetrics.RecordFailed` | app/CDN/internal/loadbalancer/loadbalancer.go:192 | TotalRequests +1 and FailedRequests +1; nothing else changes; requests stay accounted for |
| `LbMetrics.MapSumIncrement` | app/CDN/internal/loadbalancer/loadbalancer.go:184-187 | counting one request for a URL adds one to the sum of all per-URL counts |
| `Backends.NoneActiveIffNoneAlive` | app/CDN/internal/loadbalancer/loadbalancer.go:84 | under the invariant, ActiveBackends is 0 exactly when no backend is alive |

## Left out

- HTTP probing, the periodic `healthCheckLoop` with its ticker, the goroutine started by `NewRoundRobin`, the `sync.WaitGroup` fan-out, and every mutex and atomic. Each operation is one atomic sequential step. The probe outcome is the input `probeOk`. A request that cannot be built, a transport error and a non-200 status all count as a failed probe, as in the Go code. Treating each call as one atomic step is an idealisation the Go locking does not provide: `RoundRobin.NextBackend` and `LeastConnections.NextBackend` insert into `RequestsPerBackend` under a read lock only, and `TotalRequests` is incremented before any lock is taken, so `Accounted` is a property of the sequential model, not of the concurrent program.
- `AverageLatency` (a floating-point running average of wall-clock latency) and `LastCheck` (a timestamp): clocks and floating point.
- `Config.HealthCheckInterval` and `HealthCheckTimeout`: they only drive the ticker and the HTTP client. `Config.RetryTimeout` is declared but never read.
- Fixed-width integers are not modelled; the model uses unbounded integers. The counters `TotalRequests`, `FailedRequests` and the per-URL counts (`uint64`), `ActiveBackends` and `Connections` (`int32`) and `FailCount` (`int`) would wrap only after 2^31 to 2^63 operations. The `int32(len(urls))` conversion that sets `ActiveBackends` would truncate with 2^31 or more URLs.
- Weighted.Next: assumes weights small enough that no running weight and no `totalWeight` leaves Go's 64-bit `int`. The weights are chosen by the caller, so `b.CurrentWeight += b.Weight` and `totalWeight += b.Weight` can overflow on the first call (weights `[2^62, 2^62]`); the model's unbounded sums do not wrap. The model does follow the Go code for mixed-sign weights: with weights `[1, -1]` the live total is 0, the winner pays back nothing, and the running weights drift on every call; conservation of their sum still holds.
- Weighted.NewWeightedRoundRobin: requires no more weights than URLs. With more weights the Go code panics with an index out of range at `rr.backends[i]`; that panic is not modelled.
- Only the `uint32` round-robin cursor arithmetic is written out with its wrap-around.
- RoundRobin.Next: requires fewer than 2^32 backends, because the truncating `uint32(len(r.backends))` conversion is not modelled.
- LeastConnections.Next: the first-minimum property is stated only for non-negative connection counts. With a count of -1 the Go code's `minConn == -1` sentinel misfires (see `SentinelMistakesMinusOne`). The Go code only ever increments counts from 0, so every reachable state (`Backends.Valid`) is covered.
- `app/CDN/main.go` (reverse proxy, logging, signal handling, shutdown), `app/back/main.go` (HTTP and database wiring) and the whole TypeScript front-end (router, views, forms, fetch calls): not part of this model.
