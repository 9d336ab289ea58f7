# goburn ResourceBurner, modelled in Dafny

goburn is a Kubernetes DaemonSet that keeps a node's CPU, memory and network
utilisation inside configured bands by burning resources on purpose. Its
controller, `ResourceBurner` (main.go), owns three pools:

- CPU workers, each stopped through its own stop channel;
- network workers, stopped the same way and never more than five;
- a byte buffer sized in whole MiB, with a toucher that rewrites one byte per 4096-byte page.

A window of the last 100 CPU samples gives a 95th percentile. Each monitor
tick:

1. records a sample and reads the percentile;
2. respects a cooldown after the last scaling action;
3. enforces the minimum floors first;
4. only when every floor holds, moves each pool toward its target band.

On shutdown it signals every stop channel, within a grace period, and
releases the memory.

The project has five modules:

- `Helpers`: Go's `min`/`minInt`/`max`/`abs`, float-to-int truncation, `math.Ceil` and an `Option` type.
- `Samples`: the sample window, the sort of its copy and the nearest-rank 95th percentile, all as pure functions.
- `Pools`: the three adjust decisions as pure functions returning a `PoolAction` or `BufferAction`. It also defines the predicates that say exactly how a pool's channel list, channel ids and signal log move under an action.
- `Policy`: the configuration and one tick's decision, `Decide` (cooldown, floors, targets), as a pure function returning a `Plan`.
- `Burner`: the `ResourceBurner` class.
  - Its fields match main.go:45-67.
  - Its methods change those fields with loops, as main.go does: `AdjustCpuLoad`, `AdjustNetworkLoad`, `AdjustMemoryLoad`, `TouchPages`, `Tick` and `Shutdown`.
  - Each method is proved against the pure functions above.
  - The class invariant `Valid()` holds throughout:
    - the counts equal the list lengths;
    - the CPU pool stays within `2 * numCPU` and the network pool within 5;
    - the buffer is whole MiB and within `MaxMemoryMB`;
    - the window is the last 100 samples of the whole sample history;
    - no stop channel is shared or already signalled.

Stop channels are natural-number ids drawn from a counter. The ghost log
`signalled` records every channel that has been sent `true`, in order.
Memory is a Go slice: `memoryLen` bytes over the array `memoryData`.
Shrinking reslices and keeps the array, shrinking to zero and growing
allocate a new one, and random bytes are arbitrary values.

A tick takes the clock reading, the metrics reading and the network reading
as inputs: `None` means the read failed. A failed metrics read skips the
tick; a failed network read counts as 0 Mbps, as `getNetworkUtilization`
returns 0 with its error. Shutdown takes a flag saying whether the grace
period has expired.

Some test expectations differ from what the code does, and the model
follows the code. The test table at integration_test.go:58-73 expects one
CPU worker when current CPU and its 95th percentile are both 15 ("Should
scale up", line 61). The case at test_config.go:227-237 expects CPU to scale
"up" when the percentile is 18 and current CPU is 60. In the code, a floor
violation moves the pool toward `MinCPU + 10`, measured against the current
reading, not the percentile, and a scale-up adds `int(diff / 20)` workers:

- A difference strictly between 10 and 20 takes the scale-up branch but adds
  no worker (`Pools.CpuScaleUpDeadZone`). With current CPU at 15 the
  difference is 15, so no worker starts.
- With the default minimum, a CPU floor violation grows an empty pool only
  when the current reading is at most 10 (`Policy.CpuFloorGrowth`).
- With current CPU at 60 the floor request is a scale-down, which stops
  workers of a non-empty pool (`Policy.CpuFloorCanShrink`).

integration_test.go:119-123 accepts an unchanged CPU pool and logs it as
possibly expected behaviour.

## Model

| member | source | states |
|---|---|---|
| Helpers.Min | main.go:586-598 | `min` and `minInt`: the result is at most both arguments and is one of them |
| Helpers.Max | main.go:600-605 | `max`: the result is at least both arguments and is one of them |
| Helpers.Abs | main.go:607-612 | `abs`: the result is non-negative, is `x` or `-x`, and bounds both |
| Helpers.Trunc | main.go:231 | Go's `int(f)` truncates toward zero: the result is within one of `x`, on the side of zero |
| Helpers.Ceil | main.go:417 | `math.Ceil(x)`: the one integer `c` with `c - 1 < x <= c` |
| Samples.PushSample | main.go:390-400 | a full window drops exactly its oldest sample, a shorter one just grows, the new sample is last and the window never exceeds 100 |
| Samples.PushAll | main.go:390-400 | a run of insertions keeps a window within capacity and ends with the last sample; that it is the last 100 of the history is `PushAllRecent` |
| Samples.FillFromEmpty | main.go:390-400 | filling an empty window leaves exactly the last 100 samples of the run |
| Samples.PushSampleRecent | main.go:390-400 | adding a sample to the window of a history gives the window of the extended history |
| Samples.PushAllRecent | main.go:390-400 | after any run of insertions the window is exactly the last 100 samples of the whole history, in order (FIFO eviction) |
| Samples.PushAllBelowCapacity | main_test.go:531-549 | below capacity every sample is kept, in insertion order |
| Samples.RampWindow | integration_test.go:132-152 | inserting 0, ..., n-1 (n at least 100) leaves exactly n-100, ..., n-1 |
| Samples.RecentRamp | integration_test.go:132-152 | the last 100 of the run 0, ..., n-1 are n-100, ..., n-1 |
| Samples.HundredFiftyInserts | integration_test.go:132-152 | inserting 0, ..., 149 leaves exactly 50, ..., 149 |
| Samples.Insert | main.go:414 | inserting adds exactly one element, as a multiset |
| Samples.InsertSorted | main.go:414 | inserting into an ascending sequence keeps it ascending |
| Samples.SortAsc | main.go:414 | the sorted copy is ascending and a permutation of the window |
| Samples.SortAscOfSorted | main.go:414 | sorting an ascending sequence returns it unchanged |
| Samples.PercentileIndex | main.go:417-424 | the clamped index `ceil(0.95 n) - 1` always lies in `[0, n)` and equals `(95n + 99) / 100 - 1` |
| Samples.Percentile95 | main.go:402-426 | 0 on an empty window; otherwise a sample of the window, the one at the percentile index of its sorted copy |
| Samples.Percentile95IsNearestRank | main.go:402-426 | with m = ceil(0.95 n), fewer than m samples lie below the result and at least m lie at or below it |
| Samples.Percentile95IsLeast | main.go:402-426 | no smaller value has m samples at or below it, so the result is the nearest-rank 95th percentile |
| Samples.PercentileOfSortedInserts | main.go:402-426 | for an ascending run of at most 100 inserts, the percentile is the run's element at the percentile index |
| Samples.PercentileOfTens | main_test.go:551-567 | samples 10, 20, ..., 100 give a percentile of 100 |
| Samples.PercentileOfFives | main_test.go:569-583 | samples 5, 10, ..., 100 give a percentile of 95 |
| Pools.CpuAction | main.go:226-243 | workers start only below target with room, never past `2 * NumCPU`; at least one stops, never more than run, only above target. The exact amounts and band are `CpuActionAmounts` and `CpuActionDeadband` |
| Pools.CpuActionBounded | main.go:222-254 | the CPU pool stays within `[0, 2 * NumCPU]`, and scale-down never stops more workers than run |
| Pools.CpuActionDeadband | main.go:229-241 | the CPU pool acts if and only if the difference leaves the 10-point band in a direction the pool can move; inside the band it holds |
| Pools.CpuActionDirection | main.go:229-243 | CPU workers are added only below target and stopped only above it, at least one at a time |
| Pools.CpuActionAmounts | main.go:231-243 | scale-up adds `min(floor(diff / 20), room)` and scale-down stops `min(workers, floor(-diff / 20) + 1)` |
| Pools.CpuScaleUpDeadZone | main.go:229-231 | a difference strictly between 10 and 20 takes the scale-up branch but adds no worker |
| Pools.CpuActionExamples | main_test.go:586-602 | target 80 at 50 starts one worker, then target 80 at 95 stops it |
| Pools.NetworkAction | main.go:432-449 | at least one worker starts, only below target and never past 5; at least one stops, never more than run, only above target. The exact amounts and band are `NetworkActionAmounts` and `NetworkActionDeadband` |
| Pools.NetworkActionBounded | main.go:428-459 | the network pool stays within `[0, 5]`, and scale-down never stops more workers than run |
| Pools.NetworkActionDeadband | main.go:435-447 | the network pool acts if and only if the difference leaves the 5 Mbps band in a direction the pool can move, and then moves at least one worker toward the target |
| Pools.NetworkActionAmounts | main.go:437-449 | scale-up adds `min(floor(diff / 10) + 1, room)` and scale-down stops `min(workers, floor(-diff / 10) + 1)` |
| Pools.NetworkActionExamples | main_test.go:624-639 | target 30 at 10 starts three workers; target 30 at 40 then stops two |
| Pools.RepeatNetworkBounded | integration_test.go:170-195 | any number of repeated network adjustments keeps the pool within 5 |
| Pools.MemoryAction | main.go:260-297 | the buffer grows only below target, to more MiB within `MaxMemoryMB`, and shrinks only above target, to fewer MiB. Both directions of each case are `MemoryActionCases` |
| Pools.MemoryActionCases | main.go:256-298 | growth happens if and only if the difference exceeds 10 and `min(cur + floor(diff * 10), MaxMemoryMB)` is larger, to that size; shrinking happens if and only if the difference is below -10 on a non-empty buffer of at least 1 MiB, to `max(0, cur - floor(-diff * 10))`; inside the band nothing happens |
| Pools.MemoryActionBounded | main.go:262-284 | growth never passes the ceiling and goes strictly up; shrinking goes strictly down |
| Pools.MemoryActionExamples | main_test.go:604-622 | target 80 at 50 grows an empty buffer to 300 MiB and target 80 at 95 then shrinks it to 150 MiB; the third case, target 90 at 10 under a 10 MiB ceiling growing to exactly 10 MiB, is the one at integration_test.go:154-168 |
| Pools.ReversedAt | main.go:244-249 | scale-down signals channels newest first: position k of the signal order is the k-th channel from the end |
| Pools.SteppedSignalsDropped | main.go:244-249 | after any pool step, a shrunk channel list is a prefix of the old one and the log gains exactly the dropped channels, newest first; a grown or unchanged one gains fresh consecutive ids and the log is unchanged |
| Policy.Decide | main.go:500-563 | a tick enforces floors if and only if the gate is open and some floor is violated. Its other paths are stated by `CooldownIsNoOp`, `FloorsTakePriority` and `TargetPathRequests` |
| Policy.InCooldown | main.go:500-507 | no contract of its own: `CooldownIsNoOp` and `ScaleUpCooldownWindow` state the gate, with the delay chosen by the last direction |
| Policy.FloorPlan | main.go:509-534 | no contract of its own: `FloorsTakePriority` states each floor request and its buffer above the minimum |
| Policy.TargetPlan | main.go:543-562 | no contract of its own: `TargetPathRequests` states each band test, each request and the direction, in both directions |
| Policy.CooldownIsNoOp | main.go:500-507 | a tick decides nothing if and only if the cooldown for the current direction has not elapsed |
| Policy.ScaleUpCooldownWindow | main.go:502-504 | after a scale-up at t, ticks before `t + ScaleUpDelay` do nothing and later ones may act |
| Policy.FloorsTakePriority | main.go:509-540 | with the gate open and a floor violated, only floor requests are made: CPU toward `MinCPU + 10` against the current reading, memory toward `MinMemory + 10` when enabled, network toward `MinNetwork + 5` |
| Policy.FloorViolationSuppressesTargets | main.go:536-540 | a violated floor always suppresses the target adjustments of that tick |
| Policy.TargetPathRequests | main.go:543-563 | with every floor met, each pool is asked to move if and only if its reading leaves its band, toward its reference; the direction is up if and only if some reading is below its reference, memory counted even when disabled |
| Policy.DefaultSteadyState | main.go:129-142 | with the default configuration and readings at their references, no pool is asked to move |
| Policy.DefaultHighCpuShrinks | main.go:543-563 | with the defaults and CPU at 95, an open gate scales down and strictly shrinks a non-empty CPU pool |
| Policy.CpuFloorGrowth | main.go:513-518 | a CPU floor violation grows an empty pool if and only if the current reading is at least 20 below `MinCPU + 10` |
| Policy.CpuFloorCanShrink | test_config.go:227-237 | with the defaults, percentile 18 and current CPU 60, the CPU floor request is toward 30 from 60 and it shrinks a non-empty CPU pool, where that test case expects "up" |
| Burner.ChannelsOkFresh | main.go:232-236 | appending a freshly made channel keeps the channel bookkeeping |
| Burner.ChannelsOkPop | main.go:246-249 | signalling and dropping the newest channel keeps the channel bookkeeping |
| Burner.ChannelsOkDrain | main.go:647-654 | signalling some channels of a pool and forgetting the pool keeps the channel bookkeeping |
| Burner.SubsequenceConcat | main.go:644-668 | the channels the two drain loops reach, taken together, are a subsequence of both lists in order |
| Burner.ResourceBurner.constructor | main.go:94-127 | a new controller has empty pools, empty window and history, no signalled channel and no last action |
| Burner.ResourceBurner.AddCpuSample | main.go:390-400 | the window becomes `PushSample` of the old one and the history grows by the sample; the invariant is kept |
| Burner.ResourceBurner.AdjustCpuLoad | main.go:222-254 | the CPU list, the channel counter and the signal log move exactly as `Stepped(CpuAction(...))`: fresh ids appended, or the newest channels popped and signalled newest first |
| Burner.ResourceBurner.StartCpuWorkers | main.go:232-237 | the list gains the next `n` fresh ids in order and the counter advances by `n` |
| Burner.ResourceBurner.StopCpuWorkers | main.go:244-250 | the list loses its last `n` channels and the log gains them in reverse order |
| Burner.ResourceBurner.PopCpuWorker | main.go:246-249 | the newest channel is signalled and dropped |
| Burner.ResourceBurner.AdjustNetworkLoad | main.go:428-459 | the network list, counter and log move exactly as `Stepped(NetworkAction(...))` |
| Burner.ResourceBurner.StartNetworkWorkers | main.go:438-443 | the list gains the next `n` fresh ids in order |
| Burner.ResourceBurner.StopNetworkWorkers | main.go:450-455 | the list loses its last `n` channels and the log gains them in reverse order |
| Burner.ResourceBurner.PopNetworkWorker | main.go:451-454 | the newest network channel is signalled and dropped |
| Burner.ResourceBurner.AdjustMemoryLoad | main.go:256-298 | the bytes move as `MemoryAction` says: growth to the new size keeps the old bytes as a prefix of a fresh buffer, shrinking keeps a prefix, and otherwise the buffer is untouched |
| Burner.ResourceBurner.GrowBuffer | main.go:266-276 | a fresh buffer of the new length whose prefix is the old contents |
| Burner.ResourceBurner.TouchPages | main.go:461-473 | a pass writes exactly the first byte of every 4096-byte page of the pool, and no other byte changes |
| Burner.ResourceBurner.ApplyRequests | main.go:509-563 | each pool moves exactly as `Stepped` says for the plan's request: CPU first (fresh ids, or popped channels signalled newest first), then memory, then network from the counter and log the CPU step left |
| Burner.ResourceBurner.ApplyCpuRequest | main.go:513-518 | with a request the CPU pool moves exactly as `Stepped(CpuAction(...))`; without one, list, counter and log are unchanged (also main.go:554-556) |
| Burner.ResourceBurner.ApplyMemoryRequest | main.go:521-526 | with a request the buffer moves as `MemoryAction` says; without one its contents are unchanged (also main.go:557-559) |
| Burner.ResourceBurner.ApplyNetworkRequest | main.go:529-534 | with a request the network pool moves exactly as `Stepped(NetworkAction(...))`; without one, list, counter and log are unchanged (also main.go:560-562) |
| Burner.ResourceBurner.Tick | main.go:484-563 | a failed metrics read changes nothing; otherwise the sample is recorded, and every pool moves exactly as `Stepped` says and the scaling state as `Decide` says for the new percentile |
| Burner.ResourceBurner.Act | main.go:500-563 | the pools move exactly as `Stepped` says for `Decide`'s requests, so every stopped channel is signalled, newest first, CPU before network; the scaling state moves as `Decide` says; a cooldown or steady tick leaves the pools, the channel counter, the log and the scaling state unchanged |
| Burner.ResourceBurner.EnforceMinimums | main.go:509-540 | the pools move exactly as `Stepped` says for the floor requests, and the action is recorded as a scale-up at `now` |
| Burner.ResourceBurner.AdjustTowardTargets | main.go:543-563 | the pools move exactly as `Stepped` says for the target requests; with some reading out of band the action is recorded at `now` in the plan's direction, otherwise nothing changes |
| Burner.ResourceBurner.ApplyTargets | main.go:548-563 | the direction is recorded at `now`, then each pool moves exactly as `Stepped` says for its target request |
| Burner.ResourceBurner.RecordAction | main.go:537-539 | the last action becomes `now` in the given direction |
| Burner.ResourceBurner.SignalAll | main.go:647-652 | the channels signalled are a subsequence of the list, in order; before the grace period expires, all of them |
| Burner.ResourceBurner.StopAllCpuWorkers | main.go:644-655 | the CPU list and count become empty, after signalling a subsequence of the list (all of it within the grace period) |
| Burner.ResourceBurner.StopAllNetworkWorkers | main.go:657-668 | the network list and count become empty, after signalling a subsequence of the list (all of it within the grace period) |
| Burner.ResourceBurner.ReleaseMemory | main.go:670-674 | the buffer becomes empty |
| Burner.ResourceBurner.Shutdown | main.go:644-674 | both pools and the buffer end empty; the signals sent are a subsequence of the CPU list followed by the network list; within the grace period every channel is signalled, CPU ones first |

## Left out

- Kubernetes and metrics-server access (`getNodeMetrics`, `getCurrentUtilization`): foreign calls. Their result is the `metrics` input of `Tick`.
- `getNetworkUtilization`: it reads `/proc/net/dev`. Its result is the `network` input of `Tick`, and an error counts as 0.
- `loadConfig` and the `getEnv*` helpers: environment access. The configuration is a value, and `DefaultConfig` holds its defaults.
- `NewResourceBurner`: the Kubernetes client set-up is left out. The constructor takes the configuration and the CPU count.
- Goroutines, mutexes, timers and the monitor loop itself:
  - every operation is one atomic step;
  - the worker goroutines `cpuWorker`, `networkWorker` and `generateNetworkTraffic` exist only as their stop channels;
  - `memoryWorker` is one `TouchPages` pass.
- `Run`, `main`, signal handling and the 30-second shutdown context: the grace timer is the `graceExpired` input of `Shutdown`.
- `crypto/rand` and `rnd`/`encrypt`/`decrypt`: random values are arbitrary (havoc), and the encryption busy work has no state to model.
- Logging: it has no effect on state.
- Floating point: readings are exact reals.
  - NaN and infinities are not modelled.
  - Rounding of `0.95 * float64(n)` is not modelled.
  - `int64` overflow of `diff * 10` is not modelled.
  - `sort.Float64s` is the ascending sort of finite values.
- test_config.go: test scaffolding, not part of the controller.
- Sub-unit clock differences: the clock reading and the delays share one integer unit (seconds in `DefaultConfig`: delays 60 and 120). Go compares nanosecond `time.Duration`s on the monotonic clock, so differences smaller than the unit at the cooldown boundary are not modelled.
- Burner.ResourceBurner.SignalAll: after the grace period expires, Go's `select` picks between two ready cases at random. The model lets any subsequence of the channels be signalled.
- Burner.ResourceBurner.TouchPages: the written bytes are arbitrary, so the contract says which bytes are written, not what they become.
