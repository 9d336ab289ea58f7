/** Decisions of the three load pools (`adjustCPULoad`, `adjustNetworkLoad`,
    `adjustMemoryLoad` in main.go) as pure functions, and the predicates that
    say how a pool's state moves under a decision. */
module Pools {
  import opened Helpers

  /** Outside this band around the target the CPU and memory pools act. */
  const CpuDeadband: real := 10.0
  const MemoryDeadband: real := 10.0
  /** Outside this band around the target the network pool acts. */
  const NetworkDeadband: real := 5.0
  /** The network pool never holds more than this many workers. */
  const NetworkCap: int := 5
  /** Bytes in one MiB: the memory pool is sized in whole MiB. */
  const MiB: nat := 1024 * 1024

  /** One adjustment call: the value to move toward and the current reading. */
  datatype Request = Request(target: real, current: real)

  /** What one call does to a worker pool: start `add` workers, stop the
      `remove` most recently started ones, or leave the pool alone. */
  datatype PoolAction = ScaleUp(add: nat) | ScaleDown(remove: nat) | Hold

  /** What one call does to the memory pool: grow or shrink to `mb` MiB. */
  datatype BufferAction = Grow(mb: nat) | Shrink(mb: nat) | Keep

  /** The number of workers after `a` is applied to a pool of `workers`. */
  function After(workers: int, a: PoolAction): int {
    match a
    case ScaleUp(n) => workers + n
    case ScaleDown(n) => workers - n
    case Hold => workers
  }

  /** `adjustCPULoad` with `workers` running and room for `cap`. */
  /** It starts workers only below target and when there is room, never
      past `cap`, and stops at least one, never more than run, only above target. */
  function CpuAction(target: real, current: real, workers: int, cap: int): (a: PoolAction)
    ensures a.ScaleUp? ==> current < target && workers < cap && After(workers, a) <= cap
    ensures a.ScaleDown? ==> target < current && 0 < a.remove <= workers
  {
    var diff := target - current;
    if diff > CpuDeadband && workers < cap then
      ScaleUp(Min(Trunc(diff / 20.0), cap - workers))
    else if diff < -CpuDeadband && workers > 0 then
      ScaleDown(Min(workers, Trunc(-diff / 20.0) + 1))
    else Hold
  }

  /** `adjustNetworkLoad` with `workers` running. */
  /** It starts at least one worker only below target, never past
      `NetworkCap`, and stops at least one, never more than run, only above target. */
  function NetworkAction(targetMbps: real, currentMbps: real, workers: int): (a: PoolAction)
    ensures a.ScaleUp? ==> currentMbps < targetMbps && 0 < a.add && After(workers, a) <= NetworkCap
    ensures a.ScaleDown? ==> targetMbps < currentMbps && 0 < a.remove <= workers
  {
    var diff := targetMbps - currentMbps;
    if diff > NetworkDeadband && workers < NetworkCap then
      ScaleUp(Min(Trunc(diff / 10.0) + 1, NetworkCap - workers))
    else if diff < -NetworkDeadband && workers > 0 then
      ScaleDown(Min(workers, Trunc(-diff / 10.0) + 1))
    else Hold
  }

  /** `adjustMemoryLoad` on a buffer of `bytes` bytes with a ceiling of `maxMB` MiB. */
  /** It grows only below target, to a larger size within `maxMB`, and
      shrinks only above target, to a smaller size. */
  function MemoryAction(target: real, current: real, bytes: nat, maxMB: int): (a: BufferAction)
    ensures a.Grow? ==> current < target && bytes / MiB < a.mb <= maxMB
    ensures a.Shrink? ==> target < current && a.mb < bytes / MiB
  {
    var diff := target - current;
    var currentMB := bytes / MiB;
    if diff > MemoryDeadband then
      var newMB := Min(currentMB + Trunc(diff * 10.0), maxMB);
      if newMB > currentMB then Grow(newMB) else Keep
    else if diff < -MemoryDeadband && bytes > 0 then
      var newMB := Max(0, currentMB - Trunc(-diff * 10.0));
      if newMB < currentMB then Shrink(newMB) else Keep
    else Keep
  }

  /** The call a request makes, or no call at all. */
  function CpuActionFor(req: Option<Request>, workers: int, cap: int): PoolAction {
    match req
    case None => Hold
    case Some(r) => CpuAction(r.target, r.current, workers, cap)
  }

  function NetworkActionFor(req: Option<Request>, workers: int): PoolAction {
    match req
    case None => Hold
    case Some(r) => NetworkAction(r.target, r.current, workers)
  }

  function MemoryActionFor(req: Option<Request>, bytes: nat, maxMB: int): BufferAction {
    match req
    case None => Keep
    case Some(r) => MemoryAction(r.target, r.current, bytes, maxMB)
  }

  // ---------------------------------------------------------------------
  // Properties of the CPU pool

  /** The CPU pool never leaves `[0, cap]`. */
  lemma CpuActionBounded(target: real, current: real, workers: int, cap: int)
    requires 0 <= workers <= cap
    ensures 0 <= After(workers, CpuAction(target, current, workers, cap)) <= cap
    ensures CpuAction(target, current, workers, cap).ScaleDown? ==>
              CpuAction(target, current, workers, cap).remove <= workers
  {
  }

  /** The CPU pool acts exactly when the reading is outside the deadband and
      the pool can move in that direction. */
  lemma CpuActionDeadband(target: real, current: real, workers: int, cap: int)
    ensures CpuAction(target, current, workers, cap) != Hold <==>
              (target - current > CpuDeadband && workers < cap) ||
              (target - current < -CpuDeadband && workers > 0)
    ensures Abs(target - current) <= CpuDeadband ==> CpuAction(target, current, workers, cap) == Hold
  {
  }

  /** The CPU pool only ever moves toward the target: it grows when the
      reading is below the target and shrinks when it is above. */
  lemma CpuActionDirection(target: real, current: real, workers: int, cap: int)
    ensures CpuAction(target, current, workers, cap).ScaleUp? ==> current < target
    ensures CpuAction(target, current, workers, cap).ScaleDown? ==> current > target
    ensures CpuAction(target, current, workers, cap).ScaleDown? ==>
              CpuAction(target, current, workers, cap).remove >= 1
  {
  }

  /** Scale-up adds `floor(diff / 20)` workers, clamped to the room left, and
      scale-down stops `floor(-diff / 20) + 1`, clamped to what runs. */
  lemma CpuActionAmounts(target: real, current: real, workers: int, cap: int)
    ensures var a := CpuAction(target, current, workers, cap);
            var diff := target - current;
            (a.ScaleUp? ==> a.add == Min((diff / 20.0).Floor, cap - workers)) &&
            (a.ScaleDown? ==> a.remove == Min(workers, (-diff / 20.0).Floor + 1))
  {
  }

  /** A difference strictly between 10 and 20 points takes the scale-up
      branch but starts no worker at all. */
  lemma CpuScaleUpDeadZone(target: real, current: real, workers: int, cap: int)
    requires CpuDeadband < target - current < 20.0 && workers < cap
    ensures CpuAction(target, current, workers, cap) == ScaleUp(0)
  {
  }

  /** From an empty pool, target 80 at 50% starts one worker; then target 80
      at 95% stops it again. */
  lemma CpuActionExamples(cap: int)
    requires cap >= 2
    ensures CpuAction(80.0, 50.0, 0, cap) == ScaleUp(1)
    ensures CpuAction(80.0, 95.0, 1, cap) == ScaleDown(1)
  {
  }

  // ---------------------------------------------------------------------
  // Properties of the network pool

  /** The network pool never leaves `[0, NetworkCap]`. */
  lemma NetworkActionBounded(targetMbps: real, currentMbps: real, workers: int)
    requires 0 <= workers <= NetworkCap
    ensures 0 <= After(workers, NetworkAction(targetMbps, currentMbps, workers)) <= NetworkCap
    ensures NetworkAction(targetMbps, currentMbps, workers).ScaleDown? ==>
              NetworkAction(targetMbps, currentMbps, workers).remove <= workers
  {
  }

  /** The network pool acts exactly when the reading is outside the deadband
      and the pool can move in that direction; when it acts, it moves at
      least one worker, toward the target. */
  lemma NetworkActionDeadband(targetMbps: real, currentMbps: real, workers: int)
    ensures NetworkAction(targetMbps, currentMbps, workers) != Hold <==>
              (targetMbps - currentMbps > NetworkDeadband && workers < NetworkCap) ||
              (targetMbps - currentMbps < -NetworkDeadband && workers > 0)
    ensures NetworkAction(targetMbps, currentMbps, workers).ScaleUp? ==>
              currentMbps < targetMbps && NetworkAction(targetMbps, currentMbps, workers).add >= 1
    ensures NetworkAction(targetMbps, currentMbps, workers).ScaleDown? ==>
              currentMbps > targetMbps && NetworkAction(targetMbps, currentMbps, workers).remove >= 1
  {
  }

  /** Scale-up adds `floor(diff / 10) + 1` workers and scale-down stops
      `floor(-diff / 10) + 1`, each clamped. */
  lemma NetworkActionAmounts(targetMbps: real, currentMbps: real, workers: int)
    ensures var a := NetworkAction(targetMbps, currentMbps, workers);
            var diff := targetMbps - currentMbps;
            (a.ScaleUp? ==> a.add == Min((diff / 10.0).Floor + 1, NetworkCap - workers)) &&
            (a.ScaleDown? ==> a.remove == Min(workers, (-diff / 10.0).Floor + 1))
  {
  }

  /** Target 30 Mbps at 10 starts three workers; target 30 at 40 then stops two. */
  lemma NetworkActionExamples()
    ensures NetworkAction(30.0, 10.0, 0) == ScaleUp(3)
    ensures NetworkAction(30.0, 40.0, 3) == ScaleDown(2)
  {
  }

  /** Repeating any network adjustment keeps the pool within its cap. */
  function RepeatNetwork(targetMbps: real, currentMbps: real, workers: int, times: nat): int
    decreases times
  {
    if times == 0 then workers
    else RepeatNetwork(targetMbps, currentMbps,
                       After(workers, NetworkAction(targetMbps, currentMbps, workers)), times - 1)
  }

  lemma {:induction false} RepeatNetworkBounded(targetMbps: real, currentMbps: real, workers: int, times: nat)
    requires 0 <= workers <= NetworkCap
    ensures 0 <= RepeatNetwork(targetMbps, currentMbps, workers, times) <= NetworkCap
    decreases times
  {
    if times > 0 {
      NetworkActionBounded(targetMbps, currentMbps, workers);
      RepeatNetworkBounded(targetMbps, currentMbps,
                           After(workers, NetworkAction(targetMbps, currentMbps, workers)), times - 1);
    }
  }

  // ---------------------------------------------------------------------
  // Properties of the memory pool

  /** Growth goes to `min(cur + floor(diff * 10), maxMB)` MiB and only when
      that is larger; shrinking goes to `max(0, cur - floor(-diff * 10))` MiB
      and only from a non-empty buffer; inside the deadband nothing happens. */
  lemma MemoryActionCases(target: real, current: real, bytes: nat, maxMB: int)
    ensures var a := MemoryAction(target, current, bytes, maxMB);
            var diff := target - current;
            var cur := bytes / MiB;
            (a.Grow? <==> diff > MemoryDeadband && Min(cur + (diff * 10.0).Floor, maxMB) > cur) &&
            (a.Grow? ==> a.mb == Min(cur + (diff * 10.0).Floor, maxMB)) &&
            (a.Shrink? <==> diff < -MemoryDeadband && bytes > 0 && cur > 0) &&
            (a.Shrink? ==> a.mb == Max(0, cur - (-diff * 10.0).Floor)) &&
            (Abs(diff) <= MemoryDeadband ==> a == Keep)
  {
  }

  /** Growth never passes the ceiling and shrinking only gets smaller; so a
      buffer within the ceiling stays within it. */
  lemma MemoryActionBounded(target: real, current: real, bytes: nat, maxMB: int)
    ensures var a := MemoryAction(target, current, bytes, maxMB);
            (a.Grow? ==> bytes / MiB < a.mb <= maxMB) &&
            (a.Shrink? ==> a.mb < bytes / MiB)
  {
  }

  /** From empty with the default 1024 MiB ceiling, target 80% at 50% grows
      to 300 MiB; then target 80% at 95% shrinks to 150 MiB. With a 10 MiB
      ceiling, target 90% at 10% stops at 10 MiB. */
  lemma MemoryActionExamples()
    ensures MemoryAction(80.0, 50.0, 0, 1024) == Grow(300)
    ensures MemoryAction(80.0, 95.0, 300 * MiB, 1024) == Shrink(150)
    ensures MemoryAction(90.0, 10.0, 0, 10) == Grow(10)
  {
  }

  // ---------------------------------------------------------------------
  // How pool state moves

  /** Worker ids `first`, ..., `first + n - 1`: the stop channels made by one scale-up. */
  function Ids(first: nat, n: nat): (r: seq<nat>)
    ensures |r| == n
    ensures forall k :: 0 <= k < n ==> r[k] == first + k
  {
    seq(n, k => first + k)
  }

  /** `s` back to front: the order in which scale-down signals the channels it pops. */
  function Reversed(s: seq<nat>): (r: seq<nat>)
    ensures |r| == |s|
  {
    if s == [] then [] else Reversed(s[1..]) + [s[0]]
  }

  lemma {:induction false} ReversedAt(s: seq<nat>, k: nat)
    requires k < |s|
    ensures Reversed(s)[k] == s[|s| - 1 - k]
    decreases |s|
  {
    if k < |s| - 1 {
      ReversedAt(s[1..], k);
    }
  }

  /** The exact effect of one action on a pool's channel list, on the next
      channel id and on the log of signalled channels: scale-up appends fresh
      ids, scale-down pops from the end (last in, first out) and signals each
      popped channel in popping order. */
  ghost predicate Stepped(a: PoolAction, before: seq<nat>, after: seq<nat>,
                          next0: nat, next1: nat, log0: seq<nat>, log1: seq<nat>)
  {
    match a
    case ScaleUp(n) => after == before + Ids(next0, n) && next1 == next0 + n && log1 == log0
    case ScaleDown(n) =>
      n <= |before| && after == before[..|before| - n] && next1 == next0 &&
      log1 == log0 + Reversed(before[|before| - n..])
    case Hold => after == before && next1 == next0 && log1 == log0
  }

  /** The next channel id after `a`: a scale-up makes `n` channels. */
  function NextAfter(a: PoolAction, next0: nat): nat {
    if a.ScaleUp? then next0 + a.add else next0
  }

  /** The signal log after `a` on the list `before`: a scale-down signals the
      popped channels newest first. */
  function LogAfter(a: PoolAction, before: seq<nat>, log0: seq<nat>): seq<nat> {
    if a.ScaleDown? && a.remove <= |before| then log0 + Reversed(before[|before| - a.remove..])
    else log0
  }

  /** `Stepped` fixes the next id and the log as `NextAfter` and `LogAfter` say. */
  lemma SteppedAfter(a: PoolAction, before: seq<nat>, after: seq<nat>,
                     next0: nat, next1: nat, log0: seq<nat>, log1: seq<nat>)
    requires Stepped(a, before, after, next0, next1, log0, log1)
    ensures next1 == NextAfter(a, next0) && log1 == LogAfter(a, before, log0)
  {
  }

  /** Read off the lists alone: a list that got shorter lost a suffix and
      every dropped channel was signalled, newest first; a list that did not
      get shorter kept its old channels as a prefix, gained fresh ids only,
      and nothing was signalled. */
  lemma SteppedSignalsDropped(a: PoolAction, before: seq<nat>, after: seq<nat>,
                              next0: nat, next1: nat, log0: seq<nat>, log1: seq<nat>)
    requires Stepped(a, before, after, next0, next1, log0, log1)
    ensures |after| < |before| ==>
              after == before[..|after|] && log1 == log0 + Reversed(before[|after|..])
    ensures |after| >= |before| ==>
              after == before + Ids(next0, |after| - |before|) && next1 == next0 + (|after| - |before|) &&
              log1 == log0
  {
    if a.ScaleDown? && a.remove == 0 {
      assert before[|before|..] == [];
      assert before[..|before|] == before;
    }
  }

  /** The effect of one memory action on the buffer's contents: growth keeps
      the old bytes as a prefix, shrinking keeps a prefix of the old bytes. */
  ghost predicate MemoryMoved(a: BufferAction, before: seq<bv8>, after: seq<bv8>)
  {
    match a
    case Grow(mb) => |after| == mb * MiB && |before| <= |after| && after[..|before|] == before
    case Shrink(mb) => mb * MiB <= |before| && after == before[..mb * MiB]
    case Keep => after == before
  }
}
