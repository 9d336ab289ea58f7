/** The per-tick scaling policy of `monitor` (main.go): the cooldown gate,
    minimum-floor enforcement, and target-band adjustment, as a pure decision. */
module Policy {
  import opened Helpers
  import opened Pools

  /** The thresholds the controller reads once at start-up. Times are in one
      unit (seconds here) shared with the clock readings given to a tick. */
  datatype Config = Config(
    targetCpu: real,
    targetMemory: real,
    minCpu: real,
    minMemory: real,
    minNetworkMbps: real,
    monitorInterval: int,
    scaleUpDelay: int,
    scaleDownDelay: int,
    maxMemoryMB: int,
    enableMemory: bool)

  /** The configuration when no environment variable overrides a default. */
  const DefaultConfig: Config := Config(80.0, 80.0, 20.0, 20.0, 20.0, 30, 60, 120, 1024, true)

  /** What one tick decides. `Cooldown`: too soon after the last action;
      `EnforceFloors`: at least one minimum is violated, and only the floor
      requests run; `AdjustTargets`: some reading is outside its band;
      `Steady`: nothing to do. */
  datatype Plan =
    | Cooldown
    | EnforceFloors(cpu: Option<Request>, memory: Option<Request>, network: Option<Request>)
    | AdjustTargets(cpu: Option<Request>, memory: Option<Request>, network: Option<Request>, up: bool)
    | Steady

  /** The request a plan makes of each pool (none on `Cooldown` and `Steady`). */
  function CpuRequest(p: Plan): Option<Request> {
    if p.EnforceFloors? || p.AdjustTargets? then p.cpu else None
  }

  function MemoryRequest(p: Plan): Option<Request> {
    if p.EnforceFloors? || p.AdjustTargets? then p.memory else None
  }

  function NetworkRequest(p: Plan): Option<Request> {
    if p.EnforceFloors? || p.AdjustTargets? then p.network else None
  }

  /** The cooldown gate. `last == None` is the zero time of a controller that
      has not acted yet; its distance to any clock reading exceeds every
      delay, so it never blocks. */
  predicate InCooldown(cfg: Config, scalingUp: bool, last: Option<int>, now: int) {
    match last
    case None => false
    case Some(t) =>
      (scalingUp && now - t < cfg.scaleUpDelay) || (!scalingUp && now - t < cfg.scaleDownDelay)
  }

  /** Some minimum is violated: the CPU 95th percentile, memory (when its
      enforcement is on) or network throughput. */
  predicate FloorViolated(cfg: Config, cpu95: real, mem: real, net: real) {
    cpu95 < cfg.minCpu || (cfg.enableMemory && mem < cfg.minMemory) || net < cfg.minNetworkMbps
  }

  /** The floor requests of a tick: each violated floor asks its pool to
      move past it (CPU judged on the percentile but measured against the
      current reading). */
  function FloorPlan(cfg: Config, cpu: real, cpu95: real, mem: real, net: real): Plan {
    EnforceFloors(
      if cpu95 < cfg.minCpu then Some(Request(cfg.minCpu + 10.0, cpu)) else None,
      if cfg.enableMemory && mem < cfg.minMemory then Some(Request(cfg.minMemory + 10.0, mem)) else None,
      if net < cfg.minNetworkMbps then Some(Request(cfg.minNetworkMbps + 5.0, net)) else None)
  }

  /** The target requests of a tick: each reading outside its band asks its
      pool to move toward the reference. */
  function TargetPlan(cfg: Config, cpu: real, mem: real, net: real): Plan {
    var needsCpu := Abs(cpu - cfg.targetCpu) > 10.0;
    var needsMemory := cfg.enableMemory && Abs(mem - cfg.targetMemory) > 10.0;
    var needsNetwork := Abs(net - cfg.minNetworkMbps) > 5.0;
    if needsCpu || needsMemory || needsNetwork then
      AdjustTargets(
        if needsCpu then Some(Request(cfg.targetCpu, cpu)) else None,
        if needsMemory then Some(Request(cfg.targetMemory, mem)) else None,
        if needsNetwork then Some(Request(cfg.minNetworkMbps, net)) else None,
        cpu < cfg.targetCpu || mem < cfg.targetMemory || net < cfg.minNetworkMbps)
    else Steady
  }

  /** The decision of one tick, given the scaling state, the clock, the
      current CPU, memory and network readings and the CPU 95th percentile. */
  function Decide(cfg: Config, scalingUp: bool, last: Option<int>, now: int,
                  cpu: real, cpu95: real, mem: real, net: real): (p: Plan)
    ensures p.EnforceFloors? <==> !InCooldown(cfg, scalingUp, last, now) && FloorViolated(cfg, cpu95, mem, net)
  {
    if InCooldown(cfg, scalingUp, last, now) then Cooldown
    else if FloorViolated(cfg, cpu95, mem, net) then FloorPlan(cfg, cpu, cpu95, mem, net)
    else TargetPlan(cfg, cpu, mem, net)
  }

  // ---------------------------------------------------------------------
  // Properties of the decision

  /** A tick is a no-op exactly when the cooldown gate is closed. */
  lemma CooldownIsNoOp(cfg: Config, scalingUp: bool, last: Option<int>, now: int,
                       cpu: real, cpu95: real, mem: real, net: real)
    ensures Decide(cfg, scalingUp, last, now, cpu, cpu95, mem, net) == Cooldown <==>
              InCooldown(cfg, scalingUp, last, now)
  {
  }

  /** Floor enforcement takes priority: once the gate is open and any floor is
      violated, only floor requests are made. The CPU floor moves the pool
      toward `minCpu + 10` measured against the current CPU reading (not the
      percentile), memory toward `minMemory + 10`, network toward
      `minNetworkMbps + 5`. */
  lemma FloorsTakePriority(cfg: Config, scalingUp: bool, last: Option<int>, now: int,
                           cpu: real, cpu95: real, mem: real, net: real)
    requires !InCooldown(cfg, scalingUp, last, now) && FloorViolated(cfg, cpu95, mem, net)
    ensures var p := Decide(cfg, scalingUp, last, now, cpu, cpu95, mem, net);
            p.EnforceFloors? &&
            (CpuRequest(p) == if cpu95 < cfg.minCpu then Some(Request(cfg.minCpu + 10.0, cpu)) else None) &&
            (MemoryRequest(p) == if cfg.enableMemory && mem < cfg.minMemory
                                 then Some(Request(cfg.minMemory + 10.0, mem)) else None) &&
            (NetworkRequest(p) == if net < cfg.minNetworkMbps
                                  then Some(Request(cfg.minNetworkMbps + 5.0, net)) else None)
  {
  }

  /** The target path is reached only when no floor is violated. Each pool is
      asked to move exactly when its reading leaves its band: CPU 10 points
      around the target, memory 10 points (only when enabled), network 5 Mbps
      around the network minimum. The direction flag is "up" exactly when
      some reading is below its reference, memory counted even when disabled. */
  lemma TargetPathRequests(cfg: Config, scalingUp: bool, last: Option<int>, now: int,
                           cpu: real, cpu95: real, mem: real, net: real)
    requires !InCooldown(cfg, scalingUp, last, now) && !FloorViolated(cfg, cpu95, mem, net)
    ensures var p := Decide(cfg, scalingUp, last, now, cpu, cpu95, mem, net);
            (p.AdjustTargets? || p.Steady?) &&
            (CpuRequest(p).Some? <==> Abs(cpu - cfg.targetCpu) > 10.0) &&
            (CpuRequest(p).Some? ==> CpuRequest(p).value == Request(cfg.targetCpu, cpu)) &&
            (MemoryRequest(p).Some? <==> cfg.enableMemory && Abs(mem - cfg.targetMemory) > 10.0) &&
            (MemoryRequest(p).Some? ==> MemoryRequest(p).value == Request(cfg.targetMemory, mem)) &&
            (NetworkRequest(p).Some? <==> Abs(net - cfg.minNetworkMbps) > 5.0) &&
            (NetworkRequest(p).Some? ==> NetworkRequest(p).value == Request(cfg.minNetworkMbps, net)) &&
            (p.Steady? <==> CpuRequest(p).None? && MemoryRequest(p).None? && NetworkRequest(p).None?) &&
            (p.AdjustTargets? ==> (p.up <==> cpu < cfg.targetCpu || mem < cfg.targetMemory || net < cfg.minNetworkMbps))
  {
  }

  /** Two-tier coupling: whenever any floor is violated, no pool is moved
      toward its target that tick, even the pools whose floors hold. */
  lemma FloorViolationSuppressesTargets(cfg: Config, scalingUp: bool, last: Option<int>, now: int,
                                        cpu: real, cpu95: real, mem: real, net: real)
    requires FloorViolated(cfg, cpu95, mem, net)
    ensures var p := Decide(cfg, scalingUp, last, now, cpu, cpu95, mem, net);
            !p.AdjustTargets? && !p.Steady?
  {
  }

  /** After an action at `t` in the scaling-up direction, a tick earlier than
      `t + scaleUpDelay` does nothing, and from then on a new action is allowed. */
  lemma ScaleUpCooldownWindow(cfg: Config, t: int, now: int,
                              cpu: real, cpu95: real, mem: real, net: real)
    ensures now < t + cfg.scaleUpDelay ==>
              Decide(cfg, true, Some(t), now, cpu, cpu95, mem, net) == Cooldown
    ensures now >= t + cfg.scaleUpDelay ==>
              Decide(cfg, true, Some(t), now, cpu, cpu95, mem, net) != Cooldown
  {
  }

  /** With the default configuration and readings at their references
      (CPU 80, memory 80, network 20, percentile at least 20), no pool is asked
      to move. */
  lemma DefaultSteadyState(scalingUp: bool, last: Option<int>, now: int, cpu95: real)
    requires cpu95 >= 20.0
    ensures var p := Decide(DefaultConfig, scalingUp, last, now, 80.0, cpu95, 80.0, 20.0);
            p == Cooldown || p == Steady
  {
  }

  /** With the default configuration and CPU at 95 (percentile at least 20,
      memory 80, network 20), an open gate leads to a scale-down decision that
      strictly shrinks a non-empty CPU pool. */
  lemma DefaultHighCpuShrinks(scalingUp: bool, last: Option<int>, now: int, cpu95: real,
                              workers: int, cap: int)
    requires cpu95 >= 20.0 && !InCooldown(DefaultConfig, scalingUp, last, now)
    requires 0 < workers <= cap
    ensures var p := Decide(DefaultConfig, scalingUp, last, now, 95.0, cpu95, 80.0, 20.0);
            p == AdjustTargets(Some(Request(80.0, 95.0)), None, None, false) &&
            After(workers, CpuActionFor(CpuRequest(p), workers, cap)) < workers
  {
  }

  /** Floor enforcement is not always a CPU scale-up: with the default
      configuration, a percentile of 18 and a current reading of 60 (memory 60,
      network 25), the CPU floor asks the pool to move toward 30 from 60, which
      stops workers of a non-empty pool. */
  lemma CpuFloorCanShrink(scalingUp: bool, last: Option<int>, now: int, workers: int, cap: int)
    requires !InCooldown(DefaultConfig, scalingUp, last, now) && 0 < workers <= cap
    ensures var p := Decide(DefaultConfig, scalingUp, last, now, 60.0, 18.0, 60.0, 25.0);
            p == EnforceFloors(Some(Request(30.0, 60.0)), None, None) &&
            After(workers, CpuActionFor(CpuRequest(p), workers, cap)) < workers
  {
  }

  /** Floor enforcement on a CPU percentile below the minimum grows an empty,
      non-full CPU pool only when the current reading is at least 20 points
      below `minCpu + 10`; with the default minimum, a current reading between
      10 and 20 starts no worker at all. */
  lemma CpuFloorGrowth(cfg: Config, scalingUp: bool, last: Option<int>, now: int,
                       cpu: real, cpu95: real, mem: real, net: real, cap: int)
    requires !InCooldown(cfg, scalingUp, last, now) && cpu95 < cfg.minCpu && 0 < cap
    ensures var p := Decide(cfg, scalingUp, last, now, cpu, cpu95, mem, net);
            (After(0, CpuActionFor(CpuRequest(p), 0, cap)) > 0 <==> cfg.minCpu + 10.0 - cpu >= 20.0)
  {
    var diff := cfg.minCpu + 10.0 - cpu;
    if diff >= 20.0 {
      assert Trunc(diff / 20.0) >= 1;
    }
  }
}
