/** The `ResourceBurner` controller of main.go: its pools, sample window and
    scaling state, the operations that change them, one monitor tick and the
    shutdown drain. Every operation runs as one atomic, sequential step. */
module Burner {
  import opened Helpers
  import opened Samples
  import opened Pools
  import opened Policy

  /** The memory toucher writes one byte per page of this size. */
  const PageSize: nat := 4096

  /** One successful reading of the node's CPU and memory utilisation, in percent. */
  datatype Utilization = Utilization(cpu: real, memory: real)

  ghost predicate Distinct(s: seq<nat>) {
    forall i, j :: 0 <= i < j < |s| ==> s[i] != s[j]
  }

  // ---------------------------------------------------------------------
  // Subsequences: which stop channels a shutdown reaches

  /** `a` is `b` with some elements left out, order kept. */
  ghost predicate IsSubsequence(a: seq<nat>, b: seq<nat>)
    decreases |b|
  {
    if a == [] then true
    else if b == [] then false
    else (a[|a| - 1] == b[|b| - 1] && IsSubsequence(a[..|a| - 1], b[..|b| - 1]))
         || IsSubsequence(a, b[..|b| - 1])
  }

  lemma SubsequenceExtend(a: seq<nat>, b: seq<nat>, x: nat)
    requires IsSubsequence(a, b)
    ensures IsSubsequence(a + [x], b + [x])
    ensures IsSubsequence(a, b + [x])
  {
    assert (a + [x])[..|a|] == a;
    assert (b + [x])[..|b|] == b;
  }

  lemma {:induction false} SubsequenceAppend(a: seq<nat>, b: seq<nat>, d: seq<nat>)
    requires IsSubsequence(a, b)
    ensures IsSubsequence(a, b + d)
    decreases |d|
  {
    if d == [] {
      assert b + d == b;
    } else {
      var d' := d[..|d| - 1];
      SubsequenceAppend(a, b, d');
      assert (b + d)[..|b + d| - 1] == b + d';
    }
  }

  /** Subsequences of two lists concatenate to a subsequence of the concatenation. */
  lemma {:induction false} SubsequenceConcat(a: seq<nat>, b: seq<nat>, c: seq<nat>, d: seq<nat>)
    requires IsSubsequence(a, b) && IsSubsequence(c, d)
    ensures IsSubsequence(a + c, b + d)
    decreases |d|
  {
    if c == [] {
      assert a + c == a;
      SubsequenceAppend(a, b, d);
    } else {
      var c', d' := c[..|c| - 1], d[..|d| - 1];
      assert (b + d)[..|b + d| - 1] == b + d';
      assert (a + c)[..|a + c| - 1] == a + c';
      if c[|c| - 1] == d[|d| - 1] && IsSubsequence(c', d') {
        SubsequenceConcat(a, b, c', d');
      } else {
        SubsequenceConcat(a, b, c, d');
      }
    }
  }

  // ---------------------------------------------------------------------
  // Stop-channel bookkeeping

  /** Channel bookkeeping of two pools `a` and `b`: no channel in two places,
      every listed channel unsignalled, every id below the next fresh one. */
  ghost predicate ChannelsOk(a: seq<nat>, b: seq<nat>, next: nat, log: seq<nat>) {
    && Distinct(a) && Distinct(b)
    && (forall c :: c in a ==> c !in b)
    && (forall c :: c in a ==> c < next && c !in log)
    && (forall c :: c in b ==> c < next && c !in log)
    && (forall c :: c in log ==> c < next)
  }

  lemma ChannelsOkSwap(a: seq<nat>, b: seq<nat>, next: nat, log: seq<nat>)
    ensures ChannelsOk(a, b, next, log) == ChannelsOk(b, a, next, log)
  {
  }

  /** Appending a freshly made channel to pool `a` keeps the bookkeeping. */
  lemma ChannelsOkFresh(a: seq<nat>, b: seq<nat>, next: nat, log: seq<nat>)
    requires ChannelsOk(a, b, next, log)
    ensures ChannelsOk(a + [next], b, next + 1, log)
  {
    var a' := a + [next];
    forall i, j | 0 <= i < j < |a'|
      ensures a'[i] != a'[j]
    {
      if j == |a| {
        assert a[i] in a;
      }
    }
  }

  /** Signalling and forgetting the newest channel of pool `a` keeps the bookkeeping. */
  lemma ChannelsOkPop(a: seq<nat>, b: seq<nat>, next: nat, log: seq<nat>)
    requires ChannelsOk(a, b, next, log) && |a| > 0
    ensures ChannelsOk(a[..|a| - 1], b, next, log + [a[|a| - 1]])
  {
    var p := a[..|a| - 1];
    assert a[|a| - 1] in a;
    forall c | c in p
      ensures c in a && c != a[|a| - 1]
    {
      var k :| 0 <= k < |p| && p[k] == c;
      assert a[k] == c;
    }
  }

  /** Signalling some channels of pool `a` and then forgetting pool `a`
      keeps the bookkeeping. */
  lemma ChannelsOkDrain(a: seq<nat>, b: seq<nat>, next: nat, log: seq<nat>, sa: seq<nat>)
    requires ChannelsOk(a, b, next, log)
    requires forall c :: c in sa ==> c in a
    ensures ChannelsOk([], b, next, log + sa)
  {
    forall c | c in log + sa
      ensures c < next
    {
      if c in sa {
        assert c in a;
      }
    }
  }

  /** Popping one more channel from the end extends the reversed tail by it. */
  lemma PopStep(s0: seq<nat>, i: nat)
    requires i < |s0|
    ensures Reversed(s0[|s0| - (i + 1)..]) == Reversed(s0[|s0| - i..]) + [s0[|s0| - i - 1]]
    ensures s0[..|s0| - i][..|s0| - i - 1] == s0[..|s0| - (i + 1)]
  {
    var t := s0[|s0| - (i + 1)..];
    assert t[1..] == s0[|s0| - i..];
  }

  /** A pool of `mb` whole MiB, compared with one of `bytes` bytes in whole MiB. */
  lemma WholeMiB(mb: nat, bytes: nat)
    requires bytes % MiB == 0
    ensures (mb * MiB) % MiB == 0 && (mb * MiB) / MiB == mb
    ensures bytes == (bytes / MiB) * MiB
    ensures mb > bytes / MiB ==> mb * MiB > bytes
    ensures mb < bytes / MiB ==> mb * MiB < bytes
  {
  }

  /** The page starts below `i + PageSize` are those below `i`, and `i` itself. */
  lemma NextPage(i: nat, len: nat)
    requires i % PageSize == 0 && i < len
    ensures (set k | 0 <= k < len && k < i + PageSize && k % PageSize == 0)
            == (set k | 0 <= k < len && k < i && k % PageSize == 0) + {i}
  {
    forall k | 0 <= k < len && i < k < i + PageSize
      ensures k % PageSize != 0
    {
      assert (k - i) % PageSize == k % PageSize;
    }
  }

  class ResourceBurner {
    const config: Config
    /** The processor count; the CPU pool holds at most twice as many workers. */
    const numCPU: nat

    /** The memory pool: a Go slice, `memoryLen` bytes over the buffer `memoryData`. */
    var memoryData: array<bv8>
    var memoryLen: nat
    var cpuWorkers: int
    /** One stop channel per CPU worker, oldest first, named by its id. */
    var stopChannels: seq<nat>
    var networkWorkers: int
    var networkStopChans: seq<nat>
    /** The id the next `make(chan bool, 1)` returns. */
    var nextChannel: nat
    /** Every stop channel that has been sent `true`, in sending order. */
    ghost var signalled: seq<nat>

    /** The last scaling action; `None` is Go's zero time. */
    var lastScaleAction: Option<int>
    var scalingUp: bool

    var cpuSamples: seq<real>
    /** Every CPU sample ever added, oldest first. */
    ghost var sampleHistory: seq<real>

    function MaxCpuWorkers(): int {
      2 * numCPU
    }

    /** Stop channels are never shared between workers, every listed channel
        is still empty (so a send on it cannot block), and ids are fresh. */
    ghost predicate ChannelsValid()
      reads this
    {
      ChannelsOk(stopChannels, networkStopChans, nextChannel, signalled)
    }

    ghost predicate Valid()
      reads this
    {
      && cpuWorkers == |stopChannels| && cpuWorkers <= MaxCpuWorkers()
      && networkWorkers == |networkStopChans| && networkWorkers <= NetworkCap
      && memoryLen <= memoryData.Length && memoryLen % MiB == 0
      && (memoryLen == 0 || memoryLen / MiB <= config.maxMemoryMB)
      && cpuSamples == Recent(sampleHistory)
      && ChannelsValid()
    }

    /** The bytes of the memory pool. */
    ghost function Contents(): seq<bv8>
      reads this`memoryData, this`memoryLen, memoryData
      requires memoryLen <= memoryData.Length
    {
      memoryData[..memoryLen]
    }

    /** A controller with empty pools and window, as `NewResourceBurner` builds it. */
    constructor (config: Config, numCPU: nat)
      ensures Valid()
      ensures this.config == config && this.numCPU == numCPU
      ensures cpuWorkers == 0 && stopChannels == [] && networkWorkers == 0 && networkStopChans == []
      ensures memoryLen == 0 && cpuSamples == [] && sampleHistory == [] && signalled == []
      ensures lastScaleAction == None && !scalingUp
    {
      this.config := config;
      this.numCPU := numCPU;
      memoryData := new bv8[0];
      memoryLen := 0;
      cpuWorkers := 0;
      stopChannels := [];
      networkWorkers := 0;
      networkStopChans := [];
      nextChannel := 0;
      signalled := [];
      lastScaleAction := None;
      scalingUp := false;
      cpuSamples := [];
      sampleHistory := [];
    }

    /** `addCPUSample`: the window stays the last `WindowCapacity` samples. */
    method AddCpuSample(cpuPercent: real)
      requires Valid()
      modifies this`cpuSamples, this`sampleHistory
      ensures Valid()
      ensures cpuSamples == PushSample(old(cpuSamples), cpuPercent)
      ensures sampleHistory == old(sampleHistory) + [cpuPercent]
    {
      PushSampleRecent(sampleHistory, cpuPercent);
      cpuSamples := cpuSamples + [cpuPercent];
      if |cpuSamples| > WindowCapacity {
        cpuSamples := cpuSamples[1..];
      }
      sampleHistory := sampleHistory + [cpuPercent];
    }

    // -------------------------------------------------------------------
    // CPU pool

    /** `adjustCPULoad`: start or stop CPU workers as `CpuAction` decides. */
    method AdjustCpuLoad(targetUtilization: real, currentUtilization: real)
      requires Valid()
      modifies this`cpuWorkers, this`stopChannels, this`nextChannel, this`signalled
      ensures Valid()
      ensures Stepped(CpuAction(targetUtilization, currentUtilization, old(cpuWorkers), MaxCpuWorkers()),
                      old(stopChannels), stopChannels, old(nextChannel), nextChannel,
                      old(signalled), signalled)
    {
      var utilizationDiff := targetUtilization - currentUtilization;
      var maxWorkers := MaxCpuWorkers();
      if utilizationDiff > CpuDeadband && cpuWorkers < maxWorkers {
        var newWorkers := Min(Trunc(utilizationDiff / 20.0), maxWorkers - cpuWorkers);
        StartCpuWorkers(newWorkers);
      } else if utilizationDiff < -CpuDeadband && cpuWorkers > 0 {
        var workersToStop := Min(cpuWorkers, Trunc(-utilizationDiff / 20.0) + 1);
        StopCpuWorkers(workersToStop);
      }
    }

    /** The scale-up loop of `adjustCPULoad`: one fresh stop channel per new worker. */
    method StartCpuWorkers(newWorkers: int)
      requires Valid() && 0 <= newWorkers && cpuWorkers + newWorkers <= MaxCpuWorkers()
      modifies this`cpuWorkers, this`stopChannels, this`nextChannel
      ensures Valid()
      ensures stopChannels == old(stopChannels) + Ids(old(nextChannel), newWorkers)
      ensures nextChannel == old(nextChannel) + newWorkers
    {
      var i := 0;
      while i < newWorkers
        invariant 0 <= i <= newWorkers
        invariant stopChannels == old(stopChannels) + Ids(old(nextChannel), i)
        invariant nextChannel == old(nextChannel) + i
        invariant cpuWorkers == old(cpuWorkers) + i == |stopChannels|
        invariant ChannelsOk(stopChannels, networkStopChans, nextChannel, signalled)
      {
        assert Ids(old(nextChannel), i + 1) == Ids(old(nextChannel), i) + [nextChannel];
        ChannelsOkFresh(stopChannels, networkStopChans, nextChannel, signalled);
        stopChannels := stopChannels + [nextChannel];
        nextChannel := nextChannel + 1;
        cpuWorkers := cpuWorkers + 1;
        i := i + 1;
      }
    }

    /** The scale-down loop of `adjustCPULoad`: signal and forget the newest workers. */
    method StopCpuWorkers(workersToStop: int)
      requires Valid() && 0 <= workersToStop <= cpuWorkers
      modifies this`cpuWorkers, this`stopChannels, this`signalled
      ensures Valid()
      ensures stopChannels == old(stopChannels)[..old(cpuWorkers) - workersToStop]
      ensures signalled == old(signalled) + Reversed(old(stopChannels)[old(cpuWorkers) - workersToStop..])
    {
      ghost var s0 := stopChannels;
      var i := 0;
      while i < workersToStop && |stopChannels| > 0
        invariant Valid()
        invariant 0 <= i <= workersToStop
        invariant stopChannels == s0[..|s0| - i]
        invariant signalled == old(signalled) + Reversed(s0[|s0| - i..])
      {
        ghost var before := stopChannels;
        PopStep(s0, i);
        PopCpuWorker();
        assert stopChannels == s0[..|s0| - (i + 1)];
        assert signalled == old(signalled) + Reversed(s0[|s0| - (i + 1)..]) by {
          assert before[|before| - 1] == s0[|s0| - i - 1];
        }
        i := i + 1;
      }
      assert i == workersToStop;
    }

    /** One step of CPU scale-down: signal the newest worker's channel, then
        drop it from the list and the count. */
    method PopCpuWorker()
      requires Valid() && |stopChannels| > 0
      modifies this`cpuWorkers, this`stopChannels, this`signalled
      ensures Valid()
      ensures stopChannels == old(stopChannels)[..|old(stopChannels)| - 1]
      ensures signalled == old(signalled) + [old(stopChannels)[|old(stopChannels)| - 1]]
    {
      var lastIdx := |stopChannels| - 1;
      ChannelsOkPop(stopChannels, networkStopChans, nextChannel, signalled);
      signalled := signalled + [stopChannels[lastIdx]];
      stopChannels := stopChannels[..lastIdx];
      cpuWorkers := cpuWorkers - 1;
    }

    // -------------------------------------------------------------------
    // Network pool

    /** `adjustNetworkLoad`: start or stop network workers as `NetworkAction` decides. */
    method AdjustNetworkLoad(targetMbps: real, currentMbps: real)
      requires Valid()
      modifies this`networkWorkers, this`networkStopChans, this`nextChannel, this`signalled
      ensures Valid()
      ensures Stepped(NetworkAction(targetMbps, currentMbps, old(networkWorkers)),
                      old(networkStopChans), networkStopChans, old(nextChannel), nextChannel,
                      old(signalled), signalled)
    {
      var utilizationDiff := targetMbps - currentMbps;
      var maxWorkers := NetworkCap;
      if utilizationDiff > NetworkDeadband && networkWorkers < maxWorkers {
        var newWorkers := Min(Trunc(utilizationDiff / 10.0) + 1, maxWorkers - networkWorkers);
        StartNetworkWorkers(newWorkers);
      } else if utilizationDiff < -NetworkDeadband && networkWorkers > 0 {
        var workersToStop := Min(networkWorkers, Trunc(-utilizationDiff / 10.0) + 1);
        StopNetworkWorkers(workersToStop);
      }
    }

    /** The scale-up loop of `adjustNetworkLoad`. */
    method StartNetworkWorkers(newWorkers: int)
      requires Valid() && 0 <= newWorkers && networkWorkers + newWorkers <= NetworkCap
      modifies this`networkWorkers, this`networkStopChans, this`nextChannel
      ensures Valid()
      ensures networkStopChans == old(networkStopChans) + Ids(old(nextChannel), newWorkers)
      ensures nextChannel == old(nextChannel) + newWorkers
    {
      ChannelsOkSwap(stopChannels, networkStopChans, nextChannel, signalled);
      var i := 0;
      while i < newWorkers
        invariant 0 <= i <= newWorkers
        invariant networkStopChans == old(networkStopChans) + Ids(old(nextChannel), i)
        invariant nextChannel == old(nextChannel) + i
        invariant networkWorkers == old(networkWorkers) + i == |networkStopChans|
        invariant ChannelsOk(networkStopChans, stopChannels, nextChannel, signalled)
      {
        assert Ids(old(nextChannel), i + 1) == Ids(old(nextChannel), i) + [nextChannel];
        ChannelsOkFresh(networkStopChans, stopChannels, nextChannel, signalled);
        networkStopChans := networkStopChans + [nextChannel];
        nextChannel := nextChannel + 1;
        networkWorkers := networkWorkers + 1;
        i := i + 1;
      }
      ChannelsOkSwap(networkStopChans, stopChannels, nextChannel, signalled);
    }

    /** The scale-down loop of `adjustNetworkLoad`. */
    method StopNetworkWorkers(workersToStop: int)
      requires Valid() && 0 <= workersToStop <= networkWorkers
      modifies this`networkWorkers, this`networkStopChans, this`signalled
      ensures Valid()
      ensures networkStopChans == old(networkStopChans)[..old(networkWorkers) - workersToStop]
      ensures signalled == old(signalled) + Reversed(old(networkStopChans)[old(networkWorkers) - workersToStop..])
    {
      ghost var s0 := networkStopChans;
      var i := 0;
      while i < workersToStop && |networkStopChans| > 0
        invariant Valid()
        invariant 0 <= i <= workersToStop
        invariant networkStopChans == s0[..|s0| - i]
        invariant signalled == old(signalled) + Reversed(s0[|s0| - i..])
      {
        ghost var before := networkStopChans;
        PopStep(s0, i);
        PopNetworkWorker();
        assert networkStopChans == s0[..|s0| - (i + 1)];
        assert signalled == old(signalled) + Reversed(s0[|s0| - (i + 1)..]) by {
          assert before[|before| - 1] == s0[|s0| - i - 1];
        }
        i := i + 1;
      }
      assert i == workersToStop;
    }

    /** One step of network scale-down, as `PopCpuWorker` for the network pool. */
    method PopNetworkWorker()
      requires Valid() && |networkStopChans| > 0
      modifies this`networkWorkers, this`networkStopChans, this`signalled
      ensures Valid()
      ensures networkStopChans == old(networkStopChans)[..|old(networkStopChans)| - 1]
      ensures signalled == old(signalled) + [old(networkStopChans)[|old(networkStopChans)| - 1]]
    {
      var lastIdx := |networkStopChans| - 1;
      ChannelsOkSwap(stopChannels, networkStopChans, nextChannel, signalled);
      ChannelsOkPop(networkStopChans, stopChannels, nextChannel, signalled);
      signalled := signalled + [networkStopChans[lastIdx]];
      networkStopChans := networkStopChans[..lastIdx];
      networkWorkers := networkWorkers - 1;
      ChannelsOkSwap(networkStopChans, stopChannels, nextChannel, signalled);
    }

    // -------------------------------------------------------------------
    // Memory pool

    /** `adjustMemoryLoad`: grow (copying the old bytes and filling the rest
        with arbitrary bytes) or shrink (by truncation) as `MemoryAction` decides. */
    method AdjustMemoryLoad(targetUtilization: real, currentUtilization: real)
      requires Valid()
      modifies this`memoryData, this`memoryLen
      ensures Valid()
      ensures MemoryMoved(MemoryAction(targetUtilization, currentUtilization, old(memoryLen), config.maxMemoryMB),
                          old(Contents()), Contents())
      ensures MemoryAction(targetUtilization, currentUtilization, old(memoryLen), config.maxMemoryMB).Grow? ==>
                fresh(memoryData)
      ensures MemoryAction(targetUtilization, currentUtilization, old(memoryLen), config.maxMemoryMB).Keep? ==>
                memoryData == old(memoryData) && memoryLen == old(memoryLen)
    {
      ghost var action := MemoryAction(targetUtilization, currentUtilization, memoryLen, config.maxMemoryMB);
      ghost var before := Contents();
      var utilizationDiff := targetUtilization - currentUtilization;
      if utilizationDiff > MemoryDeadband {
        var currentSizeMB := memoryLen / MiB;
        var additionalMB := Trunc(utilizationDiff * 10.0);
        var newSizeMB := Min(currentSizeMB + additionalMB, config.maxMemoryMB);
        if newSizeMB > currentSizeMB {
          assert action == Grow(newSizeMB);
          WholeMiB(newSizeMB, memoryLen);
          GrowBuffer(newSizeMB * MiB);
        } else {
          assert action == Keep;
        }
      } else if utilizationDiff < -MemoryDeadband && memoryLen > 0 {
        var currentSizeMB := memoryLen / MiB;
        var reductionMB := Trunc(-utilizationDiff * 10.0);
        var newSizeMB := Max(0, currentSizeMB - reductionMB);
        if newSizeMB < currentSizeMB {
          assert action == Shrink(newSizeMB);
          WholeMiB(newSizeMB, memoryLen);
          if newSizeMB == 0 {
            memoryData := new bv8[0];
            memoryLen := 0;
          } else {
            memoryLen := newSizeMB * MiB;
          }
          assert Contents() == before[..newSizeMB * MiB];
        } else {
          assert action == Keep;
        }
      } else {
        assert action == Keep;
      }
    }

    /** The growth branch of `adjustMemoryLoad`: a new buffer of `newLen`
        bytes holding the old bytes first and arbitrary bytes after them. */
    method GrowBuffer(newLen: nat)
      requires memoryLen <= memoryData.Length && memoryLen <= newLen
      modifies this`memoryData, this`memoryLen
      ensures fresh(memoryData) && memoryData.Length == newLen && memoryLen == newLen
      ensures Contents()[..old(memoryLen)] == old(Contents())
    {
      var newData := new bv8[newLen];
      forall k | 0 <= k < memoryLen {
        newData[k] := memoryData[k];
      }
      var i := memoryLen;
      while i < newLen
        invariant memoryLen <= i <= newLen
        invariant newData[..memoryLen] == old(Contents())
      {
        var b: bv8 := *;
        newData[i] := b;
        i := i + 1;
      }
      memoryData := newData;
      memoryLen := newLen;
    }

    // -------------------------------------------------------------------
    // Memory toucher

    /** One pass of `memoryWorker`: overwrite the first byte of every page of
        the pool with an arbitrary byte. `touched` is the set of bytes written;
        every other byte of the buffer keeps its value. */
    method TouchPages() returns (ghost touched: set<int>)
      requires Valid()
      modifies memoryData
      ensures Valid()
      ensures touched == set k | 0 <= k < memoryLen && k % PageSize == 0
      ensures forall k :: 0 <= k < memoryData.Length && k !in touched ==> memoryData[k] == old(memoryData[k])
    {
      touched := {};
      if memoryLen > 0 {
        var i := 0;
        while i < memoryLen
          invariant 0 <= i && i % PageSize == 0
          invariant touched == set k | 0 <= k < memoryLen && k < i && k % PageSize == 0
          invariant forall k :: 0 <= k < memoryData.Length && k !in touched ==> memoryData[k] == old(memoryData[k])
        {
          var b: bv8 := *;
          memoryData[i] := b;
          NextPage(i, memoryLen);
          touched := touched + {i};
          i := i + PageSize;
        }
      }
    }

    // -------------------------------------------------------------------
    // Monitor tick

    /** The requests of a plan applied in the order of main.go: CPU, then
        memory, then network; a pool without a request is left alone. */
    method ApplyRequests(plan: Plan)
      requires Valid()
      modifies this`cpuWorkers, this`stopChannels, this`networkWorkers, this`networkStopChans,
               this`nextChannel, this`signalled, this`memoryData, this`memoryLen
      ensures Valid()
      ensures PoolsStepped(plan, old(cpuWorkers), old(stopChannels), old(networkWorkers), old(networkStopChans),
                           old(memoryLen), old(Contents()), old(nextChannel), old(signalled))
    {
      ApplyCpuRequest(CpuRequest(plan));
      SteppedAfter(CpuActionFor(CpuRequest(plan), old(cpuWorkers), MaxCpuWorkers()),
                   old(stopChannels), stopChannels, old(nextChannel), nextChannel, old(signalled), signalled);
      ApplyMemoryRequest(MemoryRequest(plan));
      ApplyNetworkRequest(NetworkRequest(plan));
    }

    method ApplyCpuRequest(req: Option<Request>)
      requires Valid()
      modifies this`cpuWorkers, this`stopChannels, this`nextChannel, this`signalled
      ensures Valid()
      ensures Stepped(CpuActionFor(req, old(cpuWorkers), MaxCpuWorkers()), old(stopChannels), stopChannels,
                      old(nextChannel), nextChannel, old(signalled), signalled)
    {
      if req.Some? {
        AdjustCpuLoad(req.value.target, req.value.current);
      }
    }

    method ApplyMemoryRequest(req: Option<Request>)
      requires Valid()
      modifies this`memoryData, this`memoryLen
      ensures Valid()
      ensures MemoryMoved(MemoryActionFor(req, old(memoryLen), config.maxMemoryMB), old(Contents()), Contents())
    {
      if req.Some? {
        AdjustMemoryLoad(req.value.target, req.value.current);
      }
    }

    method ApplyNetworkRequest(req: Option<Request>)
      requires Valid()
      modifies this`networkWorkers, this`networkStopChans, this`nextChannel, this`signalled
      ensures Valid()
      ensures Stepped(NetworkActionFor(req, old(networkWorkers)), old(networkStopChans), networkStopChans,
                      old(nextChannel), nextChannel, old(signalled), signalled)
    {
      if req.Some? {
        AdjustNetworkLoad(req.value.target, req.value.current);
      }
    }

    /** The body of one `monitor` tick: record the CPU sample, compute the 95th
        percentile, then act as `Decide` says. A failed metrics read changes
        nothing; a failed network read counts as 0 Mbps. */
    method Tick(now: int, metrics: Option<Utilization>, network: Option<real>)
      requires Valid()
      modifies this
      ensures Valid()
      ensures metrics.None? ==> unchanged(this)
      ensures metrics.Some? ==>
                sampleHistory == old(sampleHistory) + [metrics.value.cpu] &&
                cpuSamples == PushSample(old(cpuSamples), metrics.value.cpu)
      ensures metrics.Some? ==>
                Acted(Decide(config, old(scalingUp), old(lastScaleAction), now, metrics.value.cpu,
                             Percentile95(cpuSamples), metrics.value.memory, network.GetOr(0.0)),
                      now, old(cpuWorkers), old(stopChannels), old(networkWorkers), old(networkStopChans),
                      old(memoryLen), old(Contents()), old(memoryData), old(nextChannel), old(signalled),
                      old(scalingUp), old(lastScaleAction))
    {
      if metrics.None? {
        return;
      }
      var cpuUtil, memUtil := metrics.value.cpu, metrics.value.memory;
      AddCpuSample(cpuUtil);
      var cpu95th := Percentile95(cpuSamples);
      var networkUtil := network.GetOr(0.0);
      Act(now, cpuUtil, cpu95th, memUtil, networkUtil);
    }

    /** Each pool moved exactly as the plan's request for it says, from the
        state given by the other arguments: the CPU step first (fresh ids from
        `next0`, popped channels signalled after `log0`), then memory, then the
        network step from where the CPU step left the id counter and the log. */
    ghost predicate PoolsStepped(plan: Plan, cpu0: int, stop0: seq<nat>, net0: int, netStop0: seq<nat>,
                                 len0: nat, bytes0: seq<bv8>, next0: nat, log0: seq<nat>)
      reads this, memoryData
      requires memoryLen <= memoryData.Length
    {
      var cpuAction := CpuActionFor(CpuRequest(plan), cpu0, MaxCpuWorkers());
      var networkAction := NetworkActionFor(NetworkRequest(plan), net0);
      var next1, log1 := NextAfter(cpuAction, next0), LogAfter(cpuAction, stop0, log0);
      && Stepped(cpuAction, stop0, stopChannels, next0, next1, log0, log1)
      && MemoryMoved(MemoryActionFor(MemoryRequest(plan), len0, config.maxMemoryMB), bytes0, Contents())
      && Stepped(networkAction, netStop0, networkStopChans, next1, nextChannel, log1, signalled)
    }

    /** What a tick did, given the plan it followed and the state before it:
        each pool moved as its request says, and the scaling state records
        the action unless there was none. */
    ghost predicate Acted(plan: Plan, now: int, cpu0: int, stop0: seq<nat>, net0: int, netStop0: seq<nat>,
                          len0: nat, bytes0: seq<bv8>, data0: array<bv8>, next0: nat, log0: seq<nat>,
                          up0: bool, last0: Option<int>)
      reads this, memoryData
      requires memoryLen <= memoryData.Length
    {
      && PoolsStepped(plan, cpu0, stop0, net0, netStop0, len0, bytes0, next0, log0)
      && (if plan.Cooldown? || plan.Steady?
          then scalingUp == up0 && lastScaleAction == last0 && memoryData == data0
          else lastScaleAction == Some(now) && scalingUp == (plan.EnforceFloors? || plan.up))
    }

    /** The gated part of a tick (everything after the percentile): the
        cooldown gate, then floor enforcement, then target adjustment. */
    method Act(now: int, cpuUtil: real, cpu95th: real, memUtil: real, networkUtil: real)
      requires Valid()
      modifies this`cpuWorkers, this`stopChannels, this`networkWorkers, this`networkStopChans,
               this`nextChannel, this`signalled, this`memoryData, this`memoryLen,
               this`scalingUp, this`lastScaleAction
      ensures Valid()
      ensures Acted(Decide(config, old(scalingUp), old(lastScaleAction), now, cpuUtil, cpu95th, memUtil, networkUtil),
                    now, old(cpuWorkers), old(stopChannels), old(networkWorkers), old(networkStopChans),
                    old(memoryLen), old(Contents()), old(memoryData), old(nextChannel), old(signalled),
                    old(scalingUp), old(lastScaleAction))
    {
      if scalingUp && lastScaleAction.Some? && now - lastScaleAction.value < config.scaleUpDelay {
        return;
      }
      if !scalingUp && lastScaleAction.Some? && now - lastScaleAction.value < config.scaleDownDelay {
        return;
      }
      var needsMinimumEnforcement := cpu95th < config.minCpu ||
                                     (config.enableMemory && memUtil < config.minMemory) ||
                                     networkUtil < config.minNetworkMbps;
      if needsMinimumEnforcement {
        EnforceMinimums(now, cpuUtil, cpu95th, memUtil, networkUtil);
      } else {
        AdjustTowardTargets(now, cpuUtil, memUtil, networkUtil);
      }
    }

    /** Floor enforcement of a tick: each violated floor asks its pool to move
        past it, and the action is recorded as a scale-up. */
    method EnforceMinimums(now: int, cpuUtil: real, cpu95th: real, memUtil: real, networkUtil: real)
      requires Valid()
      modifies this`cpuWorkers, this`stopChannels, this`networkWorkers, this`networkStopChans,
               this`nextChannel, this`signalled, this`memoryData, this`memoryLen,
               this`scalingUp, this`lastScaleAction
      ensures Valid()
      ensures Acted(FloorPlan(config, cpuUtil, cpu95th, memUtil, networkUtil),
                    now, old(cpuWorkers), old(stopChannels), old(networkWorkers), old(networkStopChans),
                    old(memoryLen), old(Contents()), old(memoryData), old(nextChannel), old(signalled),
                    old(scalingUp), old(lastScaleAction))
    {
      var cpuFloor := if cpu95th < config.minCpu then Some(Request(config.minCpu + 10.0, cpuUtil)) else None;
      var memoryFloor := if config.enableMemory && memUtil < config.minMemory
                         then Some(Request(config.minMemory + 10.0, memUtil)) else None;
      var networkFloor := if networkUtil < config.minNetworkMbps
                          then Some(Request(config.minNetworkMbps + 5.0, networkUtil)) else None;
      var plan := EnforceFloors(cpuFloor, memoryFloor, networkFloor);
      assert plan == FloorPlan(config, cpuUtil, cpu95th, memUtil, networkUtil);
      ApplyRequests(plan);
      RecordAction(now, true);
    }

    /** Record a scaling action at `now` in the given direction. */
    method RecordAction(now: int, up: bool)
      modifies this`lastScaleAction, this`scalingUp
      ensures lastScaleAction == Some(now) && scalingUp == up
    {
      lastScaleAction := Some(now);
      scalingUp := up;
    }

    /** Target adjustment of a tick: each reading outside its band asks its
        pool to move toward the target, after recording the direction. */
    method AdjustTowardTargets(now: int, cpuUtil: real, memUtil: real, networkUtil: real)
      requires Valid()
      modifies this`cpuWorkers, this`stopChannels, this`networkWorkers, this`networkStopChans,
               this`nextChannel, this`signalled, this`memoryData, this`memoryLen,
               this`scalingUp, this`lastScaleAction
      ensures Valid()
      ensures Acted(TargetPlan(config, cpuUtil, memUtil, networkUtil),
                    now, old(cpuWorkers), old(stopChannels), old(networkWorkers), old(networkStopChans),
                    old(memoryLen), old(Contents()), old(memoryData), old(nextChannel), old(signalled),
                    old(scalingUp), old(lastScaleAction))
    {
      var needsCpuAdjustment := Abs(cpuUtil - config.targetCpu) > 10.0;
      var needsMemoryAdjustment := config.enableMemory && Abs(memUtil - config.targetMemory) > 10.0;
      var needsNetworkAdjustment := Abs(networkUtil - config.minNetworkMbps) > 5.0;
      if needsCpuAdjustment || needsMemoryAdjustment || needsNetworkAdjustment {
        var up := cpuUtil < config.targetCpu || memUtil < config.targetMemory ||
                  networkUtil < config.minNetworkMbps;
        var plan := AdjustTargets(
          if needsCpuAdjustment then Some(Request(config.targetCpu, cpuUtil)) else None,
          if needsMemoryAdjustment then Some(Request(config.targetMemory, memUtil)) else None,
          if needsNetworkAdjustment then Some(Request(config.minNetworkMbps, networkUtil)) else None,
          up);
        assert plan == TargetPlan(config, cpuUtil, memUtil, networkUtil);
        ApplyTargets(now, plan);
      } else {
        assert TargetPlan(config, cpuUtil, memUtil, networkUtil) == Steady;
      }
    }

    /** The acting branch of target adjustment: record the direction at `now`,
        then apply the requests. */
    method ApplyTargets(now: int, plan: Plan)
      requires Valid() && plan.AdjustTargets?
      modifies this`cpuWorkers, this`stopChannels, this`networkWorkers, this`networkStopChans,
               this`nextChannel, this`signalled, this`memoryData, this`memoryLen,
               this`scalingUp, this`lastScaleAction
      ensures Valid()
      ensures Acted(plan, now, old(cpuWorkers), old(stopChannels), old(networkWorkers), old(networkStopChans),
                    old(memoryLen), old(Contents()), old(memoryData), old(nextChannel), old(signalled),
                    old(scalingUp), old(lastScaleAction))
    {
      RecordAction(now, plan.up);
      ApplyRequests(plan);
    }

    // -------------------------------------------------------------------
    // Shutdown

    /** Send `true` on each channel of `chans` in order, inside a `select`
        against the grace context. While the grace period has not expired
        only the send is ready (a listed channel's one-slot buffer is empty),
        so every channel is signalled; once it has expired either case may be
        chosen. `sent` is the channels actually signalled. */
    method SignalAll(chans: seq<nat>, graceExpired: bool) returns (ghost sent: seq<nat>)
      modifies this`signalled
      ensures signalled == old(signalled) + sent
      ensures IsSubsequence(sent, chans)
      ensures forall c :: c in sent ==> c in chans
      ensures !graceExpired ==> sent == chans
    {
      sent := [];
      var i := 0;
      while i < |chans|
        invariant 0 <= i <= |chans|
        invariant signalled == old(signalled) + sent
        invariant IsSubsequence(sent, chans[..i])
        invariant forall c :: c in sent ==> c in chans[..i]
        invariant !graceExpired ==> sent == chans[..i]
      {
        var delivered := true;
        if graceExpired {
          delivered := *;
        }
        assert chans[..i + 1] == chans[..i] + [chans[i]];
        SubsequenceExtend(sent, chans[..i], chans[i]);
        if delivered {
          signalled := signalled + [chans[i]];
          sent := sent + [chans[i]];
        }
        i := i + 1;
      }
      assert chans[..i] == chans;
    }

    /** The shutdown drain of `main`: signal every CPU and then every network
        stop channel, forget both lists, zero both counts and release the memory. */
    method Shutdown(graceExpired: bool) returns (ghost sent: seq<nat>)
      requires Valid()
      modifies this`stopChannels, this`cpuWorkers, this`networkStopChans, this`networkWorkers,
               this`memoryData, this`memoryLen, this`signalled
      ensures Valid()
      ensures stopChannels == [] && cpuWorkers == 0
      ensures networkStopChans == [] && networkWorkers == 0
      ensures memoryLen == 0 && memoryData.Length == 0
      ensures signalled == old(signalled) + sent
      ensures IsSubsequence(sent, old(stopChannels) + old(networkStopChans))
      ensures !graceExpired ==> sent == old(stopChannels) + old(networkStopChans)
    {
      ghost var cpuSent := StopAllCpuWorkers(graceExpired);
      ghost var networkSent := StopAllNetworkWorkers(graceExpired);
      ReleaseMemory();
      sent := cpuSent + networkSent;
      SubsequenceConcat(cpuSent, old(stopChannels), networkSent, old(networkStopChans));
    }

    /** The CPU block of the drain: signal every CPU stop channel, then forget
        the list and zero the count. */
    method StopAllCpuWorkers(graceExpired: bool) returns (ghost sent: seq<nat>)
      requires Valid()
      modifies this`stopChannels, this`cpuWorkers, this`signalled
      ensures Valid()
      ensures stopChannels == [] && cpuWorkers == 0
      ensures signalled == old(signalled) + sent
      ensures IsSubsequence(sent, old(stopChannels))
      ensures !graceExpired ==> sent == old(stopChannels)
    {
      sent := SignalAll(stopChannels, graceExpired);
      ChannelsOkDrain(old(stopChannels), networkStopChans, nextChannel, old(signalled), sent);
      stopChannels := [];
      cpuWorkers := 0;
    }

    /** The network block of the drain, in the same way. */
    method StopAllNetworkWorkers(graceExpired: bool) returns (ghost sent: seq<nat>)
      requires Valid()
      modifies this`networkStopChans, this`networkWorkers, this`signalled
      ensures Valid()
      ensures networkStopChans == [] && networkWorkers == 0
      ensures signalled == old(signalled) + sent
      ensures IsSubsequence(sent, old(networkStopChans))
      ensures !graceExpired ==> sent == old(networkStopChans)
    {
      sent := SignalAll(networkStopChans, graceExpired);
      ChannelsOkSwap(stopChannels, old(networkStopChans), nextChannel, old(signalled));
      ChannelsOkDrain(old(networkStopChans), stopChannels, nextChannel, old(signalled), sent);
      ChannelsOkSwap([], stopChannels, nextChannel, old(signalled) + sent);
      networkStopChans := [];
      networkWorkers := 0;
    }

    /** The memory block of the drain: the pool becomes empty. */
    method ReleaseMemory()
      requires Valid()
      modifies this`memoryData, this`memoryLen
      ensures Valid()
      ensures memoryLen == 0 && memoryData.Length == 0
    {
      memoryData := new bv8[0];
      memoryLen := 0;
    }
  }
}
