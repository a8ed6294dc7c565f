/**
 * The monitoring program (src/main.c): start-up, then one cycle at a time of
 * sampling, memory accounting, per-core loads and their average, after
 * which the sample just taken becomes the previous one.
 *
 * A cycle hands the loads and the average back instead of printing them.
 */
module MainLoop {
  import opened Uint64
  import opened Wrappers
  import opened SystemMonitor
  import opened Load

  /** The state the program keeps between cycles: its configuration and the previous sample. */
  class Monitor {
    const numCpus: nat
    const totalRam: u64
    const prev: CpuSample

    ghost predicate Valid()
      reads this, prev
    {
      1 <= numCpus <= MAX_CPUS && totalRam != 0 && prev.Valid()
    }

    /** Takes the first sample, before the loop begins. */
    constructor (numCpus: nat, totalRam: u64, clock: Timespec, devctl: int -> Option<u64>)
      requires 1 <= numCpus <= MAX_CPUS && totalRam != 0
      ensures Valid() && fresh(prev) && fresh(prev.idleTime)
      ensures this.numCpus == numCpus && this.totalRam == totalRam
      ensures prev.wallTime == GetNsecs(clock)
      ensures forall i :: 0 <= i < numCpus ==> prev.idleTime[i] == QueryResult(devctl(i + 1))
    {
      this.numCpus := numCpus;
      this.totalRam := totalRam;
      prev := new CpuSample();
      new;
      ghost var blank := prev.idleTime[..];
      GetCpuSample(clock, devctl, numCpus, prev);
      forall i | 0 <= i < numCpus
        ensures prev.idleTime[i] == QueryResult(devctl(i + 1))
      {
        FilledAt(blank, devctl, numCpus, i);
      }
    }

    /**
     * The utilization step of one cycle against the sample `curr`: the load
     * of every core and their average, then the rotation that makes `curr`
     * the previous sample. The wall clock must have moved since the previous
     * sample.
     */
    method Step(curr: CpuSample) returns (loads: seq<real>, average: real)
      requires Valid() && curr.Valid()
      requires curr != prev && curr.idleTime != prev.idleTime
      requires curr.wallTime != prev.wallTime
      modifies prev, prev.idleTime
      ensures Valid()
      ensures loads == Utilization(old(prev.Value()), curr.Value(), numCpus)
      ensures average == Mean(loads)
      ensures |loads| == numCpus && Percentages(loads) && 0.0 <= average <= 100.0
      ensures prev.Value() == curr.Value()
    {
      var wallDiff := Sub64(curr.wallTime, prev.wallTime);
      var totalLoad := 0.0;
      loads := [];
      for i := 0 to numCpus
        invariant |loads| == i
        invariant forall k :: 0 <= k < i ==>
          loads[k] == CoreLoad(Sub64(curr.idleTime[k], prev.idleTime[k]), wallDiff)
        invariant totalLoad == Sum(loads)
      {
        var idleDiff := Sub64(curr.idleTime[i], prev.idleTime[i]);
        var load := 100.0 - (idleDiff as real / wallDiff as real * 100.0);
        if load < 0.0 {
          load := 0.0;
        }
        if load > 100.0 {
          load := 100.0;
        }
        assert load == CoreLoad(idleDiff, wallDiff);
        assert (loads + [load])[..i] == loads;
        totalLoad := totalLoad + load;
        loads := loads + [load];
      }
      average := totalLoad / numCpus as real;
      assert loads == Utilization(prev.Value(), curr.Value(), numCpus);
      UtilizationInRange(prev.Value(), curr.Value(), numCpus);
      prev.wallTime := curr.wallTime;
      forall k | 0 <= k < MAX_CPUS {
        prev.idleTime[k] := curr.idleTime[k];
      }
      assert prev.idleTime[..] == curr.idleTime[..];
    }

    /**
     * One pass of the program's loop after the pause: sample into `curr`,
     * fill `mem` from the total, compute the loads, rotate the samples.
     */
    method Cycle(curr: CpuSample, mem: MemoryInfo, clock: Timespec, devctl: int -> Option<u64>)
      returns (loads: seq<real>, average: real)
      requires Valid() && curr.Valid()
      requires curr != prev && curr.idleTime != prev.idleTime
      requires GetNsecs(clock) != prev.wallTime
      modifies prev, prev.idleTime, curr, curr.idleTime, mem
      ensures Valid()
      ensures curr.wallTime == GetNsecs(clock)
      ensures curr.idleTime[..] == Filled(old(curr.idleTime[..]), devctl, numCpus)
      ensures mem.totalRam == totalRam && mem.freeRam == 0 && mem.usedRam == totalRam
      ensures loads == Utilization(old(prev.Value()), curr.Value(), numCpus)
      ensures average == Mean(loads) && 0.0 <= average <= 100.0
      ensures prev.Value() == curr.Value()
    {
      GetCpuSample(clock, devctl, numCpus, curr);
      GetMemoryInfo(totalRam, mem);
      loads, average := Step(curr);
    }
  }

  /**
   * Start-up: the total memory is read from the address-space table and a
   * result of 0 is fatal; otherwise the first sample is taken.
   */
  method Start(entries: seq<AsInfo>, numCpus: nat, clock: Timespec, devctl: int -> Option<u64>)
    returns (monitor: Option<Monitor>)
    requires 1 <= numCpus <= MAX_CPUS
    ensures monitor.None? <==> Wrap(RamSum(entries)) == 0
    ensures monitor.Some? ==>
      && fresh(monitor.value) && fresh(monitor.value.prev) && fresh(monitor.value.prev.idleTime)
      && monitor.value.Valid()
      && monitor.value.totalRam == Wrap(RamSum(entries))
      && monitor.value.numCpus == numCpus
      && monitor.value.prev.wallTime == GetNsecs(clock)
      && (forall i :: 0 <= i < numCpus ==> monitor.value.prev.idleTime[i] == QueryResult(devctl(i + 1)))
  {
    var totalRam := GetTotalRam(entries);
    if totalRam == 0 {
      return None;
    }
    var m := new Monitor(numCpus, totalRam, clock, devctl);
    monitor := Some(m);
  }
}
