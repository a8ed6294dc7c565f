/**
 * The sampling and memory helpers of the monitor (src/rpi4-system-monitor.c
 * and the types of include/rpi4-system-monitor.h).
 *
 * The operating system is reached through three oracles, each a parameter:
 * the monotonic clock reading (a `Timespec`), the per-thread status query of
 * the process manager (a function from thread id to an optional CPU time), and
 * the address-space table of the system page (a sequence of named ranges).
 */
module SystemMonitor {
  import opened Uint64
  import opened Wrappers

  /** Largest number of cores a sample has room for. */
  const MAX_CPUS: nat := 32

  const NSEC_PER_SEC: nat := 1000000000

  // ---------------------------------------------------------------------------
  // Monotonic time
  // ---------------------------------------------------------------------------

  /** A clock reading: whole seconds and the nanoseconds past them. */
  datatype Timespec = Timespec(sec: int, nsec: int)

  /**
   * The reading in nanoseconds as a `uint64_t`: the seconds are cast to
   * unsigned, scaled, and the nanoseconds added, each step wrapping.
   */
  function GetNsecs(ts: Timespec): (r: u64)
    ensures r == (ts.sec * NSEC_PER_SEC + ts.nsec) % TWO_64
  {
    WrapMul(ts.sec, NSEC_PER_SEC);
    WrapAdd(ts.sec * NSEC_PER_SEC, ts.nsec);
    Wrap(Wrap(Wrap(ts.sec) * NSEC_PER_SEC) + Wrap(ts.nsec))
  }

  /** A reading the clock can give: normalised, and small enough not to wrap. */
  predicate Normalised(ts: Timespec)
  {
    0 <= ts.sec && 0 <= ts.nsec < NSEC_PER_SEC && ts.sec * NSEC_PER_SEC + ts.nsec < TWO_64
  }

  /** `a` is not later than `b`, comparing seconds first. */
  predicate NotLater(a: Timespec, b: Timespec)
  {
    a.sec < b.sec || (a.sec == b.sec && a.nsec <= b.nsec)
  }

  /** On normalised readings the conversion preserves and reflects their order. */
  lemma NsecsMonotone(a: Timespec, b: Timespec)
    requires Normalised(a) && Normalised(b)
    ensures GetNsecs(a) <= GetNsecs(b) <==> NotLater(a, b)
  {
  }

  // ---------------------------------------------------------------------------
  // Total physical memory
  // ---------------------------------------------------------------------------

  /** One entry of the system page's address-space table, its name resolved. */
  datatype AsInfo = AsInfo(name: string, start: u64, end: u64)

  /** Only an entry named exactly "ram" is physical memory. */
  predicate IsRam(e: AsInfo)
  {
    e.name == "ram"
  }

  /** The inclusive length of an entry's range, before any wrap-around. */
  function Extent(e: AsInfo): (r: int)
  {
    e.end - e.start + 1
  }

  /** The exact sum of the extents of the "ram" entries, taken in table order. */
  function RamSum(entries: seq<AsInfo>): (r: int)
  {
    if entries == [] then 0
    else
      var last := entries[|entries| - 1];
      RamSum(entries[..|entries| - 1]) + (if IsRam(last) then Extent(last) else 0)
  }

  /**
   * The size of physical memory: the `uint64_t` accumulator of the "ram"
   * extents, visited in order from 0. A result of 0 is the error value.
   */
  method GetTotalRam(entries: seq<AsInfo>) returns (total: u64)
    ensures total == Wrap(RamSum(entries))
  {
    total := 0;
    for i := 0 to |entries|
      invariant total == Wrap(RamSum(entries[..i]))
    {
      assert entries[..i + 1][..i] == entries[..i];
      if entries[i].name == "ram" {
        WrapAdd(RamSum(entries[..i]), Extent(entries[i]));
        total := Wrap(total + Wrap(entries[i].end - entries[i].start + 1));
      }
    }
    assert entries[..|entries|] == entries;
  }

  /** The sum over a concatenated table is the sum over its parts. */
  lemma {:induction false} RamSumAppend(a: seq<AsInfo>, b: seq<AsInfo>)
    ensures RamSum(a + b) == RamSum(a) + RamSum(b)
    decreases |b|
  {
    if b != [] {
      var b' := b[..|b| - 1];
      assert (a + b)[..|a + b| - 1] == a + b';
      RamSumAppend(a, b');
    } else {
      assert a + b == a;
    }
  }

  /** An entry with any other name, inserted anywhere, contributes nothing. */
  lemma RamSumIgnoresOtherNames(entries: seq<AsInfo>, k: nat, e: AsInfo)
    requires k <= |entries| && !IsRam(e)
    ensures RamSum(entries[..k] + [e] + entries[k..]) == RamSum(entries)
  {
    var before, after := entries[..k], entries[k..];
    calc {
      RamSum(before + [e] + after);
    == { RamSumAppend(before + [e], after); }
      RamSum(before + [e]) + RamSum(after);
    == { assert (before + [e])[..|before + [e]| - 1] == before; }
      RamSum(before) + RamSum(after);
    == { RamSumAppend(before, after); }
      RamSum(before + after);
    == { assert before + after == entries; }
      RamSum(entries);
    }
  }

  /** Matching is exact: "RAM", "ram0" and "sysram" are not memory. */
  lemma LookalikeNamesIgnored(entries: seq<AsInfo>, start: u64, end: u64)
    ensures RamSum(entries + [AsInfo("RAM", start, end), AsInfo("ram0", start, end),
                              AsInfo("sysram", start, end)]) == RamSum(entries)
  {
    var others := [AsInfo("RAM", start, end), AsInfo("ram0", start, end), AsInfo("sysram", start, end)];
    NoRamGivesZero(others);
    RamSumAppend(entries, others);
  }

  /** A table without a "ram" entry gives the error value 0. */
  lemma {:induction false} NoRamGivesZero(entries: seq<AsInfo>)
    requires forall i :: 0 <= i < |entries| ==> !IsRam(entries[i])
    ensures RamSum(entries) == 0 && Wrap(RamSum(entries)) == 0
  {
    if entries != [] {
      NoRamGivesZero(entries[..|entries| - 1]);
    }
  }

  /** Every entry describes a non-empty range. */
  predicate WellFormed(entries: seq<AsInfo>)
  {
    forall i :: 0 <= i < |entries| ==> entries[i].start <= entries[i].end
  }

  /** With well-formed ranges the exact sum is positive precisely when some entry is "ram". */
  lemma {:induction false} RamSumPositive(entries: seq<AsInfo>)
    requires WellFormed(entries)
    ensures RamSum(entries) >= 0
    ensures RamSum(entries) > 0 <==> exists i :: 0 <= i < |entries| && IsRam(entries[i])
  {
    if entries != [] {
      var init := entries[..|entries| - 1];
      RamSumPositive(init);
      if exists i :: 0 <= i < |init| && IsRam(init[i]) {
        var i :| 0 <= i < |init| && IsRam(init[i]);
        assert IsRam(entries[i]);
      }
      if exists i :: 0 <= i < |entries| && IsRam(entries[i]) {
        var i :| 0 <= i < |entries| && IsRam(entries[i]);
        if i < |init| {
          assert IsRam(init[i]);
        }
      }
    }
  }

  /**
   * When the ranges are well formed and their total fits in 64 bits, the
   * result is the error value 0 exactly when no entry is named "ram".
   */
  lemma TotalRamZeroIffNoRam(entries: seq<AsInfo>)
    requires WellFormed(entries) && RamSum(entries) < TWO_64
    ensures Wrap(RamSum(entries)) == 0 <==> forall i :: 0 <= i < |entries| ==> !IsRam(entries[i])
  {
    RamSumPositive(entries);
  }

  // ---------------------------------------------------------------------------
  // Memory information
  // ---------------------------------------------------------------------------

  /** The free-memory source: a placeholder that always reports 0 bytes. */
  function GetFreeRam(): (r: u64)
    ensures r == 0
  {
    0
  }

  /** The three counters a caller hands over to be filled. */
  class MemoryInfo {
    var totalRam: u64
    var freeRam: u64
    var usedRam: u64

    constructor ()
      ensures totalRam == 0 && freeRam == 0 && usedRam == 0
    {
      totalRam, freeRam, usedRam := 0, 0, 0;
    }
  }

  /**
   * Fills `mem` from the given total: the free amount comes from the
   * placeholder source and the used amount is their unsigned difference,
   * which never wraps because the free amount is 0.
   */
  method GetMemoryInfo(totalRam: u64, mem: MemoryInfo)
    modifies mem
    ensures mem.totalRam == totalRam
    ensures mem.freeRam == GetFreeRam() == 0
    ensures mem.usedRam == Sub64(mem.totalRam, mem.freeRam)
    ensures mem.usedRam + mem.freeRam == mem.totalRam && mem.usedRam == totalRam
  {
    mem.totalRam := totalRam;
    mem.freeRam := GetFreeRam();
    mem.usedRam := Sub64(totalRam, mem.freeRam);
  }

  // ---------------------------------------------------------------------------
  // CPU samples
  // ---------------------------------------------------------------------------

  /** The value held by a sample at one instant. */
  datatype Snapshot = Snapshot(wallTime: u64, idleTime: seq<u64>)

  /** A wall time and one cumulative time counter per core slot. */
  class CpuSample {
    var wallTime: u64
    const idleTime: array<u64>

    ghost predicate Valid()
      reads this
    {
      idleTime.Length == MAX_CPUS
    }

    constructor ()
      ensures Valid() && fresh(idleTime)
      ensures wallTime == 0 && forall i :: 0 <= i < MAX_CPUS ==> idleTime[i] == 0
    {
      wallTime := 0;
      idleTime := new u64[MAX_CPUS](_ => 0);
    }

    function Value(): (r: Snapshot)
      reads this, idleTime
    {
      Snapshot(wallTime, idleTime[..])
    }
  }

  /** What a slot receives from one query: the thread's time, or 0 when it failed. */
  function QueryResult(status: Option<u64>): (r: u64)
  {
    match status
    case Some(t) => t
    case None => 0
  }

  /**
   * The slots after the first `n` cores have been queried in order, core `i`
   * through thread id `i + 1`; the slots from `n` on keep their values.
   */
  function Filled(slots: seq<u64>, devctl: int -> Option<u64>, n: nat): (r: seq<u64>)
    requires n <= |slots|
    ensures |r| == |slots|
  {
    if n == 0 then slots
    else Filled(slots, devctl, n - 1)[n - 1 := QueryResult(devctl(n))]
  }

  /** Slot by slot: the queried slots hold their own thread's reading, the others are untouched. */
  lemma {:induction false} FilledAt(slots: seq<u64>, devctl: int -> Option<u64>, n: nat, i: int)
    requires n <= |slots| && 0 <= i < |slots|
    ensures Filled(slots, devctl, n)[i] == if i < n then QueryResult(devctl(i + 1)) else slots[i]
  {
    if n > 0 && i != n - 1 {
      FilledAt(slots, devctl, n - 1, i);
    }
  }

  /**
   * A failing query for thread `tid` zeroes that core's slot and changes no
   * other slot: every other core reads as if the query had succeeded.
   */
  lemma FailedQueryIsolated(slots: seq<u64>, devctl: int -> Option<u64>, n: nat, tid: int)
    requires n <= |slots| && 1 <= tid <= n
    ensures Filled(slots, t => if t == tid then None else devctl(t), n)[tid - 1] == 0
    ensures forall i :: 0 <= i < |slots| && i != tid - 1 ==>
      Filled(slots, t => if t == tid then None else devctl(t), n)[i] == Filled(slots, devctl, n)[i]
  {
    var failing := t => if t == tid then None else devctl(t);
    FilledAt(slots, failing, n, tid - 1);
    forall i | 0 <= i < |slots| && i != tid - 1
      ensures Filled(slots, failing, n)[i] == Filled(slots, devctl, n)[i]
    {
      FilledAt(slots, failing, n, i);
      FilledAt(slots, devctl, n, i);
    }
  }

  /**
   * Takes one sample: stamps the wall time from the clock reading, then
   * queries each of the first `numCpus` cores in order.
   */
  method GetCpuSample(clock: Timespec, devctl: int -> Option<u64>, numCpus: nat, sample: CpuSample)
    requires sample.Valid() && numCpus <= MAX_CPUS
    modifies sample, sample.idleTime
    ensures sample.Valid()
    ensures sample.wallTime == GetNsecs(clock)
    ensures sample.idleTime[..] == Filled(old(sample.idleTime[..]), devctl, numCpus)
  {
    sample.wallTime := GetNsecs(clock);
    for i := 0 to numCpus
      invariant sample.wallTime == GetNsecs(clock)
      invariant sample.idleTime[..] == Filled(old(sample.idleTime[..]), devctl, i)
    {
      var status := devctl(i + 1);
      if status.Some? {
        sample.idleTime[i] := status.value;
      } else {
        sample.idleTime[i] := 0;
      }
    }
  }
}
