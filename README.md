# QNX Raspberry Pi 4 system monitor — a Dafny model of its core

The monitor shows, once per second, the load of each CPU core and their
average, together with the size of physical memory. This project models the
arithmetic around the operating-system calls and proves what it guarantees:

- `uint64.dfy` (module `Uint64`): `uint64_t` values and the wrap-around of
  C's unsigned arithmetic, including the wrapping difference of two counters.
- `wrappers.dfy` (module `Wrappers`): the `Option` type for queries that can fail.
- `system_monitor.dfy` (module `SystemMonitor`, src/rpi4-system-monitor.c and
  include/rpi4-system-monitor.h):
  - the clock reading converted to nanoseconds;
  - the total of the address-space entries named `"ram"`, as a loop over the
    table against a recursive sum;
  - the memory record filled through its out-pointer, with the placeholder
    free-memory source that always reports 0;
  - the CPU sample, a class holding a wall time and a 32-slot array that
    `GetCpuSample` fills in place, one per-thread query per core, with 0 for
    a failed query and the slots past the core count untouched.
- `load.dfy` (module `Load`, src/main.c): the per-core load
  `100 - idle_diff / wall_diff * 100` over reals, its clamp to `[0, 100]`, the
  sum and mean of the loads, and the utilization vector between two samples.
- `main_loop.dfy` (module `MainLoop`, src/main.c): start-up, where a total of
  0 is fatal, and the class `Monitor`, which keeps the previous sample. Its
  `Step` computes every core's load and the average in one loop and then
  copies the current sample into the previous one. `Cycle` is one pass of
  the program's loop: sample, memory record, `Step`.

The operating system enters only as parameters:

- the monotonic clock reading is a `Timespec`;
- the per-thread status query of the process manager is a function from
  thread id to `Option<u64>`, where `None` is a failed query;
- the system page's address-space table is a sequence of `(name, start, end)`
  entries whose names are already looked up in the string table.

Two edge cases of the code shape the model:

- The code has no guard for a zero `wall_diff`. It divides by zero, which in
  `double` gives NaN, or minus infinity clamped to 0. The model therefore
  requires the wall time to have moved (`Step`, `Cycle`, `CoreLoad`).
- A failed per-thread query writes 0 into that core's slot.

## Model

| member | source | states |
|---|---|---|
| `Uint64.Sub64` | src/main.c:56-64 | the unsigned difference is the true difference when the counter did not go back, and that difference plus 2^64 when it did; it is 0 exactly when the two readings are equal |
| `SystemMonitor.GetNsecs` | src/rpi4-system-monitor.c:25-29 | the stepwise wrapping cast, scale and add gives `(sec * 10^9 + nsec) mod 2^64` |
| `SystemMonitor.NsecsMonotone` | src/rpi4-system-monitor.c:28 | on normalised readings that do not overflow, one nanosecond count is at most another exactly when its reading is not later (seconds first, then nanoseconds) |
| `SystemMonitor.GetTotalRam` | src/rpi4-system-monitor.c:32-46 | the accumulator, started at 0 and updated in table order, ends as the exact sum of `end - start + 1` over the entries named `"ram"`, modulo 2^64 |
| `SystemMonitor.RamSumAppend` | src/rpi4-system-monitor.c:38-44 | the "ram" total of two concatenated tables is the sum of their totals |
| `SystemMonitor.RamSumIgnoresOtherNames` | src/rpi4-system-monitor.c:41 | inserting an entry with any name other than `"ram"` anywhere leaves the total unchanged |
| `SystemMonitor.LookalikeNamesIgnored` | src/rpi4-system-monitor.c:41 | the match is exact: entries named `"RAM"`, `"ram0"` and `"sysram"` add nothing |
| `SystemMonitor.NoRamGivesZero` | src/rpi4-system-monitor.c:36-45 | a table with no `"ram"` entry gives 0, the error value |
| `SystemMonitor.RamSumPositive` | src/rpi4-system-monitor.c:41-42 | with well-formed ranges the exact total is never negative, and positive exactly when some entry is `"ram"` |
| `SystemMonitor.TotalRamZeroIffNoRam` | include/rpi4-system-monitor.h:49-53 | with well-formed ranges whose total fits in 64 bits, the result is the error value 0 exactly when no entry is `"ram"` |
| `SystemMonitor.GetFreeRam` | src/rpi4-system-monitor.c:49-54 | the free-memory source is a placeholder that reports 0 bytes whatever the system's state |
| `SystemMonitor.GetMemoryInfo` | src/rpi4-system-monitor.c:49-60 | the record holds the given total, free 0 from the placeholder, and used equal to the unsigned `total - free`, which is the total itself with no underflow for any total |
| `SystemMonitor.Filled` | src/rpi4-system-monitor.c:66-77 | filling the first `n` slots keeps the array's length |
| `SystemMonitor.FilledAt` | src/rpi4-system-monitor.c:66-77 | after filling, slot `i < n` holds the reading of thread `i + 1` (0 if its query failed) and every slot from `n` on keeps its old value |
| `SystemMonitor.FailedQueryIsolated` | src/rpi4-system-monitor.c:72-76 | a failed query for one thread writes 0 to that core's slot and leaves every other slot as it would have been |
| `SystemMonitor.GetCpuSample` | src/rpi4-system-monitor.c:62-78 | the wall time is the clock reading and the slot array becomes the in-order fill of the first `num_cpus` cores from the per-thread queries |
| `Load.RawLoad` | src/main.c:67 | before clamping, the load never exceeds 100; it is exactly 100 when the counter did not advance, and at most 0 exactly when the counter advanced at least as far as the wall clock |
| `Load.Clamp` | src/main.c:68-69 | the result is in `[0, 100]`; a value below 0 becomes 0, above 100 becomes 100, and a value in range is kept |
| `Load.CoreLoad` | src/main.c:64-69 | a core's load is always a percentage |
| `Load.FullLoadIffCounterStalled` | src/main.c:67-69 | over a positive interval the load is 100 exactly when the core's counter did not advance |
| `Load.ZeroLoadIffCounterCoversInterval` | src/main.c:67-68 | the load is 0 exactly when the counter advanced at least as far as the wall clock |
| `Load.PartialLoad` | src/main.c:66-67 | when the counter advanced part of the interval the load lies strictly between 0 and 100 and equals `100 * (wall_diff - idle_diff) / wall_diff` |
| `Load.BackwardsCounterShowsNoLoad` | src/main.c:64-68 | a counter that went backwards, such as a real reading followed by the 0 of a failed query, wraps to a difference that yields load 0 whenever the backwards step plus the wall interval is at most 2^64 |
| `Load.QuarterIdleIsThreeQuarterLoad` | src/main.c:66-67 | a 1 s interval with 0.25 s on the counter gives load 75 |
| `Load.SumBounds` | src/main.c:57-72 | the accumulated total of `n` percentages lies in `[0, 100 * n]` |
| `Load.Mean` | src/main.c:75 | the average multiplied by the core count gives back the accumulated total |
| `Load.MeanBounds` | src/main.c:75 | the average of percentages over at least one core is a percentage |
| `Load.IdleAndBusyAverageHalf` | src/main.c:75 | loads 0 and 100 average 50 |
| `Load.Utilization` | src/main.c:56-73 | between two samples there is one load per core, and each is a percentage |
| `Load.FullLoadIffSameReading` | src/main.c:64-69 | between two samples a core shows load 100 exactly when its counter reads the same in both |
| `Load.UtilizationInRange` | src/main.c:56-75 | the utilization vector between two samples has one percentage per core and its average is a percentage |
| `MainLoop.Monitor.constructor` | src/main.c:42-49 | the first sample is taken before the loop: its wall time is the clock reading and each core's slot holds its thread's reading or 0 |
| `MainLoop.Monitor.Step` | src/main.c:56-83 | the loads are the utilization vector between the old previous sample and the current one, the average is their mean and lies in `[0, 100]`, and afterwards the previous sample equals the current one |
| `MainLoop.Monitor.Cycle` | src/main.c:51-83 | one pass samples into the current slot, fills the memory record (used = total, free = 0), computes the loads and average, and rotates the current sample into the previous one |
| `MainLoop.Start` | src/main.c:31-49 | start-up fails exactly when the memory total is 0; otherwise the monitor holds that total, the core count and a newly allocated first sample stamped with the clock reading, whose slot for each core `i < num_cpus` holds thread `i + 1`'s reading, or 0 if that query failed |

## Left out

- Opening `/proc/1/as` and the exit when it cannot be opened (src/main.c:24-29): file I/O and privileges.
- The calls into the operating system (`clock_gettime`, `devctl(DCMD_PROC_TIDSTATUS)`, the system-page accessors): they are parameters, as described above.
- The unending `while (1)` loop, `sleep(1)` and `close(fd)`: one pass is `Cycle`.
- All printing: the `printf` calls, `%.0f` rounding, `\r` and `fflush`. `Step` and `Cycle` return the loads and the average instead.
- IEEE-754 `double` arithmetic: loads are exact reals, so rounding and the NaN or infinity of a zero `wall_diff` are not modelled; a zero interval is excluded by precondition.
- The core count is not checked by the program (src/main.c:32). The model requires it to be at most 32 for the array writes and at least 1 for the average.
- `MainLoop.Monitor.constructor`: the program's `cpu_prev` is uninitialised stack memory, so slots from `num_cpus` on hold garbage; the model starts them at 0. Those slots are never read.
- `SystemMonitor.GetCpuSample`: the model does not capture the order of the oracle calls. The source reads the clock before any per-core query. In the model the clock reading is a parameter, so it is fixed before the call.
- `SystemMonitor.NsecsMonotone`: stated only for normalised readings whose nanosecond count does not overflow 64 bits; past that point the count wraps and order is lost.
- `SystemMonitor.TotalRamZeroIffNoRam`: stated only for well-formed ranges whose total fits in 64 bits. Otherwise a wrapped total can be 0 even though a `"ram"` entry exists.
- The meaning of the per-thread time: the code stores `sutime` into the idle slots and applies the idle formula, and the model keeps that formula as written.
