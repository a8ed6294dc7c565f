/**
 * The utilization arithmetic of one monitoring cycle (src/main.c): the load
 * of one core from two wrapping counter differences, its clamp to a
 * percentage, and the average over the cores.
 *
 * Loads are exact reals; the C code computes them in `double`.
 */
module Load {
  import opened Uint64
  import opened SystemMonitor

  /**
   * The unclamped load: 100 minus the part of the wall interval that the
   * core's counter advanced, as a percentage. The counter is read as idle
   * time, whatever the thread it comes from.
   */
  function RawLoad(idleDiff: u64, wallDiff: u64): (r: real)
    requires wallDiff > 0
    ensures r <= 100.0
    ensures r == 100.0 <==> idleDiff == 0
    ensures r <= 0.0 <==> idleDiff >= wallDiff
  {
    100.0 - (idleDiff as real / wallDiff as real * 100.0)
  }

  /** Raises a value below 0 to 0, then lowers a value above 100 to 100. */
  function Clamp(x: real): (r: real)
    ensures 0.0 <= r <= 100.0
    ensures 0.0 <= x <= 100.0 ==> r == x
    ensures x < 0.0 ==> r == 0.0
    ensures x > 100.0 ==> r == 100.0
  {
    var raised := if x < 0.0 then 0.0 else x;
    if raised > 100.0 then 100.0 else raised
  }

  /** The displayed load of one core: always a percentage. */
  function CoreLoad(idleDiff: u64, wallDiff: u64): (r: real)
    requires wallDiff > 0
    ensures 0.0 <= r <= 100.0
  {
    Clamp(RawLoad(idleDiff, wallDiff))
  }

  /** A core whose counter did not move over the interval shows a full load, and only such a core. */
  lemma FullLoadIffCounterStalled(idleDiff: u64, wallDiff: u64)
    requires wallDiff > 0
    ensures CoreLoad(idleDiff, wallDiff) == 100.0 <==> idleDiff == 0
  {
  }

  /** A core whose counter advanced at least as far as the wall clock shows no load, and only such a core. */
  lemma ZeroLoadIffCounterCoversInterval(idleDiff: u64, wallDiff: u64)
    requires wallDiff > 0
    ensures CoreLoad(idleDiff, wallDiff) == 0.0 <==> idleDiff >= wallDiff
  {
  }

  /** Strictly between the two extremes the load is the share of the interval the counter did not cover. */
  lemma PartialLoad(idleDiff: u64, wallDiff: u64)
    requires 0 < idleDiff < wallDiff
    ensures 0.0 < CoreLoad(idleDiff, wallDiff) < 100.0
    ensures CoreLoad(idleDiff, wallDiff) * wallDiff as real == 100.0 * (wallDiff - idleDiff) as real
  {
    var d, w := idleDiff as real, wallDiff as real;
    var q := d / w;
    assert 0.0 < q && q * w == d;
    assert w - d > 0.0;
    calc {
      (100.0 - q * 100.0) * w;
      100.0 * w - 100.0 * (q * w);
      100.0 * (w - d);
    > 0.0;
    }
    PositiveFactor(100.0 - q * 100.0, w);
    assert RawLoad(idleDiff, wallDiff) == 100.0 - q * 100.0;
  }

  /** A product with a positive factor is positive only if the other factor is. */
  lemma PositiveFactor(x: real, w: real)
    requires w > 0.0 && x * w > 0.0
    ensures x > 0.0
  {
  }

  /**
   * A counter that went backwards, such as a real reading followed by the 0
   * of a failed query, wraps to a difference at least as large as the wall
   * interval, so the core shows no load.
   */
  lemma BackwardsCounterShowsNoLoad(prevIdle: u64, currIdle: u64, wallDiff: u64)
    requires wallDiff > 0
    requires currIdle < prevIdle && prevIdle - currIdle + wallDiff <= TWO_64
    ensures CoreLoad(Sub64(currIdle, prevIdle), wallDiff) == 0.0
  {
    ZeroLoadIffCounterCoversInterval(Sub64(currIdle, prevIdle), wallDiff);
  }

  /** One second of wall time with a quarter second on the counter is a 75% load. */
  lemma QuarterIdleIsThreeQuarterLoad()
    ensures CoreLoad(250_000_000, 1_000_000_000) == 75.0
  {
  }

  /** The sum of the loads, accumulated in core order from 0. */
  function Sum(loads: seq<real>): (r: real)
  {
    if loads == [] then 0.0 else Sum(loads[..|loads| - 1]) + loads[|loads| - 1]
  }

  /** The average load over the cores. */
  function Mean(loads: seq<real>): (r: real)
    requires |loads| >= 1
    ensures r * |loads| as real == Sum(loads)
  {
    Sum(loads) / |loads| as real
  }

  /** Every load is a percentage. */
  predicate Percentages(loads: seq<real>)
  {
    forall i :: 0 <= i < |loads| ==> 0.0 <= loads[i] <= 100.0
  }

  /** A sum of percentages lies between 0 and 100 per term. */
  lemma {:induction false} SumBounds(loads: seq<real>)
    requires Percentages(loads)
    ensures 0.0 <= Sum(loads) <= 100.0 * |loads| as real
  {
    if loads != [] {
      var init := loads[..|loads| - 1];
      assert Percentages(init) by {
        forall i | 0 <= i < |init| ensures 0.0 <= init[i] <= 100.0 {
          assert init[i] == loads[i];
        }
      }
      SumBounds(init);
    }
  }

  /** The average of percentages over at least one core is a percentage. */
  lemma MeanBounds(loads: seq<real>)
    requires |loads| >= 1 && Percentages(loads)
    ensures 0.0 <= Mean(loads) <= 100.0
  {
    SumBounds(loads);
    var n := |loads| as real;
    assert Sum(loads) / n <= 100.0 * n / n;
  }

  /** A core at 0% and a core at 100% average 50%. */
  lemma IdleAndBusyAverageHalf()
    ensures Mean([0.0, 100.0]) == 50.0
  {
    assert [0.0, 100.0][..1] == [0.0];
    assert [0.0][..0] == [];
  }

  /** The wrapping difference of the wall times of two samples. */
  function WallDiff(prev: Snapshot, curr: Snapshot): (r: u64)
  {
    Sub64(curr.wallTime, prev.wallTime)
  }

  /** The load of each of the first `n` cores between two samples. */
  function Utilization(prev: Snapshot, curr: Snapshot, n: nat): (loads: seq<real>)
    requires n <= |prev.idleTime| && n <= |curr.idleTime|
    requires WallDiff(prev, curr) > 0
    ensures |loads| == n && Percentages(loads)
  {
    seq(n, i requires 0 <= i < n =>
      CoreLoad(Sub64(curr.idleTime[i], prev.idleTime[i]), WallDiff(prev, curr)))
  }

  /** Between two samples, a core shows a full load exactly when its counter reads the same in both. */
  lemma FullLoadIffSameReading(prev: Snapshot, curr: Snapshot, n: nat, i: nat)
    requires n <= |prev.idleTime| && n <= |curr.idleTime|
    requires WallDiff(prev, curr) > 0
    requires i < n
    ensures Utilization(prev, curr, n)[i] == 100.0 <==> curr.idleTime[i] == prev.idleTime[i]
  {
    FullLoadIffCounterStalled(Sub64(curr.idleTime[i], prev.idleTime[i]), WallDiff(prev, curr));
  }

  /** The utilization vector has one percentage per core, and so does its average. */
  lemma UtilizationInRange(prev: Snapshot, curr: Snapshot, n: nat)
    requires 1 <= n <= |prev.idleTime| && n <= |curr.idleTime|
    requires WallDiff(prev, curr) > 0
    ensures |Utilization(prev, curr, n)| == n && Percentages(Utilization(prev, curr, n))
    ensures 0.0 <= Mean(Utilization(prev, curr, n)) <= 100.0
  {
    MeanBounds(Utilization(prev, curr, n));
  }
}
