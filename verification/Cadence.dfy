/** When a recurrence runs next, and how many missed heartbeats are too many. Instants and durations are in one integer unit. */
module Cadences {
  import opened GoInt

  /** Every: the catch-up rule. */
  function Every(period: int, prev: int, now: int): (next: int)
    requires period > 0
  {
    var elapsed := now - prev;
    if elapsed < 0 then prev + period else prev + (TruncDiv(elapsed, period) + 1) * period
  }

  /** Of all occurrences one or more whole periods after prev, the next is the earliest one still to come. */
  lemma EveryIsTheNextOccurrence(period: int, prev: int, now: int, k: int)
    requires period > 0 && 1 <= k
    ensures var next := Every(period, prev, now);
            && (exists j :: 1 <= j && next == prev + j * period)
            && now < next
            && (now < prev + k * period ==> next <= prev + k * period)
            && (prev <= now ==> next <= now + period)
  {
    var elapsed := now - prev;
    if elapsed < 0 {
      assert Every(period, prev, now) == prev + 1 * period;
      MulMonotone(1, k, period);
    } else {
      var j := elapsed / period + 1;
      DivBounds(elapsed, period);
      assert Every(period, prev, now) == prev + j * period;
      assert j * period == (elapsed / period) * period + period;
      if k < j { MulMonotone(k, j - 1, period); } else { MulMonotone(j, k, period); }
    }
  }

  /** The earliest instant after s that is one or more whole periods after prev. */
  predicate IsNextAfter(next: int, period: int, prev: int, s: int)
    requires period > 0
  {
    && s < next && prev < next && (next - prev) % period == 0
    && (next - period <= s || next == prev + period)
  }

  lemma EveryIsNextAfter(period: int, prev: int, s: int)
    requires period > 0
    ensures IsNextAfter(Every(period, prev, s), period, prev, s)
  {
    var next := Every(period, prev, s);
    EveryIsTheNextOccurrence(period, prev, s, 1);
    var j :| 1 <= j && next == prev + j * period;
    EveryIsTheNextOccurrence(period, prev, s, if 1 < j then j - 1 else 1);
    hide Every;
    ManyPeriods(j, period);
  }

  lemma ManyPeriods(j: int, period: int)
    requires 1 <= j && period > 0
    ensures period <= j * period && (j * period) % period == 0 && (j - 1) * period == j * period - period
  {
    MulMonotone(1, j, period);
    DivBounds(j * period, period);
    QuotientUnique(j * period, period, j, (j * period) / period);
  }

  lemma EveryFromNow(period: int, now: int)
    requires period > 0
    ensures Every(period, now, now) == now + period
  {
    assert 0 / period == 0;
  }

  /** failureTolerance. */
  function FailureTolerance(threshold: int, interval: int): (n: int)
    requires threshold > 0 && interval > 0
  {
    var n := TruncDiv(threshold, interval) + if threshold % interval != 0 then 1 else 0;
    if n < 1 then 1 else n
  }

  /** That many missed heartbeats span the threshold, and one fewer do not. */
  lemma ToleranceSpansThreshold(threshold: int, interval: int)
    requires threshold > 0 && interval > 0
    ensures var n := FailureTolerance(threshold, interval);
            n >= 1 && (n - 1) * interval < threshold <= n * interval
  {
    DivBounds(threshold, interval);
    var q := threshold / interval;
    assert threshold == q * interval + threshold % interval;
    assert (q - 1) * interval == q * interval - interval;
    assert (q + 1) * interval == q * interval + interval;
    if q == 0 { assert q * interval == 0; }
  }
}
