// The per-day grid of scripts/build_dataset.py (main, lines 189-255): the
// slot instants, the bucket-mean alignment of a series onto them, and the
// half-open sleep flag.

module Grid {
  import opened JsonValue
  import opened PairExtractor
  import opened TreeSearch
  import opened Series

  /** 24 hours in milliseconds: day_end is day_start plus one day. */
  const DayMs: int := 86_400_000

  /** One value or a gap per grid slot. */
  type Column = seq<Option<real>>

  /** The grid step must be positive and at most a day (a longer step gives
      an empty grid, on which the source fails). */
  predicate ValidStep(step: int) {
    0 < step <= DayMs
  }

  /** date_range(day_start, day_end - step, step): the slots are the k with
      k * step <= DayMs - step, so every slot's bucket lies inside the day. */
  function SlotCount(step: int): (n: nat)
    requires ValidStep(step)
    ensures 1 <= n
    ensures n * step <= DayMs < (n + 1) * step
  {
    var n := DayMs / step;
    assert DayMs == n * step + DayMs % step;
    n
  }

  function SlotTime(dayStart: int, step: int, k: int): int {
    dayStart + k * step
  }

  /** The pairs whose instant lies in [lo, hi), in series order. */
  function Within(series: seq<Pair>, lo: int, hi: int): (r: seq<Pair>)
    ensures |r| <= |series|
    ensures forall i :: 0 <= i < |r| ==> lo <= r[i].t < hi
  {
    if |series| == 0 then []
    else
      var init := Within(series[..|series| - 1], lo, hi);
      var p := series[|series| - 1];
      if lo <= p.t < hi then init + [p] else init
  }

  /** The filter keeps every pair whose instant lies in [lo, hi), as often as
      it occurs in the series, and no other. */
  lemma {:induction false} WithinExact(series: seq<Pair>, lo: int, hi: int)
    ensures forall p :: multiset(Within(series, lo, hi))[p] == if lo <= p.t < hi then multiset(series)[p] else 0
  {
    if |series| > 0 {
      var init := series[..|series| - 1];
      var p := series[|series| - 1];
      WithinExact(init, lo, hi);
      assert series == init + [p];
    }
  }

  lemma {:induction false} WithinSubset(series: seq<Pair>, lo: int, hi: int)
    ensures forall q :: q in Within(series, lo, hi) ==> q in series
  {
    if |series| > 0 {
      var init := series[..|series| - 1];
      WithinSubset(init, lo, hi);
      assert forall q :: q in init ==> q in series;
    }
  }

  /** Filtering a time-ordered series leaves it time-ordered. */
  lemma {:induction false} WithinKeepsOrder(series: seq<Pair>, lo: int, hi: int)
    requires StrictlyIncreasing(series)
    ensures StrictlyIncreasing(Within(series, lo, hi))
  {
    if |series| > 0 {
      var last := |series| - 1;
      var init := series[..last];
      var p := series[last];
      assert StrictlyIncreasing(init);
      WithinKeepsOrder(init, lo, hi);
      WithinSubset(init, lo, hi);
      var w := Within(init, lo, hi);
      forall i | 0 <= i < |w| ensures w[i].t < p.t {
        assert w[i] in init;
        var j :| 0 <= j < |init| && init[j] == w[i];
        assert series[j] == w[i];
      }
    }
  }


  function Values(ps: seq<Pair>): (vs: seq<real>)
    ensures |vs| == |ps|
    ensures forall i :: 0 <= i < |ps| ==> vs[i] == ps[i].v
  {
    seq(|ps|, i requires 0 <= i < |ps| => ps[i].v)
  }

  function Sum(xs: seq<real>): real {
    if |xs| == 0 then 0.0 else Sum(xs[..|xs| - 1]) + xs[|xs| - 1]
  }

  /** The arithmetic mean, missing for an empty bucket. */
  function Mean(xs: seq<real>): (m: Option<real>)
    ensures m.None? <==> |xs| == 0
  {
    if |xs| == 0 then None else Some(Sum(xs) / (|xs| as real))
  }

  /** s[(index >= day_start) & (index < day_end)].resample(step).mean()
      .reindex(day_idx): slot k holds the mean of the points whose instant
      falls in [slot k, slot k + 1). */
  function Align(series: seq<Pair>, dayStart: int, step: int): (col: Column)
    requires ValidStep(step)
    ensures |col| == SlotCount(step)
  {
    var inDay := Within(series, dayStart, dayStart + DayMs);
    seq(SlotCount(step), k requires 0 <= k < SlotCount(step) =>
      Mean(Values(Within(inDay, SlotTime(dayStart, step, k), SlotTime(dayStart, step, k + 1)))))
  }

  /** Filtering to a window and then to a window inside it is filtering to
      the inner window. */
  lemma {:induction false} WithinNested(series: seq<Pair>, lo: int, hi: int, lo': int, hi': int)
    requires lo <= lo' && hi' <= hi
    ensures Within(Within(series, lo, hi), lo', hi') == Within(series, lo', hi')
  {
    if |series| > 0 {
      var init := series[..|series| - 1];
      var p := series[|series| - 1];
      WithinNested(init, lo, hi, lo', hi');
      var outer := Within(init, lo, hi);
      if lo <= p.t < hi {
        assert (outer + [p])[..|outer + [p]| - 1] == outer;
      }
    }
  }

  lemma {:induction false} WithinEmptyIff(series: seq<Pair>, lo: int, hi: int)
    ensures |Within(series, lo, hi)| == 0 <==> forall i :: 0 <= i < |series| ==> !(lo <= series[i].t < hi)
  {
    if |series| > 0 {
      WithinEmptyIff(series[..|series| - 1], lo, hi);
      assert forall i :: 0 <= i < |series| - 1 ==> series[..|series| - 1][i] == series[i];
    }
  }

  lemma {:induction false} WithinKeepsRange(series: seq<Pair>, lo: int, hi: int, vlo: real, vhi: real)
    requires AllInRange(series, vlo, vhi)
    ensures AllInRange(Within(series, lo, hi), vlo, vhi)
  {
    if |series| > 0 {
      WithinKeepsRange(series[..|series| - 1], lo, hi, vlo, vhi);
    }
  }

  /** Slot k of the aligned column is the mean of the series points in its
      bucket: the restriction to the day changes nothing, because every
      bucket lies inside the day. */
  lemma AlignSlot(series: seq<Pair>, dayStart: int, step: int, k: nat)
    requires ValidStep(step) && k < SlotCount(step)
    ensures Align(series, dayStart, step)[k]
         == Mean(Values(Within(series, SlotTime(dayStart, step, k), SlotTime(dayStart, step, k + 1))))
  {
    BucketInside(dayStart, step, k, SlotCount(step));
    WithinNested(series, dayStart, dayStart + DayMs, SlotTime(dayStart, step, k), SlotTime(dayStart, step, k + 1));
  }

  /** Bucket k of an n-slot grid lies inside the grid's span. */
  lemma BucketInside(dayStart: int, step: int, k: nat, n: nat)
    requires ValidStep(step) && k < n <= SlotCount(step)
    ensures dayStart <= SlotTime(dayStart, step, k)
    ensures SlotTime(dayStart, step, k + 1) <= SlotTime(dayStart, step, n) <= dayStart + DayMs
  {
    MulMonotone(0, k, step);
    MulMonotone(k + 1, n, step);
    MulMonotone(n, SlotCount(step), step);
  }

  /** A slot is missing exactly when no point of the series falls in its
      bucket. */
  lemma AlignMissingIff(series: seq<Pair>, dayStart: int, step: int, k: nat)
    requires ValidStep(step) && k < SlotCount(step)
    ensures Align(series, dayStart, step)[k].None?
        <==> forall i :: 0 <= i < |series| ==>
               !(SlotTime(dayStart, step, k) <= series[i].t < SlotTime(dayStart, step, k + 1))
  {
    AlignSlot(series, dayStart, step, k);
    WithinEmptyIff(series, SlotTime(dayStart, step, k), SlotTime(dayStart, step, k + 1));
  }

  /** Two series that agree on the grid's span give the same column: points
      outside [day_start, day_start + N * step) are ignored. */
  lemma AlignIgnoresOutside(a: seq<Pair>, b: seq<Pair>, dayStart: int, step: int)
    requires ValidStep(step)
    requires Within(a, dayStart, SlotTime(dayStart, step, SlotCount(step)))
          == Within(b, dayStart, SlotTime(dayStart, step, SlotCount(step)))
    ensures Align(a, dayStart, step) == Align(b, dayStart, step)
  {
    forall k | 0 <= k < SlotCount(step)
      ensures Align(a, dayStart, step)[k] == Align(b, dayStart, step)[k]
    {
      SlotFromSpan(a, dayStart, step, k);
      SlotFromSpan(b, dayStart, step, k);
    }
  }

  /** A slot only sees the part of the series inside the grid's span. */
  lemma SlotFromSpan(series: seq<Pair>, dayStart: int, step: int, k: nat)
    requires ValidStep(step) && k < SlotCount(step)
    ensures Align(series, dayStart, step)[k]
         == Mean(Values(Within(Within(series, dayStart, SlotTime(dayStart, step, SlotCount(step))),
                               SlotTime(dayStart, step, k), SlotTime(dayStart, step, k + 1))))
  {
    var n := SlotCount(step);
    AlignSlot(series, dayStart, step, k);
    BucketInside(dayStart, step, k, n);
    WithinNested(series, dayStart, SlotTime(dayStart, step, n), SlotTime(dayStart, step, k), SlotTime(dayStart, step, k + 1));
  }

  lemma {:induction false} SumBounds(xs: seq<real>, lo: real, hi: real)
    requires forall i :: 0 <= i < |xs| ==> lo <= xs[i] <= hi
    ensures (|xs| as real) * lo <= Sum(xs) <= (|xs| as real) * hi
  {
    if |xs| > 0 {
      SumBounds(xs[..|xs| - 1], lo, hi);
    }
  }

  /** A mean lies between the bounds of what it averages. */
  lemma MeanBounds(xs: seq<real>, lo: real, hi: real)
    requires forall i :: 0 <= i < |xs| ==> lo <= xs[i] <= hi
    ensures Mean(xs).Some? ==> lo <= Mean(xs).value <= hi
  {
    if |xs| > 0 {
      SumBounds(xs, lo, hi);
      var n := |xs| as real;
      assert Sum(xs) / n >= lo by {
        assert Sum(xs) >= n * lo;
      }
      assert Sum(xs) / n <= hi by {
        assert Sum(xs) <= n * hi;
      }
    }
  }

  predicate ColumnInRange(col: Column, lo: real, hi: real) {
    forall k :: 0 <= k < |col| && col[k].Some? ==> lo <= col[k].value <= hi
  }

  /** Aligning keeps a metric inside its plausibility range. */
  lemma AlignKeepsRange(series: seq<Pair>, dayStart: int, step: int, lo: real, hi: real)
    requires ValidStep(step)
    requires AllInRange(series, lo, hi)
    ensures ColumnInRange(Align(series, dayStart, step), lo, hi)
  {
    var col := Align(series, dayStart, step);
    forall k | 0 <= k < |col| && col[k].Some? ensures lo <= col[k].value <= hi {
      AlignSlot(series, dayStart, step, k);
      var w := Within(series, SlotTime(dayStart, step, k), SlotTime(dayStart, step, k + 1));
      WithinKeepsRange(series, SlotTime(dayStart, step, k), SlotTime(dayStart, step, k + 1), lo, hi);
      MeanBounds(Values(w), lo, hi);
    }
  }

  /** sleep_flag: 1 on the slots t with start <= t < end, 0 elsewhere and
      everywhere when there is no window. */
  function SleepFlags(dayStart: int, step: int, window: Option<Window>): (flags: seq<int>)
    requires ValidStep(step)
    ensures |flags| == SlotCount(step)
    ensures forall k :: 0 <= k < |flags| ==> flags[k] == 0 || flags[k] == 1
    ensures window.None? ==> forall k :: 0 <= k < |flags| ==> flags[k] == 0
  {
    seq(SlotCount(step), k requires 0 <= k < SlotCount(step) =>
      if window.Some? && window.value.start <= SlotTime(dayStart, step, k) < window.value.end then 1 else 0)
  }

  /** The flag column as the day body builds it: a column of zeros, then
      `sleep_flag.loc[mask] = 1` on the slots inside the window. */
  method MarkSleep(dayStart: int, step: int, window: Option<Window>) returns (flags: seq<int>)
    requires ValidStep(step)
    ensures flags == SleepFlags(dayStart, step, window)
  {
    var n := SlotCount(step);
    var column := new int[n](_ => 0);
    if window.Some? {
      var k := 0;
      while k < n
        invariant 0 <= k <= n
        invariant forall j :: 0 <= j < n ==>
          column[j] == if j < k && window.value.start <= SlotTime(dayStart, step, j) < window.value.end then 1 else 0
      {
        if window.value.start <= SlotTime(dayStart, step, k) < window.value.end {
          column[k] := 1;
        }
        k := k + 1;
      }
    }
    flags := column[..];
  }

  /** The least k with k * step >= d. */
  function CeilDiv(d: int, step: int): int
    requires step > 0
  {
    -((-d) / step)
  }

  lemma MulMonotone(a: int, b: int, step: int)
    requires a <= b && step > 0
    ensures a * step <= b * step
  {
    assert b * step - a * step == (b - a) * step;
  }

  lemma CeilDivIsLeast(d: int, step: int, k: int)
    requires step > 0
    ensures k * step >= d <==> k >= CeilDiv(d, step)
  {
    var q := (-d) / step;
    assert d == -q * step - (-d) % step;
    if k >= -q {
      MulMonotone(-q, k, step);
    } else {
      MulMonotone(k, -q - 1, step);
      assert (-q - 1) * step == -q * step - step;
    }
  }

  /** The flagged slots form one contiguous run of slot numbers: those from
      the first slot at or after the start up to, but not including, the
      first slot at or after the end. A window that began before midnight
      flags the day from slot 0. */
  lemma SleepSlotsContiguous(dayStart: int, step: int, w: Window, k: nat)
    requires ValidStep(step) && k < SlotCount(step)
    ensures SleepFlags(dayStart, step, Some(w))[k] == 1
        <==> CeilDiv(w.start - dayStart, step) <= k < CeilDiv(w.end - dayStart, step)
  {
    CeilDivIsLeast(w.start - dayStart, step, k);
    CeilDivIsLeast(w.end - dayStart, step, k);
  }
}
