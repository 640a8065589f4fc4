// Body-battery gap filling in main of scripts/build_dataset.py (lines
// 264-279): pandas' ffill and bfill as left-to-right and right-to-left scans,
// interpolate(method="time", limit_direction="both") on the evenly spaced
// grid, and the four --bb-fill policies built from them.

module GapFill {
  import opened JsonValue
  import opened Grid

  datatype FillPolicy = NoFill | ForwardFill | ForwardBackFill | Interpolate

  /** The value at index j, or a gap when j is outside the column. */
  function ValueAt(col: Column, j: int): Option<real> {
    if 0 <= j < |col| then col[j] else None
  }

  /** The last index before k that holds a value, or -1. */
  function LastIndexBefore(col: Column, k: int): (i: int)
    requires 0 <= k <= |col|
    ensures -1 <= i < k
    ensures i >= 0 ==> col[i].Some?
    ensures forall j :: i < j < k ==> col[j].None?
    decreases k
  {
    if k == 0 then -1
    else if col[k - 1].Some? then k - 1
    else LastIndexBefore(col, k - 1)
  }

  /** The first index at or after k that holds a value, or |col|. */
  function FirstIndexFrom(col: Column, k: int): (j: int)
    requires 0 <= k <= |col|
    ensures k <= j <= |col|
    ensures j < |col| ==> col[j].Some?
    ensures forall m :: k <= m < j ==> col[m].None?
    decreases |col| - k
  {
    if k == |col| then |col|
    else if col[k].Some? then k
    else FirstIndexFrom(col, k + 1)
  }

  /** The last value of a column, skipping gaps: dropna().iloc[-1], or
      nothing when every slot is missing. */
  function LastKnown(col: Column): (r: Option<real>)
    ensures r.None? <==> forall j :: 0 <= j < |col| ==> col[j].None?
  {
    ValueAt(col, LastIndexBefore(col, |col|))
  }

  predicate AllKnown(col: Column) {
    forall k :: 0 <= k < |col| ==> col[k].Some?
  }

  predicate AllMissing(col: Column) {
    forall k :: 0 <= k < |col| ==> col[k].None?
  }

  /** ffill(): a left-to-right scan carrying the last value seen. */
  function FFill(col: Column): (r: Column)
    ensures |r| == |col|
    ensures forall k :: 0 <= k < |col| && col[k].Some? ==> r[k] == col[k]
  {
    if |col| == 0 then []
    else
      var init := FFill(col[..|col| - 1]);
      var last := col[|col| - 1];
      init + [if last.Some? || |init| == 0 then last else init[|init| - 1]]
  }

  /** bfill(): a right-to-left scan carrying the next value seen. */
  function BFill(col: Column): (r: Column)
    ensures |r| == |col|
    ensures forall k :: 0 <= k < |col| && col[k].Some? ==> r[k] == col[k]
  {
    if |col| == 0 then []
    else
      var tail := BFill(col[1..]);
      [if col[0].Some? || |tail| == 0 then col[0] else tail[0]] + tail
  }

  /** The straight line through (i, a) and (j, b), evaluated at k. */
  function Lerp(a: real, b: real, i: int, j: int, k: int): real
    requires i < j
  {
    a + (b - a) * ((k - i) as real) / ((j - i) as real)
  }

  /** One slot of interpolate(limit_direction="both"): a known slot keeps its
      value, a gap between two known slots lies on the line through them, and
      a gap with known values on one side only takes the nearest of them. */
  function InterpAt(col: Column, k: int): Option<real>
    requires 0 <= k < |col|
  {
    if col[k].Some? then col[k]
    else
      var i := LastIndexBefore(col, k);
      var j := FirstIndexFrom(col, k);
      if i < 0 then ValueAt(col, j)
      else if j == |col| then col[i]
      else Some(Lerp(col[i].value, col[j].value, i, j, k))
  }

  function Interp(col: Column): (r: Column)
    ensures |r| == |col|
    ensures forall k :: 0 <= k < |col| && col[k].Some? ==> r[k] == col[k]
  {
    seq(|col|, k requires 0 <= k < |col| => InterpAt(col, k))
  }

  /** The --bb-fill policies; only the body-battery column goes through here. */
  function Fill(policy: FillPolicy, col: Column): (r: Column)
    ensures |r| == |col|
    ensures forall k :: 0 <= k < |col| && col[k].Some? ==> r[k] == col[k]
    ensures policy == NoFill ==> r == col
  {
    match policy
    case NoFill => col
    case ForwardFill => FFill(col)
    case ForwardBackFill => BFill(FFill(col))
    case Interpolate => BFill(FFill(Interp(col)))
  }

  // ---- the scans against their index-based descriptions ----

  lemma LastIndexOfPrefix(col: Column, n: nat, k: nat)
    requires k <= n <= |col|
    ensures LastIndexBefore(col[..n], k) == LastIndexBefore(col, k)
  {
  }

  lemma FirstIndexOfTail(col: Column, k: nat)
    requires 1 <= k <= |col|
    ensures FirstIndexFrom(col[1..], k - 1) + 1 == FirstIndexFrom(col, k)
  {
  }

  /** ffill puts in each slot the value of the last known slot at or before
      it, and leaves a gap where there is none. */
  lemma {:induction false} FFillIsLastEarlier(col: Column)
    ensures forall k :: 0 <= k < |col| ==> FFill(col)[k] == ValueAt(col, LastIndexBefore(col, k + 1))
  {
    if |col| > 0 {
      var n := |col|;
      var init := col[..n - 1];
      FFillIsLastEarlier(init);
      forall k | 0 <= k < n ensures FFill(col)[k] == ValueAt(col, LastIndexBefore(col, k + 1)) {
        if k < n - 1 {
          LastIndexOfPrefix(col, n - 1, k + 1);
          assert FFill(col)[k] == FFill(init)[k];
        } else if col[n - 1].None? && n > 1 {
          LastIndexOfPrefix(col, n - 1, n - 1);
        }
      }
    }
  }

  /** bfill puts in each slot the value of the first known slot at or after
      it, and leaves a gap where there is none. */
  lemma {:induction false} BFillIsFirstLater(col: Column)
    ensures forall k :: 0 <= k < |col| ==> BFill(col)[k] == ValueAt(col, FirstIndexFrom(col, k))
  {
    if |col| > 0 {
      var tail := col[1..];
      BFillIsFirstLater(tail);
      forall k | 0 <= k < |col| ensures BFill(col)[k] == ValueAt(col, FirstIndexFrom(col, k)) {
        if k > 0 {
          BFillShift(col, k);
        } else if col[0].None? && |col| > 1 {
          BFillShift(col, 1);
        }
      }
    }
  }

  /** Slot k of a column is slot k - 1 of its tail, for bfill and for its
      description alike. */
  lemma BFillShift(col: Column, k: nat)
    requires 1 <= k < |col|
    ensures BFill(col)[k] == BFill(col[1..])[k - 1]
    ensures ValueAt(col[1..], FirstIndexFrom(col[1..], k - 1)) == ValueAt(col, FirstIndexFrom(col, k))
  {
    var tail := col[1..];
    assert BFill(col) == [if col[0].Some? || |BFill(tail)| == 0 then col[0] else BFill(tail)[0]] + BFill(tail);
    FirstIndexOfTail(col, k);
    var j := FirstIndexFrom(tail, k - 1);
    assert j < |tail| ==> tail[j] == col[j + 1];
  }

  /** ffill leaves a gap exactly where no earlier slot is known: a leading
      gap stays. */
  lemma FFillLeadingGap(col: Column, k: nat)
    requires k < |col|
    ensures FFill(col)[k].None? <==> forall j :: 0 <= j <= k ==> col[j].None?
  {
    FFillIsLastEarlier(col);
  }

  /** A filled slot of ffill holds the value of the nearest known slot
      before it. */
  lemma FFillTakesNearestEarlier(col: Column, k: nat)
    requires k < |col| && col[k].None? && FFill(col)[k].Some?
    ensures exists i :: 0 <= i < k && col[i] == FFill(col)[k]
                     && forall m :: i < m <= k ==> col[m].None?
  {
    FFillIsLastEarlier(col);
    var i := LastIndexBefore(col, k + 1);
    assert 0 <= i < k && col[i] == FFill(col)[k];
  }

  lemma FFillAllMissing(col: Column)
    requires AllMissing(col)
    ensures FFill(col) == col
  {
    FFillIsLastEarlier(col);
  }

  lemma BFillAllMissing(col: Column)
    requires AllMissing(col)
    ensures BFill(col) == col
  {
    BFillIsFirstLater(col);
  }

  /** Once the last slot is known, bfill leaves no gap. */
  lemma BFillCompletes(col: Column)
    requires |col| > 0 && col[|col| - 1].Some?
    ensures AllKnown(BFill(col))
  {
    BFillIsFirstLater(col);
  }

  /** When some slot is known, ffill makes the last slot known, with the
      column's last known value. */
  lemma FFillLastSlot(col: Column)
    requires |col| > 0
    ensures FFill(col)[|col| - 1] == LastKnown(col)
  {
    FFillIsLastEarlier(col);
  }

  // ---- interpolation ----

  lemma CancelPositive(x: real, y: real, m: real)
    requires m > 0.0 && x * m < y * m
    ensures x < y
  {
    assert (y - x) * m == y * m - x * m;
  }

  lemma ScaleBetween(x: real, t: real)
    requires 0.0 < t < 1.0
    ensures x > 0.0 ==> 0.0 < x * t < x
    ensures x < 0.0 ==> x < x * t < 0.0
  {
    if x > 0.0 {
      assert x * t < x * 1.0;
    } else if x < 0.0 {
      assert x * t > x * 1.0;
    }
  }

  /** Strictly inside [i, j] the line stays strictly between its end values
      (or equal to both when they are equal). */
  lemma LerpBetween(a: real, b: real, i: int, j: int, k: int)
    requires i < k < j
    ensures a <= b ==> a <= Lerp(a, b, i, j, k) <= b
    ensures b <= a ==> b <= Lerp(a, b, i, j, k) <= a
    ensures a != b ==> Lerp(a, b, i, j, k) != a && Lerp(a, b, i, j, k) != b
  {
    var n, m := (k - i) as real, (j - i) as real;
    var t := n / m;
    assert t * m == n;
    CancelPositive(0.0, t, m);
    CancelPositive(t, 1.0, m);
    assert Lerp(a, b, i, j, k) == a + (b - a) * t;
    ScaleBetween(b - a, t);
  }

  /** An interpolated interior gap lies between its two neighbouring known
      values, strictly when they differ. */
  lemma InterpBetweenNeighbours(col: Column, k: nat)
    requires k < |col| && col[k].None?
    requires LastIndexBefore(col, k) >= 0 && FirstIndexFrom(col, k) < |col|
    ensures Interp(col)[k].Some?
    ensures var a, b, v := col[LastIndexBefore(col, k)].value, col[FirstIndexFrom(col, k)].value, Interp(col)[k].value;
            (a <= b ==> a <= v <= b) && (b <= a ==> b <= v <= a) && (a != b ==> v != a && v != b)
  {
    LerpBetween(col[LastIndexBefore(col, k)].value, col[FirstIndexFrom(col, k)].value,
                LastIndexBefore(col, k), FirstIndexFrom(col, k), k);
  }

  /** With one known slot, interpolation leaves no gap; with none, it adds
      nothing. */
  lemma InterpComplete(col: Column)
    ensures !AllMissing(col) ==> AllKnown(Interp(col))
    ensures AllMissing(col) ==> Interp(col) == col
  {
    if !AllMissing(col) {
      var w :| 0 <= w < |col| && col[w].Some?;
      forall k | 0 <= k < |col| ensures Interp(col)[k].Some? {
        if col[k].None? && LastIndexBefore(col, k) < 0 {
          assert w > k;
          assert FirstIndexFrom(col, k) <= w;
        }
      }
    }
  }

  /** The last slot of the interpolated column carries the column's last
      known value: trailing gaps take the nearest earlier value. */
  lemma InterpLastSlot(col: Column)
    requires |col| > 0
    ensures Interp(col)[|col| - 1] == LastKnown(col)
  {
  }

  // ---- the policies ----

  /** ffill_bfill and interpolate leave no gap once one slot is known, and
      every policy leaves an all-missing column all-missing. */
  lemma FillComplete(policy: FillPolicy, col: Column)
    ensures (policy == ForwardBackFill || policy == Interpolate) && !AllMissing(col) ==> AllKnown(Fill(policy, col))
    ensures AllMissing(col) ==> Fill(policy, col) == col
  {
    if AllMissing(col) {
      FFillAllMissing(col);
      BFillAllMissing(col);
      InterpComplete(col);
    } else if policy == ForwardBackFill {
      FFillLastSlot(col);
      BFillCompletes(FFill(col));
    } else if policy == Interpolate {
      InterpComplete(col);
      var x := Interp(col);
      FFillLastSlot(x);
      BFillCompletes(FFill(x));
    }
  }

  /** The ffill and bfill passes after interpolation change nothing. */
  lemma InterpolateNeedsNoScans(col: Column)
    ensures Fill(Interpolate, col) == Interp(col)
  {
    InterpComplete(col);
    var x := Interp(col);
    if AllMissing(col) {
      FFillAllMissing(x);
      BFillAllMissing(x);
    }
  }

  /** Filling never changes the last known value of the column, so the
      daily body-battery value is the day's last observation under every
      policy. */
  lemma FillKeepsLastKnown(policy: FillPolicy, col: Column)
    ensures LastKnown(Fill(policy, col)) == LastKnown(col)
  {
    var r := Fill(policy, col);
    if |col| > 0 && policy != NoFill && !AllMissing(col) {
      var n := |col|;
      match policy
      case ForwardFill =>
        FFillLastSlot(col);
      case ForwardBackFill =>
        FFillLastSlot(col);
      case Interpolate =>
        InterpLastSlot(col);
        FFillLastSlot(Interp(col));
      assert r[n - 1] == LastKnown(col);
    } else if AllMissing(col) {
      FillComplete(policy, col);
    }
  }
}
