// Structural search for [timestamp, value] series inside an arbitrary JSON
// tree (to_epoch_ms and collect_pairs in scripts/build_dataset.py).

module PairExtractor {
  import opened JsonValue

  /** One observation: an instant in epoch milliseconds and its value. */
  datatype Pair = Pair(t: int, v: real)

  /** A list is tried as a series on its first SampleSize elements ... */
  const SampleSize: nat := 10
  /** ... of which at least MinEpochScore must start with an epoch-like number. */
  const MinEpochScore: nat := 8
  /** A first component above this looks like an epoch value. */
  const EpochFloor: real := 1000000000.0
  /** Timestamps below this are read as seconds, others as milliseconds. */
  const SecondsCutoff: int := 10_000_000_000

  /** to_epoch_ms: unify seconds and milliseconds. */
  function ToEpochMs(v: int): (ms: int)
    ensures v < SecondsCutoff ==> ms == v * 1000
    ensures v >= SecondsCutoff ==> ms == v
    ensures ms >= SecondsCutoff || ms % 1000 == 0
  {
    if v < SecondsCutoff then v * 1000 else v
  }

  /** An instant given in seconds and the same instant given in milliseconds
      end up equal, as long as the millisecond form is not itself below the
      cutoff. */
  lemma SecondsAndMillisAgree(s: int)
    requires s < SecondsCutoff && s * 1000 >= SecondsCutoff
    ensures ToEpochMs(s) == ToEpochMs(s * 1000) == s * 1000
  {
  }

  /** `int(ts)`: a number is truncated, a string goes through Python's
      integer parser (given as `intOfStr`), anything else raises. */
  function IntOf(ts: Json, intOfStr: string -> Option<int>): (r: Option<int>)
    ensures r.Some? <==> ts.Num? || (ts.Str? && intOfStr(ts.s).Some?)
    ensures ts.Num? && 0.0 <= ts.n ==> r.value as real <= ts.n < r.value as real + 1.0
    ensures ts.Str? ==> r == intOfStr(ts.s)
  {
    match ts
    case Num(x) => Some(Trunc(x))
    case Str(s) => intOfStr(s)
    case _ => None
  }

  /** is_epoch: a number greater than EpochFloor. */
  predicate IsEpoch(j: Json) {
    j.Num? && j.n > EpochFloor
  }

  /** An epoch-like first component is at least 10^9 once int() has
      truncated it, and to_epoch_ms then gives an instant at or after the
      seconds cutoff. */
  lemma EpochTimestampBounds(j: Json)
    requires IsEpoch(j)
    ensures Trunc(j.n) >= 1_000_000_000
    ensures ToEpochMs(Trunc(j.n)) >= SecondsCutoff
  {
  }

  /** A list or tuple with at least two components. */
  predicate LooksLikePair(e: Json) {
    e.Arr? && |e.items| >= 2
  }

  predicate StartsWithEpoch(e: Json) {
    e.Arr? && |e.items| >= 1 && IsEpoch(e.items[0])
  }

  /** The number of elements of `sample` whose first component is epoch-like. */
  function EpochScore(sample: seq<Json>): (n: nat)
    ensures n <= |sample|
    ensures n == |sample| <==> forall i :: 0 <= i < |sample| ==> StartsWithEpoch(sample[i])
  {
    if |sample| == 0 then 0
    else EpochScore(sample[..|sample| - 1]) + (if StartsWithEpoch(sample[|sample| - 1]) then 1 else 0)
  }

  /** The score is exactly the number of sampled elements that start with an
      epoch-like number. */
  lemma {:induction false} EpochScoreCount(sample: seq<Json>)
    ensures EpochScore(sample) == |set i | 0 <= i < |sample| && StartsWithEpoch(sample[i])|
  {
    if |sample| > 0 {
      var last := |sample| - 1;
      var init := sample[..last];
      EpochScoreCount(init);
      var f := i => 0 <= i < |sample| && StartsWithEpoch(sample[i]);
      CountStep(last, f);
      assert forall i :: 0 <= i < last ==> init[i] == sample[i];
      assert (set i | 0 <= i < |init| && StartsWithEpoch(init[i])) == (set i | 0 <= i < last && f(i));
      assert (set i | 0 <= i < |sample| && StartsWithEpoch(sample[i])) == (set i | 0 <= i < last + 1 && f(i));
    }
  }

  /** The heuristic: at least SampleSize elements, the first SampleSize all
      pair-shaped, and at least MinEpochScore of those epoch-like. */
  predicate IsPairSeries(items: seq<Json>)
    ensures IsPairSeries(items) ==>
              |items| >= SampleSize &&
              |set i | 0 <= i < SampleSize && StartsWithEpoch(items[i])| >= MinEpochScore
  {
    if |items| < SampleSize then false
    else
      var sample := items[..SampleSize];
      EpochScoreCount(sample);
      assert (set i | 0 <= i < |sample| && StartsWithEpoch(sample[i]))
          == (set i | 0 <= i < SampleSize && StartsWithEpoch(items[i]));
      && (forall i :: 0 <= i < SampleSize ==> LooksLikePair(items[i]))
      && EpochScore(sample) >= MinEpochScore
  }

  /** What one element of an accepted series contributes. `Raise` stands for
      the exception Python throws (e[0] on a dict, number or null, a too short
      list or string, int() on a timestamp that is not a number). */
  datatype Entry = Skip | Keep(p: Pair) | Raise

  function ValueEntry(ts: Json, val: Json, lo: real, hi: real, intOfStr: string -> Option<int>): (e: Entry)
    ensures e.Keep? ==> val.Num? && e.p.v == val.n && lo <= e.p.v <= hi
    ensures e.Keep? ==> IntOf(ts, intOfStr).Some? && e.p.t == ToEpochMs(IntOf(ts, intOfStr).value)
    ensures e.Skip? <==> !val.Num? || !(lo <= val.n <= hi)
    ensures e.Keep? <==> val.Num? && lo <= val.n <= hi && IntOf(ts, intOfStr).Some?
  {
    if !val.Num? then Skip
    else if !(lo <= val.n <= hi) then Skip
    else match IntOf(ts, intOfStr)
      case None => Raise
      case Some(x) => Keep(Pair(ToEpochMs(x), val.n))
  }

  function EntryOf(e: Json, lo: real, hi: real, intOfStr: string -> Option<int>): (r: Entry)
    ensures r.Keep? ==> e.Arr? && |e.items| >= 2 && e.items[1].Num? && r.p.v == e.items[1].n && lo <= r.p.v <= hi
  {
    match e
    case Arr(xs) => if |xs| < 2 then Raise else ValueEntry(xs[0], xs[1], lo, hi, intOfStr)
    // e[1] of a string is a one-character string: never numeric
    case Str(s) => if |s| < 2 then Raise else Skip
    case _ => Raise
  }

  /** An element raises exactly when indexing it fails (fewer than two
      items, or not indexable) or when its in-range value comes with a
      timestamp int() rejects. */
  lemma EntryOfRaises(e: Json, lo: real, hi: real, intOfStr: string -> Option<int>)
    ensures e.Arr? && |e.items| >= 2 ==>
              (EntryOf(e, lo, hi, intOfStr).Raise? <==>
                 e.items[1].Num? && lo <= e.items[1].n <= hi && IntOf(e.items[0], intOfStr).None?)
    ensures !(e.Arr? && |e.items| >= 2) ==> (EntryOf(e, lo, hi, intOfStr).Raise? <==> !(e.Str? && |e.s| >= 2))
  {
  }

  predicate AllInRange(ps: seq<Pair>, lo: real, hi: real) {
    forall i :: 0 <= i < |ps| ==> lo <= ps[i].v <= hi
  }

  /** The pairs of an accepted series, in list order; None if an element raises. */
  function SeriesPairs(items: seq<Json>, lo: real, hi: real, intOfStr: string -> Option<int>): (r: Option<seq<Pair>>)
    ensures r.Some? ==> AllInRange(r.value, lo, hi)
    ensures r.Some? ==> |r.value| <= |items|
  {
    if |items| == 0 then Some([])
    else match SeriesPairs(items[..|items| - 1], lo, hi, intOfStr)
      case None => None
      case Some(ps) =>
        match EntryOf(items[|items| - 1], lo, hi, intOfStr)
        case Raise => None
        case Skip => Some(ps)
        case Keep(p) => Some(ps + [p])
  }

  /** collect_pairs as a value: every pair found anywhere in `o`, in the order
      the search meets them, or None when the search raises. */
  function PairsOf(o: Json, lo: real, hi: real, intOfStr: string -> Option<int>): (r: Option<seq<Pair>>)
    ensures r.Some? ==> AllInRange(r.value, lo, hi)
    decreases o
  {
    match o
    case Arr(items) =>
      if IsPairSeries(items) then SeriesPairs(items, lo, hi, intOfStr)
      else PairsOfList(items, lo, hi, intOfStr)
    case Obj(fields) => PairsOfFields(fields, lo, hi, intOfStr)
    case _ => Some([])
  }

  function PairsOfList(items: seq<Json>, lo: real, hi: real, intOfStr: string -> Option<int>): (r: Option<seq<Pair>>)
    ensures r.Some? ==> AllInRange(r.value, lo, hi)
    decreases items
  {
    if |items| == 0 then Some([])
    else match (PairsOfList(items[..|items| - 1], lo, hi, intOfStr), PairsOf(items[|items| - 1], lo, hi, intOfStr))
      case (Some(a), Some(b)) => Some(a + b)
      case _ => None
  }

  /** A dict is searched through its values only; keys play no part. */
  function PairsOfFields(fields: seq<Field>, lo: real, hi: real, intOfStr: string -> Option<int>): (r: Option<seq<Pair>>)
    ensures r.Some? ==> AllInRange(r.value, lo, hi)
    decreases fields
  {
    if |fields| == 0 then Some([])
    else match (PairsOfFields(fields[..|fields| - 1], lo, hi, intOfStr), PairsOf(fields[|fields| - 1].val, lo, hi, intOfStr))
      case (Some(a), Some(b)) => Some(a + b)
      case _ => None
  }

  /** Searching a dict gives what searching the list of its values, element
      by element, gives: keys are ignored. */
  lemma {:induction false} FieldsSearchedLikeList(fields: seq<Field>, items: seq<Json>, lo: real, hi: real, intOfStr: string -> Option<int>)
    requires |fields| == |items|
    requires forall i :: 0 <= i < |items| ==> fields[i].val == items[i]
    ensures PairsOfFields(fields, lo, hi, intOfStr) == PairsOfList(items, lo, hi, intOfStr)
  {
    if |items| > 0 {
      FieldsSearchedLikeList(fields[..|fields| - 1], items[..|items| - 1], lo, hi, intOfStr);
    }
  }

  /** Renaming the keys of a dict changes nothing. */
  lemma KeysIgnored(fields: seq<Field>, renamed: seq<Field>, lo: real, hi: real, intOfStr: string -> Option<int>)
    requires |fields| == |renamed|
    requires forall i :: 0 <= i < |fields| ==> fields[i].val == renamed[i].val
    ensures PairsOf(Obj(fields), lo, hi, intOfStr) == PairsOf(Obj(renamed), lo, hi, intOfStr)
  {
    var values := seq(|fields|, i requires 0 <= i < |fields| => fields[i].val);
    FieldsSearchedLikeList(fields, values, lo, hi, intOfStr);
    FieldsSearchedLikeList(renamed, values, lo, hi, intOfStr);
  }

  /** A list that fails the heuristic is searched exactly like a dict holding
      the same values. */
  lemma NonSeriesListLikeDict(items: seq<Json>, fields: seq<Field>, lo: real, hi: real, intOfStr: string -> Option<int>)
    requires !IsPairSeries(items)
    requires |fields| == |items|
    requires forall i :: 0 <= i < |items| ==> fields[i].val == items[i]
    ensures PairsOf(Arr(items), lo, hi, intOfStr) == PairsOf(Obj(fields), lo, hi, intOfStr)
  {
    FieldsSearchedLikeList(fields, items, lo, hi, intOfStr);
  }

  /** Every pair taken from an accepted series is the first two components of
      one of its elements, the timestamp put through ToEpochMs: nothing nested
      deeper inside the series is looked at. */
  lemma {:induction false} SeriesPairsProvenance(items: seq<Json>, lo: real, hi: real, intOfStr: string -> Option<int>)
    requires SeriesPairs(items, lo, hi, intOfStr).Some?
    ensures forall p :: p in SeriesPairs(items, lo, hi, intOfStr).value ==>
      exists i :: (0 <= i < |items| && items[i].Arr? && |items[i].items| >= 2
        && items[i].items[1] == Num(p.v)
        && IntOf(items[i].items[0], intOfStr).Some?
        && p.t == ToEpochMs(IntOf(items[i].items[0], intOfStr).value))
  {
    if |items| > 0 {
      var init := items[..|items| - 1];
      SeriesPairsProvenance(init, lo, hi, intOfStr);
      var ps := SeriesPairs(init, lo, hi, intOfStr).value;
      forall p | p in SeriesPairs(items, lo, hi, intOfStr).value
        ensures exists i :: (0 <= i < |items| && items[i].Arr? && |items[i].items| >= 2
          && items[i].items[1] == Num(p.v)
          && IntOf(items[i].items[0], intOfStr).Some?
          && p.t == ToEpochMs(IntOf(items[i].items[0], intOfStr).value))
      {
        if p in ps {
          var i :| 0 <= i < |init| && init[i].Arr? && |init[i].items| >= 2
            && init[i].items[1] == Num(p.v)
            && IntOf(init[i].items[0], intOfStr).Some?
            && p.t == ToEpochMs(IntOf(init[i].items[0], intOfStr).value);
          assert items[i] == init[i];
        } else {
          var k := |items| - 1;
          assert EntryOf(items[k], lo, hi, intOfStr) == Keep(p);
        }
      }
    }
  }

  /** How many of the first `i` elements of a series contribute a pair. */
  function KeptBefore(items: seq<Json>, i: nat, lo: real, hi: real, intOfStr: string -> Option<int>): nat
    requires i <= |items|
  {
    |set k | 0 <= k < i && EntryOf(items[k], lo, hi, intOfStr).Keep?|
  }

  /** The series loop raises exactly when one of its elements does. */
  lemma {:induction false} SeriesPairsNoneIff(items: seq<Json>, lo: real, hi: real, intOfStr: string -> Option<int>)
    ensures SeriesPairs(items, lo, hi, intOfStr).None?
        <==> exists i :: 0 <= i < |items| && EntryOf(items[i], lo, hi, intOfStr).Raise?
  {
    if |items| > 0 {
      var last := |items| - 1;
      var init := items[..last];
      SeriesPairsNoneIff(init, lo, hi, intOfStr);
      if SeriesPairs(init, lo, hi, intOfStr).None? {
        var i :| 0 <= i < |init| && EntryOf(init[i], lo, hi, intOfStr).Raise?;
        assert items[i] == init[i];
      } else if !EntryOf(items[last], lo, hi, intOfStr).Raise? {
        forall i | 0 <= i < |items| ensures !EntryOf(items[i], lo, hi, intOfStr).Raise? {
          if i < last {
            assert items[i] == init[i];
          }
        }
      }
    }
  }

  lemma KeptBeforePrefix(items: seq<Json>, n: nat, i: nat, lo: real, hi: real, intOfStr: string -> Option<int>)
    requires i <= n <= |items|
    ensures KeptBefore(items[..n], i, lo, hi, intOfStr) == KeptBefore(items, i, lo, hi, intOfStr)
  {
    assert (set k | 0 <= k < i && EntryOf(items[..n][k], lo, hi, intOfStr).Keep?)
        == (set k | 0 <= k < i && EntryOf(items[k], lo, hi, intOfStr).Keep?);
  }

  lemma KeptBeforeNext(items: seq<Json>, i: nat, lo: real, hi: real, intOfStr: string -> Option<int>)
    requires i < |items|
    ensures KeptBefore(items, i + 1, lo, hi, intOfStr)
         == KeptBefore(items, i, lo, hi, intOfStr) + (if EntryOf(items[i], lo, hi, intOfStr).Keep? then 1 else 0)
  {
    var keep := EntryOf(items[i], lo, hi, intOfStr).Keep?;
    assert (set k | 0 <= k < i + 1 && EntryOf(items[k], lo, hi, intOfStr).Keep?)
        == (set k | 0 <= k < i && EntryOf(items[k], lo, hi, intOfStr).Keep?) + (if keep then {i} else {});
  }

  /** `ps` holds exactly the pairs of the kept elements of `items`, in list
      order: the pair of the i-th element sits after those of the kept
      elements before it. */
  predicate InOrder(items: seq<Json>, ps: seq<Pair>, lo: real, hi: real, intOfStr: string -> Option<int>) {
    |ps| == KeptBefore(items, |items|, lo, hi, intOfStr)
    && forall i :: 0 <= i < |items| && EntryOf(items[i], lo, hi, intOfStr).Keep? ==>
         KeptBefore(items, i, lo, hi, intOfStr) < |ps|
         && ps[KeptBefore(items, i, lo, hi, intOfStr)] == EntryOf(items[i], lo, hi, intOfStr).p
  }

  /** An accepted series yields exactly the pairs of its kept elements, in
      list order. */
  lemma {:induction false} SeriesPairsInOrder(items: seq<Json>, lo: real, hi: real, intOfStr: string -> Option<int>)
    requires SeriesPairs(items, lo, hi, intOfStr).Some?
    ensures InOrder(items, SeriesPairs(items, lo, hi, intOfStr).value, lo, hi, intOfStr)
  {
    if |items| > 0 {
      var last := |items| - 1;
      var init := items[..last];
      SeriesPairsInOrder(init, lo, hi, intOfStr);
      var ps0 := SeriesPairs(init, lo, hi, intOfStr).value;
      var ps := SeriesPairs(items, lo, hi, intOfStr).value;
      var e := EntryOf(items[last], lo, hi, intOfStr);
      assert ps == if e.Keep? then ps0 + [e.p] else ps0;
      InOrderStep(items, ps0, ps, lo, hi, intOfStr);
    }
  }

  /** The inductive step of SeriesPairsInOrder: appending the last element's
      pair (if kept) to the pairs of the others keeps every pair in place. */
  lemma InOrderStep(items: seq<Json>, ps0: seq<Pair>, ps: seq<Pair>, lo: real, hi: real, intOfStr: string -> Option<int>)
    requires |items| > 0
    requires InOrder(items[..|items| - 1], ps0, lo, hi, intOfStr)
    requires var e := EntryOf(items[|items| - 1], lo, hi, intOfStr);
             ps == if e.Keep? then ps0 + [e.p] else ps0
    ensures InOrder(items, ps, lo, hi, intOfStr)
  {
    var last := |items| - 1;
    var init := items[..last];
    KeptBeforePrefix(items, last, last, lo, hi, intOfStr);
    KeptBeforeNext(items, last, lo, hi, intOfStr);
    forall i | 0 <= i < |items| && EntryOf(items[i], lo, hi, intOfStr).Keep?
      ensures KeptBefore(items, i, lo, hi, intOfStr) < |ps|
           && ps[KeptBefore(items, i, lo, hi, intOfStr)] == EntryOf(items[i], lo, hi, intOfStr).p
    {
      if i < last {
        KeptBeforePrefix(items, last, i, lo, hi, intOfStr);
        assert items[i] == init[i];
      }
    }
  }

  /** collect_pairs: the recursive search, appending to an accumulator. */
  method CollectPairs(o: Json, lo: real, hi: real, intOfStr: string -> Option<int>) returns (r: Option<seq<Pair>>)
    ensures r == PairsOf(o, lo, hi, intOfStr)
    ensures r.Some? ==> AllInRange(r.value, lo, hi)
  {
    var out, ok := CollectInto(o, lo, hi, intOfStr, []);
    if ok {
      assert out == [] + PairsOf(o, lo, hi, intOfStr).value;
      r := Some(out);
      assert r.value == PairsOf(o, lo, hi, intOfStr).value;
      assert PairsOf(o, lo, hi, intOfStr).Some?;
    } else {
      r := None;
      assert PairsOf(o, lo, hi, intOfStr).None?;
    }
  }

  /** The nested `rec` of collect_pairs: `ok` is false when the search raised. */
  method CollectInto(o: Json, lo: real, hi: real, intOfStr: string -> Option<int>, acc: seq<Pair>)
    returns (out: seq<Pair>, ok: bool)
    ensures ok <==> PairsOf(o, lo, hi, intOfStr).Some?
    ensures ok ==> out == acc + PairsOf(o, lo, hi, intOfStr).value
    decreases o, 1
  {
    match o {
      case Arr(items) =>
        if IsPairSeries(items) {
          out, ok := CollectSeries(items, lo, hi, intOfStr, acc);
        } else {
          out, ok := CollectList(o, items, lo, hi, intOfStr, acc);
        }
      case Obj(fields) =>
        out, ok := CollectFields(o, fields, lo, hi, intOfStr, acc);
      case _ =>
        out, ok := acc, true;
    }
  }

  /** An accepted series: every element is decoded, none is searched. */
  method CollectSeries(items: seq<Json>, lo: real, hi: real, intOfStr: string -> Option<int>, acc: seq<Pair>)
    returns (out: seq<Pair>, ok: bool)
    ensures ok <==> SeriesPairs(items, lo, hi, intOfStr).Some?
    ensures ok ==> out == acc + SeriesPairs(items, lo, hi, intOfStr).value
  {
    out, ok := acc, true;
    var i := 0;
    while i < |items|
      invariant 0 <= i <= |items|
      invariant SeriesPairs(items[..i], lo, hi, intOfStr).Some?
      invariant out == acc + SeriesPairs(items[..i], lo, hi, intOfStr).value
    {
      assert items[..i + 1][..i] == items[..i];
      var e := EntryOf(items[i], lo, hi, intOfStr);
      if e.Raise? {
        assert SeriesPairs(items[..i + 1], lo, hi, intOfStr).None?;
        SeriesNoneExtends(items, i + 1, lo, hi, intOfStr);
        return out, false;
      }
      if e.Keep? {
        out := out + [e.p];
      }
      i := i + 1;
    }
    assert items[..i] == items;
  }

  /** Any other list: every element is searched in turn. */
  method CollectList(ghost o: Json, items: seq<Json>, lo: real, hi: real, intOfStr: string -> Option<int>, acc: seq<Pair>)
    returns (out: seq<Pair>, ok: bool)
    requires o == Arr(items)
    ensures ok <==> PairsOfList(items, lo, hi, intOfStr).Some?
    ensures ok ==> out == acc + PairsOfList(items, lo, hi, intOfStr).value
    decreases o, 0
  {
    out, ok := acc, true;
    var i := 0;
    while i < |items|
      invariant 0 <= i <= |items|
      invariant PairsOfList(items[..i], lo, hi, intOfStr).Some?
      invariant out == acc + PairsOfList(items[..i], lo, hi, intOfStr).value
    {
      assert items[..i + 1][..i] == items[..i];
      out, ok := CollectInto(items[i], lo, hi, intOfStr, out);
      if !ok {
        ListNoneExtends(items, i + 1, lo, hi, intOfStr);
        return out, false;
      }
      i := i + 1;
    }
    assert items[..i] == items;
  }

  /** A dict: every value is searched in turn, keys are not looked at. */
  method CollectFields(ghost o: Json, fields: seq<Field>, lo: real, hi: real, intOfStr: string -> Option<int>, acc: seq<Pair>)
    returns (out: seq<Pair>, ok: bool)
    requires o == Obj(fields)
    ensures ok <==> PairsOfFields(fields, lo, hi, intOfStr).Some?
    ensures ok ==> out == acc + PairsOfFields(fields, lo, hi, intOfStr).value
    decreases o, 0
  {
    out, ok := acc, true;
    var i := 0;
    while i < |fields|
      invariant 0 <= i <= |fields|
      invariant PairsOfFields(fields[..i], lo, hi, intOfStr).Some?
      invariant out == acc + PairsOfFields(fields[..i], lo, hi, intOfStr).value
    {
      assert fields[..i + 1][..i] == fields[..i];
      out, ok := CollectInto(fields[i].val, lo, hi, intOfStr, out);
      if !ok {
        FieldsNoneExtends(fields, i + 1, lo, hi, intOfStr);
        return out, false;
      }
      i := i + 1;
    }
    assert fields[..i] == fields;
  }

  /** Once a prefix of a series raises, the whole series raises. */
  lemma {:induction false} SeriesNoneExtends(items: seq<Json>, k: nat, lo: real, hi: real, intOfStr: string -> Option<int>)
    requires k <= |items|
    requires SeriesPairs(items[..k], lo, hi, intOfStr).None?
    ensures SeriesPairs(items, lo, hi, intOfStr).None?
    decreases |items| - k
  {
    if k < |items| {
      assert items[..k + 1][..k] == items[..k];
      SeriesNoneExtends(items, k + 1, lo, hi, intOfStr);
    } else {
      assert items[..k] == items;
    }
  }

  lemma {:induction false} ListNoneExtends(items: seq<Json>, k: nat, lo: real, hi: real, intOfStr: string -> Option<int>)
    requires 0 < k <= |items|
    requires PairsOf(items[k - 1], lo, hi, intOfStr).None? || PairsOfList(items[..k - 1], lo, hi, intOfStr).None?
    ensures PairsOfList(items, lo, hi, intOfStr).None?
    decreases |items| - k
  {
    assert items[..k][..k - 1] == items[..k - 1];
    if k < |items| {
      assert items[..k + 1][..k] == items[..k];
      ListNoneExtends(items, k + 1, lo, hi, intOfStr);
    } else {
      assert items[..k] == items;
    }
  }

  lemma {:induction false} FieldsNoneExtends(fields: seq<Field>, k: nat, lo: real, hi: real, intOfStr: string -> Option<int>)
    requires 0 < k <= |fields|
    requires PairsOf(fields[k - 1].val, lo, hi, intOfStr).None? || PairsOfFields(fields[..k - 1], lo, hi, intOfStr).None?
    ensures PairsOfFields(fields, lo, hi, intOfStr).None?
    decreases |fields| - k
  {
    assert fields[..k][..k - 1] == fields[..k - 1];
    if k < |fields| {
      assert fields[..k + 1][..k] == fields[..k];
      FieldsNoneExtends(fields, k + 1, lo, hi, intOfStr);
    } else {
      assert fields[..k] == fields;
    }
  }
}
