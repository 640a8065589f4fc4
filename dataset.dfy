// main of scripts/build_dataset.py (lines 164-307) and
// load_body_battery_series (lines 91-101): the global body-battery series,
// the per-day grid with its metric columns, steps/kcal, sleep flag,
// usability test, body-battery fill and daily summary row, and the final
// check that some day survived.

module DatasetBuilder {
  import opened JsonValue
  import opened PairExtractor
  import opened Series
  import opened TreeSearch
  import opened Grid
  import opened GapFill
  import opened Names

  /** The raw directory: each file name with its parsed document, or None
      when json.loads fails on it. */
  type RawDir = map<string, Option<Json>>

  /** The command-line options that shape the output: --freq as a step in
      milliseconds, --bb-fill and --drop-empty-days. */
  datatype Config = Config(stepMs: int, fill: FillPolicy, dropEmptyDays: bool)

  /** The parsers outside this model: int() on a string timestamp, the
      date-time parse of a sleep timestamp string, and the instant of local
      midnight of a "YYYY-MM-DD" day in the configured time zone (None when
      pd.Timestamp rejects the text). */
  datatype Parsers = Parsers(
    intOfStr: string -> Option<int>,
    instantOf: string -> Option<int>,
    dayStartOf: string -> Option<int>)

  /** Why a run stops (SystemExit, or an exception the script does not catch). */
  datatype BuildError =
    | NoDays
    | BadDay(day: string)
    | Unreadable(file: string)
    | MalformedSeries(file: string)
    | NoMinuteData

  /** One row of minute.parquet. */
  datatype MinuteRow = MinuteRow(
    timestamp: int,
    hr: Option<real>, stress: Option<real>, resp: Option<real>, bb: Option<real>,
    steps: Option<real>, kcal: Option<real>,
    sleepFlag: int)

  /** One row of daily.parquet. */
  datatype DailyRow = DailyRow(
    date: string,
    hr: Option<real>, stress: Option<real>, resp: Option<real>, bb: Option<real>,
    steps: Option<real>, kcal: Option<real>,
    sleepFlag: int,
    coverageHr: real, coverageStress: real, coverageResp: real, coverageBb: real)

  datatype DayOutcome = Dropped | Kept(minutes: seq<MinuteRow>, daily: DailyRow)

  datatype Dataset = Dataset(minutes: seq<MinuteRow>, daily: seq<DailyRow>)

  // Plausibility ranges that collect_pairs is called with.
  const HrMin: real := 20.0
  const HrMax: real := 250.0
  const StressMin: real := 0.0
  const StressMax: real := 100.0
  const RespMin: real := 2.0
  const RespMax: real := 60.0
  const BbMin: real := 0.0
  const BbMax: real := 100.0

  const StepsKeys: seq<string> := ["totalSteps", "steps"]
  const KcalKeys: seq<string> := ["totalKilocalories", "totalKiloCalories", "kilocalories", "kiloCalories"]

  // ---- the global body-battery series ----

  /** What one body-battery file contributes: nothing when its name holds
      "error", when it cannot be parsed, or when collect_pairs raises on it. */
  function FilePairs(raw: RawDir, name: string, p: Parsers): (ps: seq<Pair>)
    requires name in raw
    ensures AllInRange(ps, BbMin, BbMax)
  {
    if IsErrorName(name) || raw[name].None? then []
    else
      match PairsOf(raw[name].value, BbMin, BbMax, p.intOfStr)
      case None => []
      case Some(ps) => ps
  }

  /** pairs_all after visiting `files` in order. */
  function BbPairs(raw: RawDir, files: seq<string>, p: Parsers): (ps: seq<Pair>)
    requires forall f :: f in files ==> f in raw
    ensures AllInRange(ps, BbMin, BbMax)
  {
    if |files| == 0 then []
    else BbPairs(raw, files[..|files| - 1], p) + FilePairs(raw, files[|files| - 1], p)
  }

  function BodyBatterySeries(raw: RawDir, p: Parsers): (s: seq<Pair>)
    ensures StrictlyIncreasing(s)
    ensures AllInRange(s, BbMin, BbMax)
  {
    var ps := BbPairs(raw, BodyBatteryFiles(raw.Keys), p);
    NormalizeKeepsRange(ps, BbMin, BbMax);
    Normalize(ps)
  }

  /** load_body_battery_series: visit the body-battery files in sorted name
      order, skip the "error" ones and those that fail, extend the pairs
      with the rest, then normalise. */
  method LoadBodyBatterySeries(raw: RawDir, p: Parsers) returns (s: seq<Pair>)
    ensures s == BodyBatterySeries(raw, p)
  {
    var files := BodyBatteryFiles(raw.Keys);
    var pairsAll: seq<Pair> := [];
    var i := 0;
    while i < |files|
      invariant 0 <= i <= |files|
      invariant forall f :: f in files ==> f in raw
      invariant pairsAll == BbPairs(raw, files[..i], p)
    {
      var contribution := LoadBodyBatteryFile(raw, files[i], p);
      BbPairsStep(raw, files, i, p);
      pairsAll := pairsAll + contribution;
      i := i + 1;
    }
    assert files[..i] == files;
    s := Normalize(pairsAll);
  }

  /** The body of the loader's loop for one file: skip an "error" name,
      an unreadable file and a file on which collect_pairs raises. */
  method LoadBodyBatteryFile(raw: RawDir, name: string, p: Parsers) returns (ps: seq<Pair>)
    requires name in raw
    ensures ps == FilePairs(raw, name, p)
  {
    ps := [];
    if !IsErrorName(name) && raw[name].Some? {
      var got := CollectPairs(raw[name].value, BbMin, BbMax, p.intOfStr);
      if got.Some? {
        ps := got.value;
      }
    }
  }

  lemma BbPairsStep(raw: RawDir, files: seq<string>, i: nat, p: Parsers)
    requires i < |files| && forall f :: f in files ==> f in raw
    ensures BbPairs(raw, files[..i + 1], p) == BbPairs(raw, files[..i], p) + FilePairs(raw, files[i], p)
  {
    assert files[..i + 1][..i] == files[..i];
  }

  /** A body-battery pair that the loader keeps survives into the global
      series unless a later file or entry gives its instant another value. */
  lemma BodyBatteryLastWins(raw: RawDir, p: Parsers, j: nat)
    requires j < |BbPairs(raw, BodyBatteryFiles(raw.Keys), p)|
    requires var ps := BbPairs(raw, BodyBatteryFiles(raw.Keys), p);
             forall k :: j < k < |ps| ==> ps[k].t != ps[j].t
    ensures var ps := BbPairs(raw, BodyBatteryFiles(raw.Keys), p);
            exists i :: 0 <= i < |BodyBatterySeries(raw, p)| && BodyBatterySeries(raw, p)[i] == ps[j]
  {
    var ps := BbPairs(raw, BodyBatteryFiles(raw.Keys), p);
    NormalizeLastWins(ps, j);
    var i :| 0 <= i < |Normalize(ps)| && Normalize(ps)[i] == ps[j];
    assert BodyBatterySeries(raw, p) == Normalize(ps);
  }

  /** A file whose name holds "error" contributes nothing, whatever it holds. */
  lemma ErrorFilesIgnored(raw: RawDir, name: string, doc: Option<Json>, p: Parsers)
    requires name in raw && IsErrorName(name)
    ensures FilePairs(raw[name := doc], name, p) == []
  {
  }

  // ---- one day ----

  /** A column with every slot missing (`day_df[col] = pd.NA`). */
  function Missing(n: nat): (col: Column)
    ensures |col| == n && AllMissing(col)
  {
    seq(n, _ => None)
  }

  /** pd.Timestamp(ds).tz_localize(tz): the day's first instant, or BadDay
      when the text is not a date. */
  function DayStart(ds: string, p: Parsers): (r: Result<int, BuildError>)
    ensures r.Err? <==> p.dayStartOf(ds).None?
    ensures r.Err? ==> r.error == BadDay(ds)
    ensures r.Ok? ==> r.value == p.dayStartOf(ds).value
  {
    match p.dayStartOf(ds)
    case None => Err(BadDay(ds))
    case Some(t) => Ok(t)
  }

  /** One per-minute metric: all missing when its file is absent; the run
      stops when the file cannot be parsed or collect_pairs raises on it;
      otherwise the normalised pairs aligned onto the day's grid. */
  function MetricColumn(raw: RawDir, file: string, lo: real, hi: real, dayStart: int, step: int, p: Parsers)
    : (r: Result<Column, BuildError>)
    requires ValidStep(step)
    ensures r.Ok? ==> |r.value| == SlotCount(step) && ColumnInRange(r.value, lo, hi)
    ensures file !in raw ==> r == Ok(Missing(SlotCount(step)))
    ensures r.Err? <==> file in raw && (raw[file].None? || PairsOf(raw[file].value, lo, hi, p.intOfStr).None?)
  {
    if file !in raw then Ok(Missing(SlotCount(step)))
    else if raw[file].None? then Err(Unreadable(file))
    else
      match PairsOf(raw[file].value, lo, hi, p.intOfStr)
      case None => Err(MalformedSeries(file))
      case Some(ps) =>
        NormalizeKeepsRange(ps, lo, hi);
        AlignKeepsRange(Normalize(ps), dayStart, step, lo, hi);
        Ok(Align(Normalize(ps), dayStart, step))
  }

  method LoadMetric(raw: RawDir, file: string, lo: real, hi: real, dayStart: int, step: int, p: Parsers)
    returns (r: Result<Column, BuildError>)
    requires ValidStep(step)
    ensures r == MetricColumn(raw, file, lo, hi, dayStart, step, p)
  {
    if file !in raw {
      return Ok(Missing(SlotCount(step)));
    }
    var doc := raw[file];
    if doc.None? {
      return Err(Unreadable(file));
    }
    var got := CollectPairs(doc.value, lo, hi, p.intOfStr);
    if got.None? {
      return Err(MalformedSeries(file));
    }
    var s := Normalize(got.value);
    r := Ok(Align(s, dayStart, step));
  }

  /** steps and kcal from the user summary: both None when the file is
      absent, the first number under the listed keys otherwise. */
  function Totals(raw: RawDir, file: string): (r: Result<(Option<real>, Option<real>), BuildError>)
    ensures file !in raw ==> r == Ok((None, None))
    ensures r.Err? <==> file in raw && raw[file].None?
    ensures r.Err? ==> r.error == Unreadable(file)
    ensures r.Ok? && file in raw ==>
              (r.value.0.None? <==> NumbersUnder(raw[file].value, StepsKeys) == []) &&
              (r.value.1.None? <==> NumbersUnder(raw[file].value, KcalKeys) == [])
  {
    if file !in raw then Ok((None, None))
    else if raw[file].None? then Err(Unreadable(file))
    else Ok((Head(NumbersUnder(raw[file].value, StepsKeys)), Head(NumbersUnder(raw[file].value, KcalKeys))))
  }

  method LoadTotals(raw: RawDir, file: string) returns (r: Result<(Option<real>, Option<real>), BuildError>)
    ensures r == Totals(raw, file)
  {
    if file !in raw {
      return Ok((None, None));
    }
    var doc := raw[file];
    if doc.None? {
      return Err(Unreadable(file));
    }
    var steps := FindFirstNumber(doc.value, StepsKeys);
    var kcal := FindFirstNumber(doc.value, KcalKeys);
    r := Ok((steps, kcal));
  }

  /** The main sleep window: none when the sleep file is absent. */
  function SleepWindowOf(raw: RawDir, file: string, p: Parsers): (r: Result<Option<Window>, BuildError>)
    ensures file !in raw ==> r == Ok(None)
    ensures r.Err? <==> file in raw && raw[file].None?
    ensures r.Err? ==> r.error == Unreadable(file)
    ensures r.Ok? && r.value.Some? ==> file in raw && r.value == SleepWindow(raw[file].value, p.instantOf)
  {
    if file !in raw then Ok(None)
    else if raw[file].None? then Err(Unreadable(file))
    else Ok(SleepWindow(raw[file].value, p.instantOf))
  }

  /** has_any: some slot of hr, stress, resp or bb holds a value. */
  predicate HasAny(hr: Column, stress: Column, resp: Column, bb: Column)
    ensures HasAny(hr, stress, resp, bb) <==>
              (exists k :: 0 <= k < |hr| && hr[k].Some?) || (exists k :: 0 <= k < |stress| && stress[k].Some?) ||
              (exists k :: 0 <= k < |resp| && resp[k].Some?) || (exists k :: 0 <= k < |bb| && bb[k].Some?)
  {
    !(AllMissing(hr) && AllMissing(stress) && AllMissing(resp) && AllMissing(bb))
  }

  /** The known values of a column, in slot order. */
  function KnownValues(col: Column): (vs: seq<real>)
    ensures |vs| <= |col|
    ensures |vs| == 0 <==> AllMissing(col)
    ensures |vs| == |col| <==> AllKnown(col)
  {
    if |col| == 0 then []
    else
      var init := col[..|col| - 1];
      assert forall k :: 0 <= k < |init| ==> init[k] == col[k];
      KnownValues(init) + (if col[|col| - 1].Some? then [col[|col| - 1].value] else [])
  }

  /** The set of observed slots of a column. */
  function Observed(col: Column): set<int> {
    set k | 0 <= k < |col| && col[k].Some?
  }

  /** There is exactly one known value per observed slot. */
  lemma {:induction false} KnownValuesCount(col: Column)
    ensures |KnownValues(col)| == |Observed(col)|
  {
    if |col| > 0 {
      var last := |col| - 1;
      var init := col[..last];
      KnownValuesCount(init);
      assert Observed(init) == (set k | 0 <= k < last && col[k].Some?);
      assert Observed(col) == Observed(init) + (if col[last].Some? then {last} else {});
    }
  }

  lemma {:induction false} KnownValuesInRange(col: Column, lo: real, hi: real)
    requires ColumnInRange(col, lo, hi)
    ensures forall i :: 0 <= i < |KnownValues(col)| ==> lo <= KnownValues(col)[i] <= hi
  {
    if |col| > 0 {
      KnownValuesInRange(col[..|col| - 1], lo, hi);
    }
  }

  /** The known values are exactly the values of the observed slots. */
  lemma {:induction false} KnownValuesAreObserved(col: Column)
    ensures forall i :: 0 <= i < |KnownValues(col)| ==>
              exists k :: 0 <= k < |col| && col[k] == Some(KnownValues(col)[i])
    ensures forall k :: 0 <= k < |col| && col[k].Some? ==> col[k].value in KnownValues(col)
  {
    if |col| > 0 {
      var init := col[..|col| - 1];
      KnownValuesAreObserved(init);
      var vs := KnownValues(col);
      assert vs == KnownValues(init) + (if col[|col| - 1].Some? then [col[|col| - 1].value] else []);
      forall i | 0 <= i < |vs| ensures exists k :: 0 <= k < |col| && col[k] == Some(vs[i]) {
        if i < |KnownValues(init)| {
          var k :| 0 <= k < |init| && init[k] == Some(KnownValues(init)[i]);
          assert col[k] == Some(vs[i]);
        } else {
          assert col[|col| - 1] == Some(vs[i]);
        }
      }
      forall k | 0 <= k < |col| && col[k].Some? ensures col[k].value in vs {
        if k < |init| {
          assert init[k] == col[k];
        }
      }
    } else {
      assert KnownValues(col) == [];
    }
  }

  /** float(col.notna().mean()): the share of slots that hold a value. */
  function Coverage(col: Column): (c: real)
    requires |col| > 0
    ensures 0.0 <= c <= 1.0
  {
    RatioBounds(|KnownValues(col)|, |col|);
    (|KnownValues(col)| as real) / (|col| as real)
  }

  /** The coverage is the number of observed slots divided by N. */
  lemma CoverageIsShare(col: Column)
    requires |col| > 0
    ensures Coverage(col) == (|Observed(col)| as real) / (|col| as real)
  {
    KnownValuesCount(col);
  }

  /** Each coverage is k/N for the k known slots, so it lies in [0, 1], is 0
      exactly for an all-missing column and 1 exactly for a full one. */
  lemma CoverageBounds(col: Column)
    requires |col| > 0
    ensures 0.0 <= Coverage(col) <= 1.0
    ensures Coverage(col) == 0.0 <==> AllMissing(col)
    ensures Coverage(col) == 1.0 <==> AllKnown(col)
  {
    RatioBounds(|KnownValues(col)|, |col|);
  }

  lemma RatioBounds(k: nat, n: nat)
    requires k <= n && n > 0
    ensures 0.0 <= (k as real) / (n as real) <= 1.0
    ensures (k as real) / (n as real) == 0.0 <==> k == 0
    ensures (k as real) / (n as real) == 1.0 <==> k == n
  {
    var q := (k as real) / (n as real);
    assert q * (n as real) == k as real;
  }

  /** The daily mean of a per-minute column: the mean of its known slots,
      None when it has none. */
  function MeanKnown(col: Column): (m: Option<real>)
    ensures m.None? <==> AllMissing(col)
  {
    Mean(KnownValues(col))
  }

  lemma MeanKnownInRange(col: Column, lo: real, hi: real)
    requires ColumnInRange(col, lo, hi)
    ensures MeanKnown(col).Some? ==> lo <= MeanKnown(col).value <= hi
  {
    KnownValuesInRange(col, lo, hi);
    MeanBounds(KnownValues(col), lo, hi);
  }

  /** The per-minute rows of a kept day: slot instant, the three metrics as
      aligned, the filled body-battery column, the day's steps and kcal on
      every row, and the sleep flag. */
  function MinuteRows(dayStart: int, step: int, hr: Column, stress: Column, resp: Column, bb: Column,
                      steps: Option<real>, kcal: Option<real>, flags: seq<int>): (rows: seq<MinuteRow>)
    requires ValidStep(step)
    requires |hr| == |stress| == |resp| == |bb| == |flags| == SlotCount(step)
    ensures |rows| == SlotCount(step)
  {
    seq(SlotCount(step), k requires 0 <= k < SlotCount(step) =>
      MinuteRow(SlotTime(dayStart, step, k), hr[k], stress[k], resp[k], bb[k], steps, kcal, flags[k]))
  }

  /** What remains of the day body once every input has been read: drop the
      day when asked and nothing was observed, otherwise fill body battery
      and build the rows. */
  function FinishDay(ds: string, dayStart: int, cfg: Config, hr: Column, stress: Column, resp: Column,
                     bb: Column, steps: Option<real>, kcal: Option<real>, flags: seq<int>): (r: DayOutcome)
    requires ValidStep(cfg.stepMs)
    requires |hr| == |stress| == |resp| == |bb| == |flags| == SlotCount(cfg.stepMs)
    ensures r.Dropped? <==> cfg.dropEmptyDays && !HasAny(hr, stress, resp, bb)
    ensures r.Kept? ==> r.daily.date == ds && |r.minutes| == SlotCount(cfg.stepMs)
  {
    if cfg.dropEmptyDays && !HasAny(hr, stress, resp, bb) then Dropped
    else
      var filled := Fill(cfg.fill, bb);
      Kept(MinuteRows(dayStart, cfg.stepMs, hr, stress, resp, filled, steps, kcal, flags),
           DailyRow(ds, MeanKnown(hr), MeanKnown(stress), MeanKnown(resp), LastKnown(filled),
                    steps, kcal, MaxOf(flags),
                    Coverage(hr), Coverage(stress), Coverage(resp), Coverage(filled)))
  }

  /** The files the day body reads for day ds. */
  function DayFiles(ds: string): seq<string> {
    [ds + "_heart_rates.json", ds + "_stress.json", ds + "_respiration.json",
     ds + "_user_summary.json", ds + "_sleep.json"]
  }

  /** An error the day body for ds can raise: its date does not parse, or
      one of its own files cannot be read or holds a malformed series. */
  predicate OwnError(ds: string, e: BuildError) {
    e == BadDay(ds) || ((e.Unreadable? || e.MalformedSeries?) && e.file in DayFiles(ds))
  }

  /** The body of the day loop; files are read in the script's order, and
      the first failure stops the run. */
  function AssembleDay(raw: RawDir, bbSeries: seq<Pair>, ds: string, cfg: Config, p: Parsers)
    : (r: Result<DayOutcome, BuildError>)
    requires ValidStep(cfg.stepMs)
    ensures p.dayStartOf(ds).None? ==> r == Err(BadDay(ds))
    ensures r.Err? ==> OwnError(ds, r.error)
    ensures r.Ok? && r.value.Kept? ==> r.value.daily.date == ds && |r.value.minutes| == SlotCount(cfg.stepMs)
  {
    var step := cfg.stepMs;
    var dayStart :- DayStart(ds, p);
    var hr :- MetricColumn(raw, ds + "_heart_rates.json", HrMin, HrMax, dayStart, step, p);
    var stress :- MetricColumn(raw, ds + "_stress.json", StressMin, StressMax, dayStart, step, p);
    var resp :- MetricColumn(raw, ds + "_respiration.json", RespMin, RespMax, dayStart, step, p);
    var bb := Align(bbSeries, dayStart, step);
    var totals :- Totals(raw, ds + "_user_summary.json");
    var window :- SleepWindowOf(raw, ds + "_sleep.json", p);
    Ok(FinishDay(ds, dayStart, cfg, hr, stress, resp, bb, totals.0, totals.1, SleepFlags(dayStart, step, window)))
  }

  method ProcessDay(raw: RawDir, bbSeries: seq<Pair>, ds: string, cfg: Config, p: Parsers)
    returns (r: Result<DayOutcome, BuildError>)
    requires ValidStep(cfg.stepMs)
    ensures r == AssembleDay(raw, bbSeries, ds, cfg, p)
  {
    var step := cfg.stepMs;
    var start := p.dayStartOf(ds);
    if start.None? {
      return Err(BadDay(ds));
    }
    var dayStart := start.value;
    var hr := LoadMetric(raw, ds + "_heart_rates.json", HrMin, HrMax, dayStart, step, p);
    if hr.Err? {
      return Err(hr.error);
    }
    var stress := LoadMetric(raw, ds + "_stress.json", StressMin, StressMax, dayStart, step, p);
    if stress.Err? {
      return Err(stress.error);
    }
    var resp := LoadMetric(raw, ds + "_respiration.json", RespMin, RespMax, dayStart, step, p);
    if resp.Err? {
      return Err(resp.error);
    }
    var bb := Align(bbSeries, dayStart, step);
    var totals := LoadTotals(raw, ds + "_user_summary.json");
    if totals.Err? {
      return Err(totals.error);
    }
    var window := SleepWindowOf(raw, ds + "_sleep.json", p);
    if window.Err? {
      return Err(window.error);
    }
    var flags := MarkSleep(dayStart, step, window.value);
    r := Ok(FinishDay(ds, dayStart, cfg, hr.value, stress.value, resp.value, bb,
                      totals.value.0, totals.value.1, flags));
  }

  // ---- properties of one day ----

  /** A day is dropped exactly when --drop-empty-days is set and none of hr,
      stress, resp and bb holds a value before any filling. */
  lemma DroppedIff(ds: string, dayStart: int, cfg: Config, hr: Column, stress: Column, resp: Column,
                   bb: Column, steps: Option<real>, kcal: Option<real>, flags: seq<int>)
    requires ValidStep(cfg.stepMs)
    requires |hr| == |stress| == |resp| == |bb| == |flags| == SlotCount(cfg.stepMs)
    ensures FinishDay(ds, dayStart, cfg, hr, stress, resp, bb, steps, kcal, flags).Dropped?
        <==> cfg.dropEmptyDays && AllMissing(hr) && AllMissing(stress) && AllMissing(resp) && AllMissing(bb)
  {
  }

  /** A kept day has one row per slot at the slot's instant; only the
      body-battery column is filled, by the configured policy, the other
      metrics are as aligned, and the body-battery column keeps every
      observed slot. */
  lemma KeptRows(ds: string, dayStart: int, cfg: Config, hr: Column, stress: Column, resp: Column,
                 bb: Column, steps: Option<real>, kcal: Option<real>, flags: seq<int>)
    requires ValidStep(cfg.stepMs)
    requires |hr| == |stress| == |resp| == |bb| == |flags| == SlotCount(cfg.stepMs)
    ensures var out := FinishDay(ds, dayStart, cfg, hr, stress, resp, bb, steps, kcal, flags);
            out.Kept? ==>
              |out.minutes| == SlotCount(cfg.stepMs) &&
              forall k :: 0 <= k < |out.minutes| ==>
                out.minutes[k].timestamp == dayStart + k * cfg.stepMs &&
                out.minutes[k].hr == hr[k] && out.minutes[k].stress == stress[k] &&
                out.minutes[k].resp == resp[k] &&
                out.minutes[k].bb == Fill(cfg.fill, bb)[k] &&
                (bb[k].Some? ==> out.minutes[k].bb == bb[k]) &&
                out.minutes[k].steps == steps && out.minutes[k].kcal == kcal &&
                out.minutes[k].sleepFlag == flags[k]
  {
    var out := FinishDay(ds, dayStart, cfg, hr, stress, resp, bb, steps, kcal, flags);
    if out.Kept? {
      var filled := Fill(cfg.fill, bb);
      var rows := MinuteRows(dayStart, cfg.stepMs, hr, stress, resp, filled, steps, kcal, flags);
      assert out.minutes == rows by {
        FinishDayMinutes(ds, dayStart, cfg, hr, stress, resp, bb, steps, kcal, flags);
      }
      forall k | 0 <= k < |out.minutes|
        ensures out.minutes[k].timestamp == dayStart + k * cfg.stepMs &&
                out.minutes[k].hr == hr[k] && out.minutes[k].stress == stress[k] &&
                out.minutes[k].resp == resp[k] &&
                out.minutes[k].bb == filled[k] &&
                (bb[k].Some? ==> out.minutes[k].bb == bb[k]) &&
                out.minutes[k].steps == steps && out.minutes[k].kcal == kcal &&
                out.minutes[k].sleepFlag == flags[k]
      {
        MinuteRowAt(dayStart, cfg.stepMs, hr, stress, resp, bb, filled, steps, kcal, flags, k);
      }
    }
  }

  lemma FinishDayMinutes(ds: string, dayStart: int, cfg: Config, hr: Column, stress: Column, resp: Column,
                         bb: Column, steps: Option<real>, kcal: Option<real>, flags: seq<int>)
    requires ValidStep(cfg.stepMs)
    requires |hr| == |stress| == |resp| == |bb| == |flags| == SlotCount(cfg.stepMs)
    ensures var out := FinishDay(ds, dayStart, cfg, hr, stress, resp, bb, steps, kcal, flags);
            out.Kept? ==> out.minutes == MinuteRows(dayStart, cfg.stepMs, hr, stress, resp, Fill(cfg.fill, bb), steps, kcal, flags)
  {
  }

  /** Slot k of the minute frame carries the k-th value of every column,
      with body battery taken from the filled column. */
  lemma MinuteRowAt(dayStart: int, step: int, hr: Column, stress: Column, resp: Column, bb: Column,
                    filled: Column, steps: Option<real>, kcal: Option<real>, flags: seq<int>, k: int)
    requires ValidStep(step)
    requires |hr| == |stress| == |resp| == |bb| == |filled| == |flags| == SlotCount(step)
    requires 0 <= k < SlotCount(step) && (bb[k].Some? ==> filled[k] == bb[k])
    ensures var row := MinuteRows(dayStart, step, hr, stress, resp, filled, steps, kcal, flags)[k];
            row.timestamp == dayStart + k * step &&
            row.hr == hr[k] && row.stress == stress[k] && row.resp == resp[k] &&
            row.bb == filled[k] && (bb[k].Some? ==> row.bb == bb[k]) &&
            row.steps == steps && row.kcal == kcal && row.sleepFlag == flags[k]
  {
  }

  /** The daily row of a kept day: its date, coverages k/N within [0, 1]
      (body battery measured after filling), means over the observed slots
      that are None exactly for an all-missing column, the last
      observed body-battery value whatever the fill policy, and a sleep flag
      that is 1 exactly when some slot is flagged. */
  lemma DailySummary(ds: string, dayStart: int, cfg: Config, hr: Column, stress: Column, resp: Column,
                     bb: Column, steps: Option<real>, kcal: Option<real>, window: Option<Window>)
    requires ValidStep(cfg.stepMs)
    requires |hr| == |stress| == |resp| == |bb| == SlotCount(cfg.stepMs)
    ensures var flags := SleepFlags(dayStart, cfg.stepMs, window);
            var out := FinishDay(ds, dayStart, cfg, hr, stress, resp, bb, steps, kcal, flags);
            out.Kept? ==>
              var d := out.daily;
              d.date == ds && d.steps == steps && d.kcal == kcal &&
              d.coverageHr == Coverage(hr) && 0.0 <= d.coverageHr <= 1.0 &&
              d.coverageStress == Coverage(stress) && 0.0 <= d.coverageStress <= 1.0 &&
              d.coverageResp == Coverage(resp) && 0.0 <= d.coverageResp <= 1.0 &&
              0.0 <= d.coverageBb <= 1.0 &&
              d.coverageBb == Coverage(Fill(cfg.fill, bb)) &&
              d.hr == MeanKnown(hr) && (d.hr.None? <==> AllMissing(hr)) &&
              d.stress == MeanKnown(stress) && (d.stress.None? <==> AllMissing(stress)) &&
              d.resp == MeanKnown(resp) && (d.resp.None? <==> AllMissing(resp)) &&
              d.bb == LastKnown(bb) &&
              (d.sleepFlag == 1 <==> exists k :: 0 <= k < |flags| && flags[k] == 1) &&
              (d.sleepFlag == 0 <==> forall k :: 0 <= k < |flags| ==> flags[k] == 0)
  {
    var flags := SleepFlags(dayStart, cfg.stepMs, window);
    var out := FinishDay(ds, dayStart, cfg, hr, stress, resp, bb, steps, kcal, flags);
    if out.Kept? {
      var filled := Fill(cfg.fill, bb);
      CoverageBounds(hr);
      CoverageBounds(stress);
      CoverageBounds(resp);
      CoverageBounds(filled);
      FillKeepsLastKnown(cfg.fill, bb);
    }
  }

  /** Under ffill_bfill or interpolate a kept day with any body-battery
      observation has full body-battery coverage. */
  lemma FullBodyBatteryCoverage(ds: string, dayStart: int, cfg: Config, hr: Column, stress: Column,
                                resp: Column, bb: Column, steps: Option<real>, kcal: Option<real>, flags: seq<int>)
    requires ValidStep(cfg.stepMs)
    requires |hr| == |stress| == |resp| == |bb| == |flags| == SlotCount(cfg.stepMs)
    requires cfg.fill == ForwardBackFill || cfg.fill == Interpolate
    requires !AllMissing(bb)
    ensures FinishDay(ds, dayStart, cfg, hr, stress, resp, bb, steps, kcal, flags).Kept?
    ensures FinishDay(ds, dayStart, cfg, hr, stress, resp, bb, steps, kcal, flags).daily.coverageBb == 1.0
  {
    FillComplete(cfg.fill, bb);
    CoverageBounds(Fill(cfg.fill, bb));
  }

  /** Every metric the daily row reports lies in the range collect_pairs
      enforced for it. */
  lemma DailyMeansInRange(raw: RawDir, bbSeries: seq<Pair>, ds: string, cfg: Config, p: Parsers)
    requires ValidStep(cfg.stepMs)
    requires AllInRange(bbSeries, BbMin, BbMax)
    ensures var r := AssembleDay(raw, bbSeries, ds, cfg, p);
            r.Ok? && r.value.Kept? ==>
              var d := r.value.daily;
              (d.hr.Some? ==> HrMin <= d.hr.value <= HrMax) &&
              (d.stress.Some? ==> StressMin <= d.stress.value <= StressMax) &&
              (d.resp.Some? ==> RespMin <= d.resp.value <= RespMax) &&
              (d.bb.Some? ==> BbMin <= d.bb.value <= BbMax)
  {
    var r := AssembleDay(raw, bbSeries, ds, cfg, p);
    if r.Ok? && r.value.Kept? {
      var dayStart := DayStart(ds, p).value;
      var step := cfg.stepMs;
      var hr := MetricColumn(raw, ds + "_heart_rates.json", HrMin, HrMax, dayStart, step, p).value;
      var stress := MetricColumn(raw, ds + "_stress.json", StressMin, StressMax, dayStart, step, p).value;
      var resp := MetricColumn(raw, ds + "_respiration.json", RespMin, RespMax, dayStart, step, p).value;
      var bb := Align(bbSeries, dayStart, step);
      MeanKnownInRange(hr, HrMin, HrMax);
      MeanKnownInRange(stress, StressMin, StressMax);
      MeanKnownInRange(resp, RespMin, RespMax);
      AlignKeepsRange(bbSeries, dayStart, step, BbMin, BbMax);
      FillKeepsLastKnown(cfg.fill, bb);
      LastKnownInRange(bb, BbMin, BbMax);
    }
  }

  lemma LastKnownInRange(col: Column, lo: real, hi: real)
    requires ColumnInRange(col, lo, hi)
    ensures LastKnown(col).Some? ==> lo <= LastKnown(col).value <= hi
  {
  }

  // ---- the whole run ----

  function Concat(frames: seq<seq<MinuteRow>>): (rows: seq<MinuteRow>) {
    if |frames| == 0 then [] else Concat(frames[..|frames| - 1]) + frames[|frames| - 1]
  }

  /** The outcome of the day body for each day, in order. */
  function DayOutcomes(raw: RawDir, bbSeries: seq<Pair>, days: seq<string>, cfg: Config, p: Parsers)
    : (outs: seq<Result<DayOutcome, BuildError>>)
    requires ValidStep(cfg.stepMs)
    ensures |outs| == |days|
  {
    seq(|days|, i requires 0 <= i < |days| => AssembleDay(raw, bbSeries, days[i], cfg, p))
  }

  /** minute_frames and daily_rows after running the day body on the days
      in order: a kept day appends its frame and its row, a dropped day
      nothing, and the first failure ends the run. */
  function Collect(outs: seq<Result<DayOutcome, BuildError>>)
    : (r: Result<(seq<seq<MinuteRow>>, seq<DailyRow>), BuildError>)
    ensures r.Ok? ==> |r.value.0| == |r.value.1| <= |outs|
  {
    if |outs| == 0 then Ok(([], []))
    else Absorb(Collect(outs[..|outs| - 1]), outs[|outs| - 1])
  }

  /** One step of the day loop on the tables built so far. */
  function Absorb(acc: Result<(seq<seq<MinuteRow>>, seq<DailyRow>), BuildError>,
                  out: Result<DayOutcome, BuildError>)
    : (r: Result<(seq<seq<MinuteRow>>, seq<DailyRow>), BuildError>)
    ensures acc.Err? ==> r == acc
    ensures acc.Ok? && out.Err? ==> r == Err(out.error)
    ensures r.Ok? ==> acc.Ok? && out.Ok? &&
                      r.value.1 == acc.value.1 + (if out.value.Kept? then [out.value.daily] else [])
  {
    if acc.Err? then acc
    else if out.Err? then Err(out.error)
    else if out.value.Dropped? then acc
    else Ok((acc.value.0 + [out.value.minutes], acc.value.1 + [out.value.daily]))
  }

  /** The tables after the day loop, or why there are none. */
  function RunDays(raw: RawDir, bbSeries: seq<Pair>, days: seq<string>, cfg: Config, p: Parsers)
    : (r: Result<Dataset, BuildError>)
    requires ValidStep(cfg.stepMs)
    ensures r.Ok? ==> 1 <= |r.value.daily| <= |days|
  {
    match Collect(DayOutcomes(raw, bbSeries, days, cfg, p))
    case Err(e) => Err(e)
    case Ok(acc) => if |acc.0| == 0 then Err(NoMinuteData) else Ok(Dataset(Concat(acc.0), acc.1))
  }

  /** The whole of main: no day found, the first failure of a day, no day
      kept, or the two tables. */
  function BuildSpec(raw: RawDir, cfg: Config, p: Parsers): (r: Result<Dataset, BuildError>)
    requires ValidStep(cfg.stepMs)
    ensures DayNames(raw.Keys) == {} ==> r == Err(NoDays)
    ensures r.Ok? ==> 1 <= |r.value.daily| <= |DayNames(raw.Keys)|
  {
    var days := SortedSeq(DayNames(raw.Keys));
    if |days| == 0 then Err(NoDays) else RunDays(raw, BodyBatterySeries(raw, p), days, cfg, p)
  }

  /** One more day on a prefix of the outcomes extends what the prefix
      collected. */
  lemma CollectStep(outs: seq<Result<DayOutcome, BuildError>>, i: nat)
    requires i < |outs|
    ensures Collect(outs[..i + 1]) == Absorb(Collect(outs[..i]), outs[i])
  {
    assert outs[..i + 1][..i] == outs[..i];
  }

  /** A day read without failure appends its frame and row when kept and
      nothing when dropped. */
  lemma KeepStep(outs: seq<Result<DayOutcome, BuildError>>, i: nat,
                 frames: seq<seq<MinuteRow>>, rows: seq<DailyRow>)
    requires i < |outs| && outs[i].Ok? && Collect(outs[..i]) == Ok((frames, rows))
    ensures Collect(outs[..i + 1]) ==
            if outs[i].value.Kept? then Ok((frames + [outs[i].value.minutes], rows + [outs[i].value.daily]))
            else Ok((frames, rows))
  {
    CollectStep(outs, i);
  }

  lemma {:induction false} ErrorStops(outs: seq<Result<DayOutcome, BuildError>>, k: nat)
    requires k <= |outs| && Collect(outs[..k]).Err?
    ensures Collect(outs) == Collect(outs[..k])
  {
    if k < |outs| {
      var init := outs[..|outs| - 1];
      assert init[..k] == outs[..k];
      ErrorStops(init, k);
    } else {
      assert outs[..k] == outs;
    }
  }

  /** main: discover the days, fail when there are none, load the global
      body-battery series, then run the day loop. */
  method BuildDataset(raw: RawDir, cfg: Config, p: Parsers) returns (r: Result<Dataset, BuildError>)
    requires ValidStep(cfg.stepMs)
    ensures r == BuildSpec(raw, cfg, p)
  {
    var days := DiscoverDays(raw.Keys);
    if |days| == 0 {
      return Err(NoDays);
    }
    var bbGlobal := LoadBodyBatterySeries(raw, p);
    r := DayLoop(raw, bbGlobal, days, cfg, p);
  }

  /** The day loop of main: run the day body over the days in order,
      appending each kept day's frame and row, and fail when no frame was
      produced. */
  method DayLoop(raw: RawDir, bbGlobal: seq<Pair>, days: seq<string>, cfg: Config, p: Parsers)
    returns (r: Result<Dataset, BuildError>)
    requires ValidStep(cfg.stepMs)
    ensures r == RunDays(raw, bbGlobal, days, cfg, p)
  {
    ghost var outs := DayOutcomes(raw, bbGlobal, days, cfg, p);
    var minuteFrames: seq<seq<MinuteRow>> := [];
    var dailyRows: seq<DailyRow> := [];
    var i := 0;
    while i < |days|
      invariant 0 <= i <= |days|
      invariant Collect(outs[..i]) == Ok((minuteFrames, dailyRows))
    {
      var out := ProcessDay(raw, bbGlobal, days[i], cfg, p);
      assert out == outs[i];
      if out.Err? {
        CollectStep(outs, i);
        ErrorStops(outs, i + 1);
        return Err(out.error);
      }
      KeepStep(outs, i, minuteFrames, dailyRows);
      if out.value.Kept? {
        minuteFrames := minuteFrames + [out.value.minutes];
        dailyRows := dailyRows + [out.value.daily];
      }
      i := i + 1;
    }
    assert outs[..i] == outs;
    if |minuteFrames| == 0 {
      return Err(NoMinuteData);
    }
    r := Ok(Dataset(Concat(minuteFrames), dailyRows));
  }

  // ---- properties of the run ----

  /** A day that was read without failure and kept. */
  predicate IsKept(out: Result<DayOutcome, BuildError>) {
    out.Ok? && out.value.Kept?
  }

  /** The minute frames of the kept days, in day order. */
  function KeptFrames(outs: seq<Result<DayOutcome, BuildError>>): seq<seq<MinuteRow>> {
    if |outs| == 0 then []
    else KeptFrames(outs[..|outs| - 1]) +
         (if IsKept(outs[|outs| - 1]) then [outs[|outs| - 1].value.minutes] else [])
  }

  /** The daily rows of the kept days, in day order. */
  function KeptDailies(outs: seq<Result<DayOutcome, BuildError>>): seq<DailyRow> {
    if |outs| == 0 then []
    else KeptDailies(outs[..|outs| - 1]) +
         (if IsKept(outs[|outs| - 1]) then [outs[|outs| - 1].value.daily] else [])
  }

  /** The days whose outcome is kept, in day order. */
  function KeptDays(days: seq<string>, outs: seq<Result<DayOutcome, BuildError>>): seq<string>
    requires |days| == |outs|
  {
    if |outs| == 0 then []
    else KeptDays(days[..|days| - 1], outs[..|outs| - 1]) +
         (if IsKept(outs[|outs| - 1]) then [days[|days| - 1]] else [])
  }

  /** The date column of the daily table. */
  function Dates(rows: seq<DailyRow>): seq<string> {
    if |rows| == 0 then [] else Dates(rows[..|rows| - 1]) + [rows[|rows| - 1].date]
  }

  lemma {:induction false} DatesAppend(rows: seq<DailyRow>, more: seq<DailyRow>)
    requires |more| <= 1
    ensures Dates(rows + more) == Dates(rows) + (if |more| == 0 then [] else [more[0].date])
  {
    if |more| == 0 {
      assert rows + more == rows;
    } else {
      assert (rows + more)[..|rows|] == rows;
    }
  }

  /** When each kept outcome carries its own day's date, the dates of the
      kept rows are the kept days. */
  lemma {:induction false} KeptDatesAreKeptDays(days: seq<string>, outs: seq<Result<DayOutcome, BuildError>>)
    requires |days| == |outs|
    requires forall i :: 0 <= i < |outs| && IsKept(outs[i]) ==> outs[i].value.daily.date == days[i]
    ensures Dates(KeptDailies(outs)) == KeptDays(days, outs)
  {
    if |outs| > 0 {
      var n := |outs| - 1;
      KeptDatesAreKeptDays(days[..n], outs[..n]);
      var last := if IsKept(outs[n]) then [outs[n].value.daily] else [];
      DatesAppend(KeptDailies(outs[..n]), last);
    }
  }

  /** The kept days of a strictly ascending day list are strictly ascending
      and are among the days. */
  lemma {:induction false} KeptDaysAscending(days: seq<string>, outs: seq<Result<DayOutcome, BuildError>>)
    requires |days| == |outs| && StrictlySorted(days)
    ensures StrictlySorted(KeptDays(days, outs))
    ensures forall d :: d in KeptDays(days, outs) ==> d in days
  {
    if |outs| > 0 {
      var n := |outs| - 1;
      var init := days[..n];
      assert StrictlySorted(init) by {
        forall i, j | 0 <= i < j < |init| ensures StrLt(init[i], init[j]) {
          assert init[i] == days[i] && init[j] == days[j];
        }
      }
      KeptDaysAscending(init, outs[..n]);
      var ks := KeptDays(init, outs[..n]);
      forall d | d in ks ensures StrLt(d, days[n]) {
        var i :| 0 <= i < |init| && init[i] == d;
        assert days[i] == d;
      }
    }
  }

  /** The run succeeds exactly when every day does; then it holds the
      frames and the daily rows of the kept days, one each, in day order,
      nothing for a dropped day, and each frame and row comes from one kept
      day. */
  lemma {:induction false} CollectShape(outs: seq<Result<DayOutcome, BuildError>>)
    ensures Collect(outs).Ok? <==> forall i :: 0 <= i < |outs| ==> outs[i].Ok?
    ensures Collect(outs).Ok? ==> Collect(outs).value == (KeptFrames(outs), KeptDailies(outs))
    ensures var r := Collect(outs);
            r.Ok? ==>
              |r.value.0| == |r.value.1| &&
              (|r.value.1| == 0 <==> forall i :: 0 <= i < |outs| ==> outs[i].value.Dropped?) &&
              forall j :: 0 <= j < |r.value.1| ==>
                exists i :: 0 <= i < |outs| && outs[i] == Ok(Kept(r.value.0[j], r.value.1[j]))
  {
    if |outs| > 0 {
      var init := outs[..|outs| - 1];
      CollectShape(init);
      assert forall i :: 0 <= i < |init| ==> init[i] == outs[i];
      var r := Collect(outs);
      if r.Ok? && outs[|outs| - 1].value.Kept? {
        var n := |r.value.1|;
        assert outs[|outs| - 1] == Ok(Kept(r.value.0[n - 1], r.value.1[n - 1]));
      }
    }
    CollectIsKept(outs);
  }

  /** The loop's tables are the kept days' frames and rows, in day order. */
  lemma {:induction false} CollectIsKept(outs: seq<Result<DayOutcome, BuildError>>)
    ensures Collect(outs).Ok? ==> Collect(outs).value == (KeptFrames(outs), KeptDailies(outs))
  {
    if |outs| > 0 {
      var init := outs[..|outs| - 1];
      var last := outs[|outs| - 1];
      CollectIsKept(init);
      if Collect(outs).Ok? && last.value.Dropped? {
        assert KeptFrames(init) + [] == KeptFrames(init);
        assert KeptDailies(init) + [] == KeptDailies(init);
      }
    }
  }

  /** What any single day can produce: its errors are about reading its
      own inputs, and a kept day has N minute rows and its own date. */
  lemma DayFacts(raw: RawDir, bbSeries: seq<Pair>, ds: string, cfg: Config, p: Parsers)
    requires ValidStep(cfg.stepMs)
    ensures var out := AssembleDay(raw, bbSeries, ds, cfg, p);
            (out.Err? ==> out.error != NoMinuteData && out.error != NoDays) &&
            (out.Ok? && out.value.Kept? ==>
               out.value.daily.date == ds && |out.value.minutes| == SlotCount(cfg.stepMs))
  {
  }

  lemma DayOutcomesFacts(raw: RawDir, bbSeries: seq<Pair>, days: seq<string>, cfg: Config, p: Parsers)
    requires ValidStep(cfg.stepMs)
    ensures var outs := DayOutcomes(raw, bbSeries, days, cfg, p);
            forall i :: 0 <= i < |outs| ==>
              (outs[i].Err? ==> outs[i].error != NoMinuteData && outs[i].error != NoDays) &&
              (outs[i].Ok? && outs[i].value.Kept? ==>
                 outs[i].value.daily.date == days[i] && |outs[i].value.minutes| == SlotCount(cfg.stepMs))
  {
    var outs := DayOutcomes(raw, bbSeries, days, cfg, p);
    forall i | 0 <= i < |outs|
      ensures (outs[i].Err? ==> outs[i].error != NoMinuteData && outs[i].error != NoDays) &&
              (outs[i].Ok? && outs[i].value.Kept? ==>
                 outs[i].value.daily.date == days[i] && |outs[i].value.minutes| == SlotCount(cfg.stepMs))
    {
      DayFacts(raw, bbSeries, days[i], cfg, p);
    }
  }

  lemma {:induction false} ConcatLength(frames: seq<seq<MinuteRow>>, n: nat)
    requires forall j :: 0 <= j < |frames| ==> |frames[j]| == n
    ensures |Concat(frames)| == n * |frames|
  {
    if |frames| > 0 {
      ConcatLength(frames[..|frames| - 1], n);
    }
  }

  /** The day loop ends with NoMinuteData exactly when every day was read
      without failure and dropped; when it succeeds there is at least one
      daily row, each dated with one of the days, and N minute rows per
      daily row. */
  lemma RunDaysOutcome(raw: RawDir, bbSeries: seq<Pair>, days: seq<string>, cfg: Config, p: Parsers)
    requires ValidStep(cfg.stepMs)
    ensures var outs := DayOutcomes(raw, bbSeries, days, cfg, p);
            RunDays(raw, bbSeries, days, cfg, p) == Err(NoMinuteData) <==>
              forall i :: 0 <= i < |outs| ==> outs[i] == Ok(Dropped)
    ensures var r := RunDays(raw, bbSeries, days, cfg, p);
            r.Ok? ==> |r.value.daily| >= 1 &&
                      |r.value.minutes| == SlotCount(cfg.stepMs) * |r.value.daily| &&
                      forall j :: 0 <= j < |r.value.daily| ==> r.value.daily[j].date in days
    ensures RunDays(raw, bbSeries, days, cfg, p) != Err(NoDays)
  {
    var outs := DayOutcomes(raw, bbSeries, days, cfg, p);
    DayOutcomesFacts(raw, bbSeries, days, cfg, p);
    CollectShape(outs);
    if Collect(outs).Ok? {
      RunDaysTables(raw, bbSeries, days, cfg, p);
    } else {
      var i :| 0 <= i < |outs| && outs[i].Err?;
      CollectErrorIsADayError(outs);
    }
  }

  /** A successful day loop holds exactly the daily rows of the kept days
      and their minute frames laid end to end, in day order, so the date
      column of the daily table is the kept days. */
  lemma RunDaysRows(raw: RawDir, bbSeries: seq<Pair>, days: seq<string>, cfg: Config, p: Parsers)
    requires ValidStep(cfg.stepMs)
    ensures var outs := DayOutcomes(raw, bbSeries, days, cfg, p);
            var r := RunDays(raw, bbSeries, days, cfg, p);
            r.Ok? ==> r.value.daily == KeptDailies(outs) &&
                      r.value.minutes == Concat(KeptFrames(outs)) &&
                      Dates(r.value.daily) == KeptDays(days, outs)
  {
    var outs := DayOutcomes(raw, bbSeries, days, cfg, p);
    CollectShape(outs);
    DayOutcomesFacts(raw, bbSeries, days, cfg, p);
    KeptDatesAreKeptDays(days, outs);
  }

  /** The tables of a run with kept days: one block of slots per kept day. */
  lemma RunDaysTables(raw: RawDir, bbSeries: seq<Pair>, days: seq<string>, cfg: Config, p: Parsers)
    requires ValidStep(cfg.stepMs)
    requires Collect(DayOutcomes(raw, bbSeries, days, cfg, p)).Ok?
    ensures var c := Collect(DayOutcomes(raw, bbSeries, days, cfg, p));
            |c.value.0| == |c.value.1| &&
            |Concat(c.value.0)| == SlotCount(cfg.stepMs) * |c.value.1| &&
            forall j :: 0 <= j < |c.value.1| ==> c.value.1[j].date in days
  {
    var outs := DayOutcomes(raw, bbSeries, days, cfg, p);
    DayOutcomesFacts(raw, bbSeries, days, cfg, p);
    CollectShape(outs);
    var c := Collect(outs);
    forall j | 0 <= j < |c.value.1|
      ensures |c.value.0[j]| == SlotCount(cfg.stepMs) && c.value.1[j].date in days
    {
      var i :| 0 <= i < |outs| && outs[i] == Ok(Kept(c.value.0[j], c.value.1[j]));
    }
    ConcatLength(c.value.0, SlotCount(cfg.stepMs));
  }

  lemma {:induction false} CollectErrorIsADayError(outs: seq<Result<DayOutcome, BuildError>>)
    requires Collect(outs).Err?
    ensures exists i :: 0 <= i < |outs| && outs[i] == Err(Collect(outs).error)
  {
    var init := outs[..|outs| - 1];
    if Collect(init).Err? {
      CollectErrorIsADayError(init);
      var i :| 0 <= i < |init| && init[i] == Err(Collect(init).error);
      assert outs[i] == init[i];
    } else {
      assert outs[|outs| - 1] == Err(Collect(outs).error);
    }
  }

  /** main stops with NoDays exactly when no file name yields a day. */
  lemma BuildNoDaysIff(raw: RawDir, cfg: Config, p: Parsers)
    requires ValidStep(cfg.stepMs)
    ensures BuildSpec(raw, cfg, p) == Err(NoDays) <==> DayNames(raw.Keys) == {}
  {
    var days := SortedSeq(DayNames(raw.Keys));
    var bb := BodyBatterySeries(raw, p);
    BuildSpecUnfold(raw, cfg, p);
    RunDaysOutcome(raw, bb, days, cfg, p);
    if DayNames(raw.Keys) != {} {
      var d :| d in DayNames(raw.Keys);
      assert d in days;
    }
  }

  /** main stops with NoMinuteData exactly when days were found and every
      one of them was read without failure and dropped. */
  lemma BuildNoMinuteDataIff(raw: RawDir, cfg: Config, p: Parsers)
    requires ValidStep(cfg.stepMs)
    ensures var outs := DayOutcomes(raw, BodyBatterySeries(raw, p), SortedSeq(DayNames(raw.Keys)), cfg, p);
            BuildSpec(raw, cfg, p) == Err(NoMinuteData) <==>
              (|outs| > 0 && forall i :: 0 <= i < |outs| ==> outs[i] == Ok(Dropped))
  {
    var days := SortedSeq(DayNames(raw.Keys));
    var bb := BodyBatterySeries(raw, p);
    BuildSpecUnfold(raw, cfg, p);
    RunDaysOutcome(raw, bb, days, cfg, p);
  }

  /** A successful run has at least one daily row, each dated with a
      discovered day, and N minute rows per daily row; its dates are
      exactly the kept days, strictly ascending, one row each. */
  lemma BuildTables(raw: RawDir, cfg: Config, p: Parsers)
    requires ValidStep(cfg.stepMs)
    ensures var r := BuildSpec(raw, cfg, p);
            r.Ok? ==> |r.value.daily| >= 1 &&
                      |r.value.minutes| == SlotCount(cfg.stepMs) * |r.value.daily| &&
                      forall j :: 0 <= j < |r.value.daily| ==> r.value.daily[j].date in DayNames(raw.Keys)
    ensures var days := SortedSeq(DayNames(raw.Keys));
            var r := BuildSpec(raw, cfg, p);
            r.Ok? ==> Dates(r.value.daily) == KeptDays(days, DayOutcomes(raw, BodyBatterySeries(raw, p), days, cfg, p)) &&
                      StrictlySorted(Dates(r.value.daily))
  {
    var days := SortedSeq(DayNames(raw.Keys));
    var bb := BodyBatterySeries(raw, p);
    BuildSpecUnfold(raw, cfg, p);
    RunDaysOutcome(raw, bb, days, cfg, p);
    RunDaysRows(raw, bb, days, cfg, p);
    KeptDaysAscending(days, DayOutcomes(raw, bb, days, cfg, p));
    var r := BuildSpec(raw, cfg, p);
    if r.Ok? {
      forall j | 0 <= j < |r.value.daily| ensures r.value.daily[j].date in DayNames(raw.Keys) {
        assert r.value.daily[j].date in days;
      }
    }
  }

  lemma BuildSpecUnfold(raw: RawDir, cfg: Config, p: Parsers)
    requires ValidStep(cfg.stepMs)
    ensures var days := SortedSeq(DayNames(raw.Keys));
            BuildSpec(raw, cfg, p)
              == if |days| == 0 then Err(NoDays) else RunDays(raw, BodyBatterySeries(raw, p), days, cfg, p)
  {
  }
}
