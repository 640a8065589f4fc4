// scripts/update_recent.py: the last date already present (processed table
// first, then raw file names), the end date, the start date after it, the
// split of [start, end] into chunks of at most chunk_days days, and the
// commands that main launches. Dates are day numbers: adding
// timedelta(days=1) adds 1.

module UpdateRecent {
  import opened JsonValue
  import opened Names

  type Day = int

  /** One extract_raw.py run over the inclusive range [first, last]. */
  datatype Chunk = Chunk(first: Day, last: Day)

  /** What main launches, in order: extraction runs, then the rebuild. */
  datatype Command = Download(range: Chunk) | Rebuild

  datatype PlanError = BadEndDate(text: string)

  /** max(1, chunk_days): zero or negative sizes behave like 1. */
  function ChunkSize(chunkDays: int): (n: int)
    ensures n >= 1
    ensures chunkDays >= 1 ==> n == chunkDays
    ensures chunkDays < 1 ==> n == 1
  {
    if chunkDays < 1 then 1 else chunkDays
  }

  function Min(a: int, b: int): int {
    if a <= b then a else b
  }

  /** The chunks that the loop of download_chunks emits from `current` on,
      with chunk size `size`. */
  function Chunks(current: Day, end: Day, size: int): (cs: seq<Chunk>)
    requires size >= 1
    ensures |cs| == 0 <==> current > end
    decreases end - current
  {
    if current > end then []
    else
      var chunkEnd := Min(end, current + size - 1);
      [Chunk(current, chunkEnd)] + Chunks(chunkEnd + 1, end, size)
  }

  /** download_chunks: walk from start to end, emitting [current,
      min(end, current + chunk - 1)] and moving past it. */
  method DownloadChunks(start: Day, end: Day, chunkDays: int) returns (log: seq<Chunk>)
    ensures log == Chunks(start, end, ChunkSize(chunkDays))
  {
    var chunk := if chunkDays < 1 then 1 else chunkDays;
    var current := start;
    log := [];
    while current <= end
      invariant start <= current <= end + 1 || (current == start && start > end)
      invariant log + Chunks(current, end, chunk) == Chunks(start, end, chunk)
      decreases end - current
    {
      var chunkEnd := Min(end, current + chunk - 1);
      log := log + [Chunk(current, chunkEnd)];
      current := chunkEnd + 1;
    }
  }

  /** Every chunk lies inside [start, end], is non-empty, and is at most
      `size` days long; every chunk but the last is exactly `size` days. */
  predicate ChunksWithin(cs: seq<Chunk>, start: Day, end: Day, size: int) {
    forall i :: 0 <= i < |cs| ==>
      start <= cs[i].first <= cs[i].last <= end &&
      cs[i].last - cs[i].first + 1 <= size &&
      (i < |cs| - 1 ==> cs[i].last - cs[i].first + 1 == size)
  }

  lemma {:induction false} ChunkBounds(start: Day, end: Day, size: int)
    requires size >= 1
    ensures ChunksWithin(Chunks(start, end, size), start, end, size)
    decreases end - start
  {
    if start <= end {
      var next := Min(end, start + size - 1) + 1;
      ChunkBounds(next, end, size);
      var cs := Chunks(start, end, size);
      var rest := Chunks(next, end, size);
      assert cs == [Chunk(start, next - 1)] + rest;
      forall i | 0 <= i < |cs|
        ensures start <= cs[i].first <= cs[i].last <= end && cs[i].last - cs[i].first + 1 <= size
        ensures i < |cs| - 1 ==> cs[i].last - cs[i].first + 1 == size
      {
        if i > 0 {
          assert cs[i] == rest[i - 1];
          assert next <= rest[i - 1].first;
        } else if |cs| > 1 {
          assert rest[0].first <= end;
          assert next - 1 == start + size - 1;
        }
      }
    }
  }

  /** The chunks are consecutive: the first starts at `start`, each later
      one the day after its predecessor ends, and the last ends at `end`;
      there are none when start > end. */
  lemma {:induction false} ChunksContiguous(start: Day, end: Day, size: int)
    requires size >= 1
    ensures var cs := Chunks(start, end, size);
            (|cs| == 0 <==> start > end) &&
            (|cs| > 0 ==> cs[0].first == start && cs[|cs| - 1].last == end) &&
            forall i :: 0 < i < |cs| ==> cs[i].first == cs[i - 1].last + 1
    decreases end - start
  {
    if start <= end {
      var next := Min(end, start + size - 1) + 1;
      ChunksContiguous(next, end, size);
      var cs := Chunks(start, end, size);
      var rest := Chunks(next, end, size);
      assert cs == [Chunk(start, next - 1)] + rest;
      forall i | 0 < i < |cs| ensures cs[i].first == cs[i - 1].last + 1 {
        if i > 1 {
          assert cs[i] == rest[i - 1] && cs[i - 1] == rest[i - 2];
        }
      }
    }
  }

  predicate Covers(cs: seq<Chunk>, d: Day) {
    exists i :: 0 <= i < |cs| && cs[i].first <= d <= cs[i].last
  }

  /** The chunks cover exactly the days of [start, end], and no two of them
      share a day. */
  lemma ChunksPartition(start: Day, end: Day, size: int, d: Day)
    requires size >= 1
    ensures Covers(Chunks(start, end, size), d) <==> start <= d <= end
    ensures var cs := Chunks(start, end, size);
            forall i, j :: 0 <= i < j < |cs| ==> cs[i].last < cs[j].first
  {
    ChunkBounds(start, end, size);
    ChunksContiguous(start, end, size);
    var cs := Chunks(start, end, size);
    ChunksOrdered(cs);
    if start <= d <= end {
      CoveredDay(cs, start, end, d);
    }
  }

  lemma {:induction false} ChunksOrdered(cs: seq<Chunk>)
    requires forall i :: 0 <= i < |cs| ==> cs[i].first <= cs[i].last
    requires forall i :: 0 < i < |cs| ==> cs[i].first == cs[i - 1].last + 1
    ensures forall i, j :: 0 <= i < j < |cs| ==> cs[i].last < cs[j].first
    decreases |cs|
  {
    if |cs| > 1 {
      var init := cs[..|cs| - 1];
      ChunksOrdered(init);
      forall i | 0 <= i < |cs| - 1 ensures cs[i].last < cs[|cs| - 1].first {
        assert init[i] == cs[i];
        if i < |cs| - 2 {
          assert init[i].last < init[|cs| - 2].first;
        }
      }
    }
  }

  lemma {:induction false} CoveredDay(cs: seq<Chunk>, start: Day, end: Day, d: Day)
    requires |cs| > 0 && cs[0].first == start && cs[|cs| - 1].last == end
    requires forall i :: 0 < i < |cs| ==> cs[i].first == cs[i - 1].last + 1
    requires start <= d <= end
    ensures Covers(cs, d)
    decreases |cs|
  {
    var n := |cs|;
    if d < cs[n - 1].first {
      var init := cs[..n - 1];
      assert n > 1;
      CoveredDay(init, start, init[n - 2].last, d);
      var i :| 0 <= i < |init| && init[i].first <= d <= init[i].last;
      assert cs[i] == init[i];
    } else {
      assert cs[n - 1].first <= d <= cs[n - 1].last;
    }
  }

  // ---- the dates ----

  /** The dates that last_date_from_raw collects: the text before the first
      '_' of each "????-??-??_*.json" name, when it parses as a date. */
  function RawDates(names: set<string>, parseDate: string -> Option<Day>): (r: set<Day>)
    ensures forall d :: d in r <==> exists n :: n in names && MatchesDayGlob(n) && parseDate(DayPrefix(n)) == Some(d)
  {
    set n | n in names && MatchesDayGlob(n) && parseDate(DayPrefix(n)).Some? :: parseDate(DayPrefix(n)).value
  }

  predicate IsMax(m: Day, s: set<Day>) {
    m in s && forall d :: d in s ==> d <= m
  }

  /** last_date_from_raw: collect the parseable date prefixes of the
      matching names (skipping the others) and return their maximum, or
      None when there is none. */
  method LastDateFromRaw(names: set<string>, parseDate: string -> Option<Day>) returns (r: Option<Day>)
    ensures r.None? <==> RawDates(names, parseDate) == {}
    ensures r.Some? ==> IsMax(r.value, RawDates(names, parseDate))
  {
    var dates: seq<Day> := [];
    var rest := names;
    while rest != {}
      invariant rest <= names
      invariant forall d :: d in dates <==> d in RawDates(names - rest, parseDate)
      decreases rest
    {
      var path :| path in rest;
      if MatchesDayGlob(path) {
        var name := DayPrefix(path);
        var parsed := parseDate(name);
        if parsed.Some? {
          dates := dates + [parsed.value];
        }
      }
      rest := rest - {path};
    }
    assert names - rest == names;
    if |dates| == 0 {
      r := None;
      assert forall d :: d !in RawDates(names, parseDate);
    } else {
      r := Some(MaxOf(dates));
      assert dates[0] in RawDates(names, parseDate);
    }
  }

  /** The largest element of a non-empty set of dates. */
  ghost function MaxOfSet(s: set<Day>): (m: Day)
    requires s != {}
    ensures IsMax(m, s)
  {
    MaxExists(s);
    var m :| IsMax(m, s); m
  }

  lemma NonEmptyHasMember(s: set<Day>)
    requires s != {}
    ensures exists d :: d in s
  {
    if forall d :: d !in s {
      assert false;
    }
  }

  lemma {:induction false} MaxExists(s: set<Day>)
    requires s != {}
    ensures exists m :: IsMax(m, s)
    decreases s
  {
    NonEmptyHasMember(s);
    var a :| a in s;
    if s - {a} == {} {
      assert s == {a};
      assert IsMax(a, s);
    } else {
      MaxExists(s - {a});
      var m :| IsMax(m, s - {a});
      var top := if a > m then a else m;
      forall d | d in s ensures d <= top {
        if d != a {
          assert d in s - {a};
        }
      }
      assert IsMax(top, s);
    }
  }

  ghost function LastRawDate(names: set<string>, parseDate: string -> Option<Day>): (r: Option<Day>)
    ensures r.None? <==> RawDates(names, parseDate) == {}
    ensures r.Some? ==> IsMax(r.value, RawDates(names, parseDate))
  {
    var ds := RawDates(names, parseDate);
    if ds == {} then None else Some(MaxOfSet(ds))
  }

  /** resolve_end_date: the day before today for "yesterday", the parsed
      date otherwise; an unparseable date stops the script. */
  function EndDate(endArg: string, today: Day, parseDate: string -> Option<Day>): (r: Result<Day, PlanError>)
    ensures endArg == "yesterday" ==> r == Ok(today - 1)
    ensures endArg != "yesterday" ==> (r.Ok? <==> parseDate(endArg).Some?)
    ensures endArg != "yesterday" && parseDate(endArg).Some? ==> r == Ok(parseDate(endArg).value)
    ensures r.Err? ==> r.error == BadEndDate(endArg)
  {
    if endArg == "yesterday" then Ok(today - 1)
    else
      match parseDate(endArg)
      case None => Err(BadEndDate(endArg))
      case Some(d) => Ok(d)
  }

  /** start_date: the day after the last date present, or the end date
      itself when nothing is present yet. */
  function StartDate(last: Option<Day>, end: Day): (r: Day)
    ensures last.None? ==> r == end
    ensures last.Some? ==> r == last.value + 1
  {
    if last.None? then end else last.value + 1
  }

  function Downloads(cs: seq<Chunk>): (cmds: seq<Command>)
    ensures |cmds| == |cs|
    ensures forall i :: 0 <= i < |cs| ==> cmds[i] == Download(cs[i])
  {
    seq(|cs|, i requires 0 <= i < |cs| => Download(cs[i]))
  }

  /** The commands main launches. */
  ghost function Plan(processedLast: Option<Day>, rawNames: set<string>, endArg: string, today: Day,
                      chunkDays: int, rebuild: bool, parseDate: string -> Option<Day>)
    : (r: Result<seq<Command>, PlanError>)
    ensures r.Err? <==> EndDate(endArg, today, parseDate).Err?
    ensures r.Ok? ==> (rebuild <==> |r.value| > 0 && r.value[|r.value| - 1] == Rebuild)
  {
    var last := if processedLast.Some? then processedLast else LastRawDate(rawNames, parseDate);
    var end :- EndDate(endArg, today, parseDate);
    Ok(Launched(last, end, chunkDays, rebuild))
  }

  /** The commands main launches once the last date present and the end
      date are known: the chunked downloads from the start date, when it is
      not past the end date, then the rebuild when asked for. */
  function Launched(last: Option<Day>, end: Day, chunkDays: int, rebuild: bool): seq<Command> {
    var start := StartDate(last, end);
    var downloads := if start <= end then Downloads(Chunks(start, end, ChunkSize(chunkDays))) else [];
    downloads + if rebuild then [Rebuild] else []
  }

  /** main: the processed table's last date, or failing that the raw
      names'; the end date; the start date; the chunked downloads when
      start <= end; then the rebuild when asked for. */
  method PlanUpdate(processedLast: Option<Day>, rawNames: set<string>, endArg: string, today: Day,
                    chunkDays: int, rebuild: bool, parseDate: string -> Option<Day>)
    returns (r: Result<seq<Command>, PlanError>)
    ensures r == Plan(processedLast, rawNames, endArg, today, chunkDays, rebuild, parseDate)
  {
    var lastDate := processedLast;
    if lastDate.None? {
      lastDate := LastDateFromRaw(rawNames, parseDate);
      if lastDate.Some? {
        MaxUnique(RawDates(rawNames, parseDate), lastDate.value, MaxOfSet(RawDates(rawNames, parseDate)));
      }
    }
    assert lastDate == if processedLast.Some? then processedLast else LastRawDate(rawNames, parseDate);
    var endDate :- EndDate(endArg, today, parseDate);
    var startDate := if lastDate.None? then endDate else lastDate.value + 1;
    assert startDate == StartDate(lastDate, endDate);
    var commands: seq<Command> := [];
    if startDate <= endDate {
      var chunks := DownloadChunks(startDate, endDate, chunkDays);
      commands := Downloads(chunks);
    }
    if rebuild {
      commands := commands + [Rebuild];
    }
    assert commands == Launched(lastDate, endDate, chunkDays, rebuild);
    assert EndDate(endArg, today, parseDate) == Ok(endDate);
    r := Ok(commands);
  }

  // ---- properties of the plan ----

  lemma MaxUnique(s: set<Day>, a: Day, b: Day)
    requires IsMax(a, s) && IsMax(b, s)
    ensures a == b
  {
  }

  /** When the processed table gives a last date, the raw file names play
      no part. */
  lemma ProcessedDateTakesPrecedence(d: Day, names1: set<string>, names2: set<string>, endArg: string,
                                     today: Day, chunkDays: int, rebuild: bool,
                                     parseDate: string -> Option<Day>)
    ensures Plan(Some(d), names1, endArg, today, chunkDays, rebuild, parseDate)
         == Plan(Some(d), names2, endArg, today, chunkDays, rebuild, parseDate)
  {
  }

  /** The chunks planned from a last date to an end date cover exactly the
      days after the last date up to the end date (only the end date when
      there is no last date), each in one chunk of at most max(1, chunk_days)
      days. */
  lemma MissingDaysChunked(last: Option<Day>, end: Day, chunkDays: int, d: Day)
    ensures var start := StartDate(last, end);
            var cs := if start <= end then Chunks(start, end, ChunkSize(chunkDays)) else [];
            (Covers(cs, d) <==> (if last.Some? then last.value < d <= end else d == end)) &&
            (forall i :: 0 <= i < |cs| ==> cs[i].last - cs[i].first + 1 <= ChunkSize(chunkDays)) &&
            (forall i, j :: 0 <= i < j < |cs| ==> cs[i].last < cs[j].first)
  {
    var start := StartDate(last, end);
    if start <= end {
      ChunksPartition(start, end, ChunkSize(chunkDays), d);
      ChunkBounds(start, end, ChunkSize(chunkDays));
    }
  }

  /** Nothing is downloaded when the last date present is already the end
      date or later. */
  lemma NothingToDownload(processedLast: Option<Day>, rawNames: set<string>, endArg: string, today: Day,
                          chunkDays: int, rebuild: bool, parseDate: string -> Option<Day>)
    requires var r := EndDate(endArg, today, parseDate);
             r.Ok? && processedLast.Some? && processedLast.value >= r.value
    ensures Plan(processedLast, rawNames, endArg, today, chunkDays, rebuild, parseDate)
         == Ok(if rebuild then [Rebuild] else [])
  {
    var end := EndDate(endArg, today, parseDate).value;
    assert StartDate(processedLast, end) > end;
    assert [] + (if rebuild then [Rebuild] else []) == if rebuild then [Rebuild] else [];
  }

  /** What main launches: the run fails exactly when the end date does not
      parse; otherwise the downloads cover exactly the days after the last
      date present up to the end date (only the end date when nothing is
      present), in disjoint chunks of at most max(1, chunk_days) days, and
      the rebuild, when asked for, is the last command. */
  lemma PlanDownloadsMissingDays(processedLast: Option<Day>, rawNames: set<string>, endArg: string, today: Day,
                                 chunkDays: int, rebuild: bool, parseDate: string -> Option<Day>, d: Day)
    ensures Plan(processedLast, rawNames, endArg, today, chunkDays, rebuild, parseDate).Err?
        <==> EndDate(endArg, today, parseDate).Err?
    ensures var r := Plan(processedLast, rawNames, endArg, today, chunkDays, rebuild, parseDate);
            r.Ok? ==>
              var last := if processedLast.Some? then processedLast else LastRawDate(rawNames, parseDate);
              var end := EndDate(endArg, today, parseDate).value;
              var cmds := r.value;
              (forall i :: 0 <= i < |cmds| ==> (cmds[i] == Rebuild <==> rebuild && i == |cmds| - 1)) &&
              ((exists i :: 0 <= i < |cmds| && cmds[i].Download? && cmds[i].range.first <= d <= cmds[i].range.last)
                 <==> (if last.Some? then last.value < d <= end else d == end)) &&
              (forall i :: 0 <= i < |cmds| && cmds[i].Download? ==>
                 cmds[i].range.last - cmds[i].range.first + 1 <= ChunkSize(chunkDays)) &&
              (forall i, j :: 0 <= i < j < |cmds| && cmds[i].Download? && cmds[j].Download? ==>
                 cmds[i].range.last < cmds[j].range.first)
  {
    var r := Plan(processedLast, rawNames, endArg, today, chunkDays, rebuild, parseDate);
    if r.Ok? {
      var last := if processedLast.Some? then processedLast else LastRawDate(rawNames, parseDate);
      var end := EndDate(endArg, today, parseDate).value;
      assert r.value == Launched(last, end, chunkDays, rebuild);
      LaunchedMissingDays(last, end, chunkDays, rebuild, d);
    }
  }

  /** The launched commands, for a known last date and end date: the rebuild
      only last, a day downloaded exactly when it is missing, chunks of at
      most the chunk size, and no day downloaded twice. */
  lemma LaunchedMissingDays(last: Option<Day>, end: Day, chunkDays: int, rebuild: bool, d: Day)
    ensures var cmds := Launched(last, end, chunkDays, rebuild);
            (forall i :: 0 <= i < |cmds| ==> (cmds[i] == Rebuild <==> rebuild && i == |cmds| - 1)) &&
            ((exists i :: 0 <= i < |cmds| && cmds[i].Download? && cmds[i].range.first <= d <= cmds[i].range.last)
               <==> (if last.Some? then last.value < d <= end else d == end)) &&
            (forall i :: 0 <= i < |cmds| && cmds[i].Download? ==>
               cmds[i].range.last - cmds[i].range.first + 1 <= ChunkSize(chunkDays)) &&
            (forall i, j :: 0 <= i < j < |cmds| && cmds[i].Download? && cmds[j].Download? ==>
               cmds[i].range.last < cmds[j].range.first)
  {
    var start := StartDate(last, end);
    var cs := if start <= end then Chunks(start, end, ChunkSize(chunkDays)) else [];
    MissingDaysChunked(last, end, chunkDays, d);
    LaunchedCommands(cs, rebuild, d);
  }

  /** The command list of a plan: one download per chunk in order, then the
      rebuild when asked for. */
  lemma LaunchedCommands(cs: seq<Chunk>, rebuild: bool, d: Day)
    ensures var cmds := Downloads(cs) + if rebuild then [Rebuild] else [];
            (forall i :: 0 <= i < |cmds| ==> (cmds[i] == Rebuild <==> rebuild && i == |cmds| - 1)) &&
            (forall i :: 0 <= i < |cmds| && cmds[i].Download? ==> i < |cs| && cmds[i].range == cs[i]) &&
            ((exists i :: 0 <= i < |cmds| && cmds[i].Download? && cmds[i].range.first <= d <= cmds[i].range.last)
               <==> Covers(cs, d))
  {
    var cmds := Downloads(cs) + if rebuild then [Rebuild] else [];
    assert forall i :: 0 <= i < |cs| ==> cmds[i] == Download(cs[i]);
    if Covers(cs, d) {
      var i :| 0 <= i < |cs| && cs[i].first <= d <= cs[i].last;
      assert cmds[i] == Download(cs[i]);
    }
  }
}
