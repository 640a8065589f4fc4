// Depth-first lookups in a JSON tree (find_first_number and
// parse_sleep_window in scripts/build_dataset.py).

module TreeSearch {
  import opened JsonValue

  // ---------------------------------------------------------------------
  // find_first_number
  // ---------------------------------------------------------------------

  /** What one dict entry contributes before its value is searched: its
      number, when the key is listed and the value is numeric. */
  function EntryNumber(f: Field, keys: seq<string>): seq<real> {
    if f.key in keys && f.val.Num? then [f.val.n] else []
  }

  /** Every number stored under a listed key, in the order the search meets
      them: for each dict entry, the entry itself, then everything below it. */
  function NumbersUnder(o: Json, keys: seq<string>): (r: seq<real>)
    ensures !o.Obj? && !o.Arr? ==> r == []
    ensures |keys| == 0 ==> |r| == 0
    decreases o
  {
    match o
    case Obj(fields) => NumbersUnderFields(fields, keys)
    case Arr(items) => NumbersUnderList(items, keys)
    case _ => []
  }

  function NumbersUnderList(items: seq<Json>, keys: seq<string>): (r: seq<real>)
    ensures |keys| == 0 ==> |r| == 0
    decreases items
  {
    if |items| == 0 then []
    else NumbersUnderList(items[..|items| - 1], keys) + NumbersUnder(items[|items| - 1], keys)
  }

  function NumbersUnderFields(fields: seq<Field>, keys: seq<string>): (r: seq<real>)
    ensures |keys| == 0 ==> |r| == 0
    decreases fields
  {
    if |fields| == 0 then []
    else
      var f := fields[|fields| - 1];
      NumbersUnderFields(fields[..|fields| - 1], keys) + EntryNumber(f, keys) + NumbersUnder(f.val, keys)
  }

  /** find_first_number: collect every match into `found`, return the first. */
  method FindFirstNumber(o: Json, keys: seq<string>) returns (r: Option<real>)
    ensures r.None? <==> |NumbersUnder(o, keys)| == 0
    ensures r.Some? ==> r.value == NumbersUnder(o, keys)[0]
  {
    var found := CollectNumbers(o, keys, []);
    assert found == NumbersUnder(o, keys);
    r := if |found| > 0 then Some(found[0]) else None;
  }

  /** The nested `rec` of find_first_number. */
  method CollectNumbers(o: Json, keys: seq<string>, acc: seq<real>) returns (found: seq<real>)
    ensures found == acc + NumbersUnder(o, keys)
    decreases o, 2
  {
    match o {
      case Obj(fields) => found := CollectNumbersInFields(o, fields, keys, acc);
      case Arr(items) => found := CollectNumbersInList(o, items, keys, acc);
      case _ => found := acc;
    }
  }

  method CollectNumbersInFields(ghost o: Json, fields: seq<Field>, keys: seq<string>, acc: seq<real>) returns (found: seq<real>)
    requires o == Obj(fields)
    ensures found == acc + NumbersUnderFields(fields, keys)
    decreases o, 1
  {
    found := acc;
    for i := 0 to |fields|
      invariant found == acc + NumbersUnderFields(fields[..i], keys)
    {
      FieldsStep(fields, i, keys);
      found := CollectNumbersInEntry(o, fields, i, keys, found);
    }
    assert fields[..|fields|] == fields;
  }

  /** One dict entry: its own number first, then everything below it. */
  method CollectNumbersInEntry(ghost o: Json, fields: seq<Field>, i: nat, keys: seq<string>, acc: seq<real>)
    returns (found: seq<real>)
    requires o == Obj(fields) && i < |fields|
    ensures found == acc + EntryNumber(fields[i], keys) + NumbersUnder(fields[i].val, keys)
    decreases o, 0
  {
    var f := fields[i];
    found := acc;
    if f.key in keys && f.val.Num? {
      found := found + [f.val.n];
    }
    found := CollectNumbers(f.val, keys, found);
  }

  lemma FieldsStep(fields: seq<Field>, i: nat, keys: seq<string>)
    requires i < |fields|
    ensures NumbersUnderFields(fields[..i + 1], keys)
         == NumbersUnderFields(fields[..i], keys) + EntryNumber(fields[i], keys) + NumbersUnder(fields[i].val, keys)
  {
    assert fields[..i + 1][..i] == fields[..i];
  }

  method CollectNumbersInList(ghost o: Json, items: seq<Json>, keys: seq<string>, acc: seq<real>) returns (found: seq<real>)
    requires o == Arr(items)
    ensures found == acc + NumbersUnderList(items, keys)
    decreases o, 1
  {
    found := acc;
    for i := 0 to |items|
      invariant found == acc + NumbersUnderList(items[..i], keys)
    {
      assert items[..i + 1][..i] == items[..i];
      found := CollectNumbers(items[i], keys, found);
    }
    assert items[..|items|] == items;
  }

  /** The same search written to stop at the first match, as the pure parts
      of the day assembly use it. */
  function FirstNumber(o: Json, keys: seq<string>): (r: Option<real>)
    ensures !o.Obj? && !o.Arr? ==> r.None?
    ensures |keys| == 0 ==> r.None?
    decreases o
  {
    match o
    case Obj(fields) => FirstNumberInFields(fields, keys)
    case Arr(items) => FirstNumberInList(items, keys)
    case _ => None
  }

  function FirstNumberInList(items: seq<Json>, keys: seq<string>): (r: Option<real>)
    ensures |keys| == 0 ==> r.None?
    decreases items
  {
    if |items| == 0 then None
    else match FirstNumber(items[0], keys)
      case Some(x) => Some(x)
      case None => FirstNumberInList(items[1..], keys)
  }

  function FirstNumberInFields(fields: seq<Field>, keys: seq<string>): (r: Option<real>)
    ensures |keys| == 0 ==> r.None?
    decreases fields
  {
    if |fields| == 0 then None
    else if fields[0].key in keys && fields[0].val.Num? then Some(fields[0].val.n)
    else match FirstNumber(fields[0].val, keys)
      case Some(x) => Some(x)
      case None => FirstNumberInFields(fields[1..], keys)
  }

  function Head(xs: seq<real>): Option<real> {
    if |xs| == 0 then None else Some(xs[0])
  }

  lemma {:induction false} NumbersUnderListSplit(a: seq<Json>, b: seq<Json>, keys: seq<string>)
    ensures NumbersUnderList(a + b, keys) == NumbersUnderList(a, keys) + NumbersUnderList(b, keys)
    decreases |b|
  {
    if |b| > 0 {
      var b' := b[..|b| - 1];
      assert (a + b)[..|a + b| - 1] == a + b';
      NumbersUnderListSplit(a, b', keys);
    } else {
      assert a + b == a;
    }
  }

  lemma {:induction false} NumbersUnderFieldsSplit(a: seq<Field>, b: seq<Field>, keys: seq<string>)
    ensures NumbersUnderFields(a + b, keys) == NumbersUnderFields(a, keys) + NumbersUnderFields(b, keys)
    decreases |b|
  {
    if |b| > 0 {
      var b' := b[..|b| - 1];
      assert (a + b)[..|a + b| - 1] == a + b';
      NumbersUnderFieldsSplit(a, b', keys);
    } else {
      assert a + b == a;
    }
  }

  /** Stopping at the first match finds what collecting every match and
      taking the first finds; in particular it is None exactly when no listed
      key anywhere holds a number. */
  lemma {:induction false} FirstNumberIsFirstCollected(o: Json, keys: seq<string>)
    ensures FirstNumber(o, keys) == Head(NumbersUnder(o, keys))
    decreases o
  {
    match o
    case Obj(fields) => FirstInFieldsIsFirstCollected(fields, keys);
    case Arr(items) => FirstInListIsFirstCollected(items, keys);
    case _ =>
  }

  lemma {:induction false} FirstInListIsFirstCollected(items: seq<Json>, keys: seq<string>)
    ensures FirstNumberInList(items, keys) == Head(NumbersUnderList(items, keys))
    decreases items
  {
    if |items| > 0 {
      assert items == [items[0]] + items[1..];
      NumbersUnderListSplit([items[0]], items[1..], keys);
      assert NumbersUnderList([items[0]], keys) == NumbersUnder(items[0], keys) by {
        assert [items[0]][..0] == [];
      }
      FirstNumberIsFirstCollected(items[0], keys);
      FirstInListIsFirstCollected(items[1..], keys);
    }
  }

  lemma {:induction false} FirstInFieldsIsFirstCollected(fields: seq<Field>, keys: seq<string>)
    ensures FirstNumberInFields(fields, keys) == Head(NumbersUnderFields(fields, keys))
    decreases fields
  {
    if |fields| > 0 {
      var f := fields[0];
      assert fields == [f] + fields[1..];
      NumbersUnderFieldsSplit([f], fields[1..], keys);
      assert NumbersUnderFields([f], keys) == EntryNumber(f, keys) + NumbersUnder(f.val, keys) by {
        assert [f][..0] == [];
      }
      FirstNumberIsFirstCollected(f.val, keys);
      FirstInFieldsIsFirstCollected(fields[1..], keys);
    }
  }

  // ---------------------------------------------------------------------
  // parse_sleep_window
  // ---------------------------------------------------------------------

  const StartKeys: seq<string> := ["sleepStartTimestampGMT", "sleepStartTimestampLocal"]
  const EndKeys: seq<string> := ["sleepEndTimestampGMT", "sleepEndTimestampLocal"]

  /** A sleep interval [start, end) in epoch milliseconds. */
  datatype Window = Window(start: int, end: int)

  /** parse_ts: a number is already milliseconds (truncated by int()); a
      non-blank string goes through the date-time parser `instantOf`, which
      gives None where pandas gives NaT; anything else is not an instant. */
  function SleepInstant(v: Json, instantOf: string -> Option<int>): (r: Option<int>)
    ensures v.Num? ==> r.Some?
    ensures !v.Num? && !v.Str? ==> r.None?
  {
    match v
    case Num(x) => Some(Trunc(x))
    case Str(s) => if IsBlank(s) then None else instantOf(s)
    case _ => None
  }

  /** parse_ts gives an instant exactly for a number or a non-blank string
      the parser accepts; a number becomes its truncation, a string its
      parsed instant. */
  lemma SleepInstantSpec(v: Json, instantOf: string -> Option<int>)
    ensures SleepInstant(v, instantOf).Some? <==> v.Num? || (v.Str? && !IsBlank(v.s) && instantOf(v.s).Some?)
    ensures v.Num? ==> SleepInstant(v, instantOf) == Some(Trunc(v.n))
    ensures v.Str? && !IsBlank(v.s) ==> SleepInstant(v, instantOf) == instantOf(v.s)
  {
  }

  /** Key `k` is present in the dict and its value parses to an instant. */
  predicate Parses(fields: seq<Field>, k: string, instantOf: string -> Option<int>) {
    Lookup(fields, k).Some? && SleepInstant(Lookup(fields, k).value, instantOf).Some?
  }

  function InstantAt(fields: seq<Field>, k: string, instantOf: string -> Option<int>): int
    requires Parses(fields, k, instantOf)
  {
    SleepInstant(Lookup(fields, k).value, instantOf).value
  }

  /** keys[j] is the first of `keys` that parses. */
  predicate FirstParsing(fields: seq<Field>, keys: seq<string>, j: int, instantOf: string -> Option<int>) {
    0 <= j < |keys| && Parses(fields, keys[j], instantOf)
    && forall m :: 0 <= m < j ==> !Parses(fields, keys[m], instantOf)
  }

  /** A first parsing key in the tail is the first in the whole list when
      the head does not parse. */
  lemma FirstParsingShift(fields: seq<Field>, keys: seq<string>, j: int, instantOf: string -> Option<int>)
    requires |keys| > 0 && !Parses(fields, keys[0], instantOf)
    requires FirstParsing(fields, keys[1..], j, instantOf)
    ensures FirstParsing(fields, keys, j + 1, instantOf) && keys[j + 1] == keys[1..][j]
  {
    forall m | 0 <= m < j + 1 ensures !Parses(fields, keys[m], instantOf) {
      if m > 0 {
        assert keys[m] == keys[1..][m - 1];
      }
    }
  }

  /** The inner loop over end keys, for a start key present in the dict. */
  function TryEnds(fields: seq<Field>, sk: string, eks: seq<string>, instantOf: string -> Option<int>): (r: Option<Window>)
    requires Lookup(fields, sk).Some?
    ensures r.Some? ==> SleepInstant(Lookup(fields, sk).value, instantOf) == Some(r.value.start)
    ensures r.Some? ==> exists ek :: ek in eks && Lookup(fields, ek).Some?
                           && SleepInstant(Lookup(fields, ek).value, instantOf) == Some(r.value.end)
  {
    if |eks| == 0 then None
    else
      var ek := eks[0];
      match Lookup(fields, ek)
      case None => TryEnds(fields, sk, eks[1..], instantOf)
      case Some(ev) =>
        match (SleepInstant(Lookup(fields, sk).value, instantOf), SleepInstant(ev, instantOf))
        case (Some(s), Some(e)) => Some(Window(s, e))
        case _ => TryEnds(fields, sk, eks[1..], instantOf)
  }

  /** The end-key loop finds a window exactly when the start parses and some
      end key parses, and then it pairs the start with the first end key
      that parses. */
  lemma TryEndsSpec(fields: seq<Field>, sk: string, eks: seq<string>, instantOf: string -> Option<int>)
    requires Lookup(fields, sk).Some?
    ensures var r := TryEnds(fields, sk, eks, instantOf);
            (r.None? <==> !Parses(fields, sk, instantOf) || forall j :: 0 <= j < |eks| ==> !Parses(fields, eks[j], instantOf))
            && (r.Some? ==> Parses(fields, sk, instantOf) && r.value.start == InstantAt(fields, sk, instantOf)
                            && exists j :: FirstParsing(fields, eks, j, instantOf) && r.value.end == InstantAt(fields, eks[j], instantOf))
  {
    TryEndsNone(fields, sk, eks, instantOf);
    TryEndsFirst(fields, sk, eks, instantOf);
  }

  lemma {:induction false} TryEndsNone(fields: seq<Field>, sk: string, eks: seq<string>, instantOf: string -> Option<int>)
    requires Lookup(fields, sk).Some?
    ensures TryEnds(fields, sk, eks, instantOf).None?
        <==> !Parses(fields, sk, instantOf) || forall j :: 0 <= j < |eks| ==> !Parses(fields, eks[j], instantOf)
    decreases |eks|
  {
    if |eks| > 0 {
      var tail := eks[1..];
      TryEndsNone(fields, sk, tail, instantOf);
      if !(Parses(fields, sk, instantOf) && Parses(fields, eks[0], instantOf)) {
        assert TryEnds(fields, sk, eks, instantOf) == TryEnds(fields, sk, tail, instantOf);
        assert forall j :: 0 < j < |eks| ==> eks[j] == tail[j - 1];
      }
    }
  }

  lemma {:induction false} TryEndsFirst(fields: seq<Field>, sk: string, eks: seq<string>, instantOf: string -> Option<int>)
    requires Lookup(fields, sk).Some?
    ensures var r := TryEnds(fields, sk, eks, instantOf);
            r.Some? ==> Parses(fields, sk, instantOf) && r.value.start == InstantAt(fields, sk, instantOf)
                        && exists j :: FirstParsing(fields, eks, j, instantOf) && r.value.end == InstantAt(fields, eks[j], instantOf)
    decreases |eks|
  {
    if |eks| > 0 {
      var tail := eks[1..];
      var r := TryEnds(fields, sk, eks, instantOf);
      if Parses(fields, sk, instantOf) && Parses(fields, eks[0], instantOf) {
        assert FirstParsing(fields, eks, 0, instantOf);
      } else if r.Some? {
        assert r == TryEnds(fields, sk, tail, instantOf);
        TryEndsFirst(fields, sk, tail, instantOf);
        var j :| FirstParsing(fields, tail, j, instantOf) && r.value.end == InstantAt(fields, tail[j], instantOf);
        FirstParsingShift(fields, eks, j, instantOf);
      }
    }
  }

  /** Start key `sk` is present and pairs with some end key: both parse. */
  predicate HasWindow(fields: seq<Field>, sk: string, instantOf: string -> Option<int>) {
    Lookup(fields, sk).Some? && TryEnds(fields, sk, EndKeys, instantOf).Some?
  }

  /** sks[j] is the first start key that pairs with an end key. */
  predicate FirstWithWindow(fields: seq<Field>, sks: seq<string>, j: int, instantOf: string -> Option<int>) {
    0 <= j < |sks| && HasWindow(fields, sks[j], instantOf)
    && forall m :: 0 <= m < j ==> !HasWindow(fields, sks[m], instantOf)
  }

  /** The outer loop over start keys, GMT first. */
  function TryStarts(fields: seq<Field>, sks: seq<string>, instantOf: string -> Option<int>): (r: Option<Window>)
    ensures r.Some? ==> exists sk :: sk in sks && Lookup(fields, sk).Some?
                           && SleepInstant(Lookup(fields, sk).value, instantOf) == Some(r.value.start)
  {
    if |sks| == 0 then None
    else if Lookup(fields, sks[0]).Some? then
      match TryEnds(fields, sks[0], EndKeys, instantOf)
      case Some(w) => Some(w)
      case None => TryStarts(fields, sks[1..], instantOf)
    else TryStarts(fields, sks[1..], instantOf)
  }

  /** The start-key loop returns the window of the first start key that pairs
      with an end key, and None exactly when no start key does. */
  lemma TryStartsSpec(fields: seq<Field>, sks: seq<string>, instantOf: string -> Option<int>)
    ensures var r := TryStarts(fields, sks, instantOf);
            (r.None? <==> forall j :: 0 <= j < |sks| ==> !HasWindow(fields, sks[j], instantOf))
            && (r.Some? ==> exists j :: 0 <= j < |sks| && HasWindow(fields, sks[j], instantOf)
                              && (forall m :: 0 <= m < j ==> !HasWindow(fields, sks[m], instantOf))
                              && r == TryEnds(fields, sks[j], EndKeys, instantOf))
  {
    TryStartsNone(fields, sks, instantOf);
    TryStartsFirst(fields, sks, instantOf);
  }

  lemma {:induction false} TryStartsNone(fields: seq<Field>, sks: seq<string>, instantOf: string -> Option<int>)
    ensures TryStarts(fields, sks, instantOf).None?
        <==> forall j :: 0 <= j < |sks| ==> !HasWindow(fields, sks[j], instantOf)
    decreases |sks|
  {
    if |sks| > 0 {
      var tail := sks[1..];
      TryStartsNone(fields, tail, instantOf);
      TryStartsStep(fields, sks, instantOf);
      if !HasWindow(fields, sks[0], instantOf) {
        assert forall j :: 0 < j < |sks| ==> sks[j] == tail[j - 1];
      }
    }
  }

  lemma {:induction false} TryStartsFirst(fields: seq<Field>, sks: seq<string>, instantOf: string -> Option<int>)
    ensures var r := TryStarts(fields, sks, instantOf);
            r.Some? ==> exists j :: FirstWithWindow(fields, sks, j, instantOf)
                           && r == TryEnds(fields, sks[j], EndKeys, instantOf)
    decreases |sks|
  {
    if |sks| > 0 {
      var tail := sks[1..];
      TryStartsStep(fields, sks, instantOf);
      var r := TryStarts(fields, sks, instantOf);
      if HasWindow(fields, sks[0], instantOf) {
        assert FirstWithWindow(fields, sks, 0, instantOf);
      } else if r.Some? {
        TryStartsFirst(fields, tail, instantOf);
        var j :| FirstWithWindow(fields, tail, j, instantOf) && r == TryEnds(fields, tail[j], EndKeys, instantOf);
        FirstWithWindowShift(fields, sks, j, instantOf);
      }
    }
  }

  /** A first window in the tail is the first in the whole list when the
      head has none. */
  lemma FirstWithWindowShift(fields: seq<Field>, sks: seq<string>, j: int, instantOf: string -> Option<int>)
    requires |sks| > 0 && !HasWindow(fields, sks[0], instantOf)
    requires FirstWithWindow(fields, sks[1..], j, instantOf)
    ensures FirstWithWindow(fields, sks, j + 1, instantOf) && sks[j + 1] == sks[1..][j]
  {
    forall m | 0 <= m < j + 1 ensures !HasWindow(fields, sks[m], instantOf) {
      if m > 0 {
        assert sks[m] == sks[1..][m - 1];
      }
    }
  }

  lemma TryStartsStep(fields: seq<Field>, sks: seq<string>, instantOf: string -> Option<int>)
    requires |sks| > 0
    ensures TryStarts(fields, sks, instantOf)
         == if HasWindow(fields, sks[0], instantOf) then TryEnds(fields, sks[0], EndKeys, instantOf)
            else TryStarts(fields, sks[1..], instantOf)
  {
  }

  /** A dict holds a window of its own exactly when one of its start keys and
      one of its end keys are present and both parse. */
  lemma WindowAtIff(fields: seq<Field>, instantOf: string -> Option<int>)
    ensures WindowAt(Obj(fields), instantOf).Some?
        <==> exists i, j :: 0 <= i < |StartKeys| && 0 <= j < |EndKeys|
               && Parses(fields, StartKeys[i], instantOf) && Parses(fields, EndKeys[j], instantOf)
  {
    TryStartsSpec(fields, StartKeys, instantOf);
    forall i | 0 <= i < |StartKeys| && Lookup(fields, StartKeys[i]).Some?
      ensures HasWindow(fields, StartKeys[i], instantOf)
          <==> Parses(fields, StartKeys[i], instantOf) && exists j :: 0 <= j < |EndKeys| && Parses(fields, EndKeys[j], instantOf)
    {
      TryEndsSpec(fields, StartKeys[i], EndKeys, instantOf);
    }
  }

  /** A window the start-key loop returns ends at the parsed instant of a
      present end key. */
  lemma {:induction false} TryStartsEndKey(fields: seq<Field>, sks: seq<string>, instantOf: string -> Option<int>)
    ensures var r := TryStarts(fields, sks, instantOf);
            r.Some? ==> exists ek :: ek in EndKeys && Lookup(fields, ek).Some?
                          && SleepInstant(Lookup(fields, ek).value, instantOf) == Some(r.value.end)
    decreases |sks|
  {
    if |sks| > 0 {
      TryStartsStep(fields, sks, instantOf);
      if !HasWindow(fields, sks[0], instantOf) {
        TryStartsEndKey(fields, sks[1..], instantOf);
      }
    }
  }

  /** The window a single node holds itself, without looking below it. */
  function WindowAt(o: Json, instantOf: string -> Option<int>): (r: Option<Window>)
    ensures r.Some? ==> o.Obj?
    ensures r.Some? ==> exists sk :: sk in StartKeys && Lookup(o.fields, sk).Some?
                          && SleepInstant(Lookup(o.fields, sk).value, instantOf) == Some(r.value.start)
    ensures r.Some? ==> exists ek :: ek in EndKeys && Lookup(o.fields, ek).Some?
                          && SleepInstant(Lookup(o.fields, ek).value, instantOf) == Some(r.value.end)
  {
    if o.Obj? then
      TryStartsEndKey(o.fields, StartKeys, instantOf);
      TryStarts(o.fields, StartKeys, instantOf)
    else None
  }

  /** parse_sleep_window: depth-first, the first dict holding a start key and
      an end key that both parse. */
  function SleepWindow(o: Json, instantOf: string -> Option<int>): (r: Option<Window>)
    ensures o.Obj? && WindowAt(o, instantOf).Some? ==> r == WindowAt(o, instantOf)
    ensures !o.Obj? && !o.Arr? ==> r.None?
    decreases o
  {
    match o
    case Obj(fields) =>
      if WindowAt(o, instantOf).Some? then WindowAt(o, instantOf)
      else SleepWindowInFields(fields, instantOf)
    case Arr(items) => SleepWindowInList(items, instantOf)
    case _ => None
  }

  function SleepWindowInList(items: seq<Json>, instantOf: string -> Option<int>): (r: Option<Window>)
    ensures r.None? <==> forall i :: 0 <= i < |items| ==> SleepWindow(items[i], instantOf).None?
    ensures r.Some? ==> exists i :: 0 <= i < |items| && SleepWindow(items[i], instantOf) == r
    decreases items
  {
    if |items| == 0 then None
    else match SleepWindow(items[0], instantOf)
      case Some(w) => Some(w)
      case None =>
        assert forall i :: 0 <= i < |items| - 1 ==> items[1..][i] == items[i + 1];
        SleepWindowInList(items[1..], instantOf)
  }

  function SleepWindowInFields(fields: seq<Field>, instantOf: string -> Option<int>): (r: Option<Window>)
    ensures r.None? <==> forall i :: 0 <= i < |fields| ==> SleepWindow(fields[i].val, instantOf).None?
    ensures r.Some? ==> exists i :: 0 <= i < |fields| && SleepWindow(fields[i].val, instantOf) == r
    decreases fields
  {
    if |fields| == 0 then None
    else match SleepWindow(fields[0].val, instantOf)
      case Some(w) => Some(w)
      case None =>
        assert forall i :: 0 <= i < |fields| - 1 ==> fields[1..][i] == fields[i + 1];
        SleepWindowInFields(fields[1..], instantOf)
  }

  /** Every node of a tree in depth-first pre-order: a node before its
      children, children in order. */
  function Nodes(o: Json): (r: seq<Json>)
    ensures |r| > 0 && r[0] == o
    decreases o
  {
    match o
    case Obj(fields) => [o] + NodesOfFields(fields)
    case Arr(items) => [o] + NodesOfList(items)
    case _ => [o]
  }

  function NodesOfList(items: seq<Json>): seq<Json>
    decreases items
  {
    if |items| == 0 then [] else Nodes(items[0]) + NodesOfList(items[1..])
  }

  function NodesOfFields(fields: seq<Field>): seq<Json>
    decreases fields
  {
    if |fields| == 0 then [] else Nodes(fields[0].val) + NodesOfFields(fields[1..])
  }

  /** The window of the first node, in the given order, that holds one. */
  function FirstWindowIn(nodes: seq<Json>, instantOf: string -> Option<int>): Option<Window> {
    if |nodes| == 0 then None
    else if WindowAt(nodes[0], instantOf).Some? then WindowAt(nodes[0], instantOf)
    else FirstWindowIn(nodes[1..], instantOf)
  }

  lemma {:induction false} FirstWindowInSplit(a: seq<Json>, b: seq<Json>, instantOf: string -> Option<int>)
    ensures FirstWindowIn(a + b, instantOf)
         == if FirstWindowIn(a, instantOf).Some? then FirstWindowIn(a, instantOf) else FirstWindowIn(b, instantOf)
  {
    if |a| > 0 {
      assert (a + b)[1..] == a[1..] + b;
      FirstWindowInSplit(a[1..], b, instantOf);
    } else {
      assert a + b == b;
    }
  }

  /** The recursive search returns the window of the first node, in
      depth-first pre-order, whose own keys yield one: a dict whose keys are
      missing or do not parse does not stop the search, which goes on into
      its children and then its later siblings. */
  lemma {:induction false} SleepWindowIsFirstInPreorder(o: Json, instantOf: string -> Option<int>)
    ensures SleepWindow(o, instantOf) == FirstWindowIn(Nodes(o), instantOf)
    decreases o
  {
    match o
    case Obj(fields) =>
      FirstWindowInSplit([o], NodesOfFields(fields), instantOf);
      FieldsWindowIsFirstInPreorder(fields, instantOf);
    case Arr(items) =>
      FirstWindowInSplit([o], NodesOfList(items), instantOf);
      ListWindowIsFirstInPreorder(items, instantOf);
    case _ =>
  }

  lemma {:induction false} ListWindowIsFirstInPreorder(items: seq<Json>, instantOf: string -> Option<int>)
    ensures SleepWindowInList(items, instantOf) == FirstWindowIn(NodesOfList(items), instantOf)
    decreases items
  {
    if |items| > 0 {
      SleepWindowIsFirstInPreorder(items[0], instantOf);
      ListWindowIsFirstInPreorder(items[1..], instantOf);
      FirstWindowInSplit(Nodes(items[0]), NodesOfList(items[1..]), instantOf);
    }
  }

  lemma {:induction false} FieldsWindowIsFirstInPreorder(fields: seq<Field>, instantOf: string -> Option<int>)
    ensures SleepWindowInFields(fields, instantOf) == FirstWindowIn(NodesOfFields(fields), instantOf)
    decreases fields
  {
    if |fields| > 0 {
      SleepWindowIsFirstInPreorder(fields[0].val, instantOf);
      FieldsWindowIsFirstInPreorder(fields[1..], instantOf);
      FirstWindowInSplit(Nodes(fields[0].val), NodesOfFields(fields[1..]), instantOf);
    }
  }

  /** The GMT pair wins over any other combination in the same dict. */
  lemma GmtPreferred(fields: seq<Field>, s: int, e: int, instantOf: string -> Option<int>)
    requires Lookup(fields, StartKeys[0]).Some? && SleepInstant(Lookup(fields, StartKeys[0]).value, instantOf) == Some(s)
    requires Lookup(fields, EndKeys[0]).Some? && SleepInstant(Lookup(fields, EndKeys[0]).value, instantOf) == Some(e)
    ensures SleepWindow(Obj(fields), instantOf) == Some(Window(s, e))
  {
    assert TryEnds(fields, StartKeys[0], EndKeys, instantOf) == Some(Window(s, e));
    assert WindowAt(Obj(fields), instantOf) == Some(Window(s, e));
  }
}
