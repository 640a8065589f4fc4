// File-name logic of scripts/build_dataset.py: Python's string order and
// sorted(), the "????-??-??_*.json" day discovery (discover_days, lines
// 30-37) and the "body_battery_*.json" selection with its "error" skip rule
// (load_body_battery_series, lines 91-95).

module Names {
  import opened JsonValue

  /** Python's `<` on str: lexicographic on code points, a proper prefix
      first. */
  predicate StrLt(a: string, b: string)
    decreases |a|
  {
    if |a| == 0 then |b| > 0
    else if |b| == 0 then false
    else if a[0] != b[0] then a[0] < b[0]
    else StrLt(a[1..], b[1..])
  }

  lemma {:induction false} StrLtIrreflexive(a: string)
    ensures !StrLt(a, a)
    decreases |a|
  {
    if |a| > 0 {
      StrLtIrreflexive(a[1..]);
    }
  }

  lemma {:induction false} StrLtAsymmetric(a: string, b: string)
    requires StrLt(a, b)
    ensures !StrLt(b, a)
    decreases |a|
  {
    if |a| > 0 && |b| > 0 && a[0] == b[0] {
      StrLtAsymmetric(a[1..], b[1..]);
    }
  }

  lemma {:induction false} StrLtTransitive(a: string, b: string, c: string)
    requires StrLt(a, b) && StrLt(b, c)
    ensures StrLt(a, c)
    decreases |a|
  {
    if |a| > 0 && a[0] == b[0] && b[0] == c[0] {
      StrLtTransitive(a[1..], b[1..], c[1..]);
    }
  }

  lemma {:induction false} StrLtTotal(a: string, b: string)
    requires a != b
    ensures StrLt(a, b) || StrLt(b, a)
    decreases |a|
  {
    if |a| > 0 && |b| > 0 && a[0] == b[0] {
      assert a == [a[0]] + a[1..] && b == [b[0]] + b[1..];
      StrLtTotal(a[1..], b[1..]);
    }
  }

  predicate StrictlySorted(r: seq<string>) {
    forall i, j :: 0 <= i < j < |r| ==> StrLt(r[i], r[j])
  }

  predicate IsLeast(m: string, s: set<string>) {
    m in s && forall x :: x in s && x != m ==> StrLt(m, x)
  }

  lemma {:induction false} LeastExists(s: set<string>)
    requires s != {}
    ensures exists m :: IsLeast(m, s)
    decreases s
  {
    var a :| a in s;
    var rest := s - {a};
    if rest != {} {
      LeastExists(rest);
      var m :| IsLeast(m, rest);
      StrLtTotal(a, m);
      if StrLt(a, m) {
        forall x | x in s && x != a ensures StrLt(a, x) {
          if x != m {
            StrLtTransitive(a, m, x);
          }
        }
        assert IsLeast(a, s);
      } else {
        assert IsLeast(m, s);
      }
    } else {
      assert s == {a};
      assert IsLeast(a, s);
    }
  }

  lemma LeastUnique(s: set<string>)
    ensures forall a, b :: IsLeast(a, s) && IsLeast(b, s) ==> a == b
  {
    forall a, b | IsLeast(a, s) && IsLeast(b, s) ensures a == b {
      if a != b {
        StrLtAsymmetric(a, b);
      }
    }
  }

  /** sorted() of a set of names: ascending, each name once. */
  function SortedSeq(s: set<string>): (r: seq<string>)
    ensures StrictlySorted(r)
    ensures forall x :: x in r <==> x in s
    ensures |r| == |s|
    decreases s
  {
    if s == {} then []
    else
      LeastExists(s);
      LeastUnique(s);
      var m :| IsLeast(m, s);
      [m] + SortedSeq(s - {m})
  }

  /** Names equal to "prefix + anything + suffix", as a glob with one `*`
      between a fixed prefix and suffix matches them. */
  predicate MatchesStarGlob(name: string, prefix: string, suffix: string) {
    |prefix| + |suffix| <= |name| && StartsWith(name, prefix) && EndsWith(name, suffix)
  }

  /** The glob "????-??-??_*.json": any four characters, '-', any two, '-',
      any two, '_', anything, ".json". */
  predicate MatchesDayGlob(name: string)
    ensures MatchesDayGlob(name) ==> !IsBodyBatteryName(name)
  {
    |name| >= 16 && name[4] == '-' && name[7] == '-' && name[10] == '_' && EndsWith(name, ".json")
  }

  /** s.split(c)[0]: the part of s before the first c, all of s without one. */
  function PrefixBefore(s: string, c: char): (r: string)
    ensures |r| <= |s| && r == s[..|r|]
    ensures forall i :: 0 <= i < |r| ==> r[i] != c
    ensures |r| < |s| ==> s[|r|] == c
  {
    if |s| == 0 || s[0] == c then []
    else [s[0]] + PrefixBefore(s[1..], c)
  }

  function DayPrefix(name: string): (r: string)
    ensures |r| <= |name| && r == name[..|r|]
    ensures forall i :: 0 <= i < |r| ==> r[i] != '_'
    ensures MatchesDayGlob(name) ==> |r| <= 10
  {
    PrefixBefore(name, '_')
  }

  /** s.count(c). */
  function CountChar(s: string, c: char): (n: nat)
    ensures n <= |s|
    ensures n == 0 <==> forall i :: 0 <= i < |s| ==> s[i] != c
  {
    if |s| == 0 then 0
    else CountChar(s[..|s| - 1], c) + (if s[|s| - 1] == c then 1 else 0)
  }

  /** count(c) is exactly the number of positions holding c. */
  lemma {:induction false} CountCharCount(s: string, c: char)
    ensures CountChar(s, c) == |set i | 0 <= i < |s| && s[i] == c|
  {
    if |s| > 0 {
      var last := |s| - 1;
      var init := s[..last];
      CountCharCount(init, c);
      var f := i => 0 <= i < |s| && s[i] == c;
      CountStep(last, f);
      assert (set i | 0 <= i < |init| && init[i] == c) == (set i | 0 <= i < last && f(i));
      assert (set i | 0 <= i < |s| && s[i] == c) == (set i | 0 <= i < last + 1 && f(i));
    }
  }

  /** A name that discover_days takes a day from. */
  predicate YieldsDay(name: string) {
    MatchesDayGlob(name) && CountChar(DayPrefix(name), '-') == 2
  }

  /** The set that discover_days fills. */
  function DayNames(names: set<string>): (r: set<string>)
    ensures forall d :: d in r ==> |d| <= 10
  {
    set n | n in names && YieldsDay(n) :: DayPrefix(n)
  }

  /** discover_days: a loop over the matching files collecting the text
      before the first '_' of each when it holds exactly two '-', then
      sorted. */
  method DiscoverDays(names: set<string>) returns (days: seq<string>)
    ensures days == SortedSeq(DayNames(names))
  {
    var found: set<string> := {};
    var rest := names;
    while rest != {}
      invariant rest <= names
      invariant found == DayNames(names - rest)
      decreases rest
    {
      var p :| p in rest;
      if MatchesDayGlob(p) {
        var day := DayPrefix(p);
        if CountChar(day, '-') == 2 {
          found := found + {day};
        }
      }
      rest := rest - {p};
    }
    assert names - rest == names;
    days := SortedSeq(found);
  }

  /** The discovered days are ascending without repeats, and a day is listed
      exactly when some matching file name starts with it followed by '_'
      and it holds exactly two '-'. */
  lemma DiscoverDaysSpec(names: set<string>, d: string)
    ensures StrictlySorted(SortedSeq(DayNames(names)))
    ensures d in SortedSeq(DayNames(names))
        <==> exists n :: n in names && MatchesDayGlob(n) && DayPrefix(n) == d && CountChar(d, '-') == 2
  {
  }

  /** For a file such as "2024-03-05_heart_rates.json" the day is its first
      ten characters. */
  lemma DayOfDatedFile(name: string)
    requires MatchesDayGlob(name)
    requires forall i :: 0 <= i < 10 ==> name[i] != '_'
    ensures DayPrefix(name) == name[..10]
  {
  }

  /** The glob "body_battery_*.json". */
  predicate IsBodyBatteryName(name: string) {
    MatchesStarGlob(name, "body_battery_", ".json")
  }

  /** `"error" in p.name.lower()`: the loader skips these files. */
  predicate IsErrorName(name: string)
    ensures Contains(name, "error") ==> IsErrorName(name)
    ensures Contains(name, "ERROR") ==> IsErrorName(name)
  {
    ContainsLowered(name, "error", "error");
    ContainsLowered(name, "ERROR", "error");
    Contains(ToLower(name), "error")
  }

  /** Lower-casing keeps every occurrence of `w`, now spelled `lw`. */
  lemma {:induction false} ContainsLowered(s: string, w: string, lw: string)
    requires |lw| == |w| && forall i :: 0 <= i < |w| ==> ToLowerChar(w[i]) == lw[i]
    ensures Contains(s, w) ==> Contains(ToLower(s), lw)
    decreases |s|
  {
    if Contains(s, w) {
      if StartsWith(s, w) {
        assert forall i :: 0 <= i < |w| ==> s[i] == w[i];
        assert ToLower(s)[..|lw|] == lw;
      } else {
        ContainsLowered(s[1..], w, lw);
        assert ToLower(s)[1..] == ToLower(s[1..]);
      }
    }
  }

  /** The body-battery files, in the order the loader visits them. */
  function BodyBatteryFiles(names: set<string>): (r: seq<string>)
    ensures StrictlySorted(r)
    ensures forall x :: x in r <==> x in names && IsBodyBatteryName(x)
  {
    SortedSeq(set n | n in names && IsBodyBatteryName(n))
  }

  lemma HasMemberIffNonEmpty(a: seq<string>)
    ensures |a| > 0 <==> exists x :: x in a
  {
    if |a| > 0 {
      assert a[0] in a;
    }
  }

  /** Two strictly sorted lists of the same names are the same list: sorted
      order does not depend on how the names were found. */
  lemma {:induction false} SortedUnique(a: seq<string>, b: seq<string>)
    requires StrictlySorted(a) && StrictlySorted(b)
    requires forall x :: x in a <==> x in b
    ensures a == b
    decreases |a|
  {
    if |a| > 0 && |b| > 0 {
      forall j | 0 < j < |b| ensures StrLt(b[0], b[j]) { }
      assert a[0] in b && b[0] in a;
      var i :| 0 <= i < |a| && a[i] == b[0];
      var j :| 0 <= j < |b| && b[j] == a[0];
      if i > 0 && j > 0 {
        StrLtAsymmetric(a[0], a[i]);
      }
      assert a[0] == b[0];
      StrLtIrreflexive(a[0]);
      forall x ensures x in a[1..] <==> x in b[1..] {
        if x in a[1..] {
          var i :| 0 <= i < |a| - 1 && a[1..][i] == x;
          assert a[i + 1] == x && x in b;
          var j :| 0 <= j < |b| && b[j] == x;
          assert j != 0;
          assert b[1..][j - 1] == x;
        }
        if x in b[1..] {
          var i :| 0 <= i < |b| - 1 && b[1..][i] == x;
          assert b[i + 1] == x && x in a;
          var j :| 0 <= j < |a| && a[j] == x;
          assert j != 0;
          assert a[1..][j - 1] == x;
        }
      }
      SortedUnique(a[1..], b[1..]);
      assert a == [a[0]] + a[1..] && b == [b[0]] + b[1..];
    } else {
      HasMemberIffNonEmpty(a);
      HasMemberIffNonEmpty(b);
    }
  }
}
