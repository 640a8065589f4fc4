// pairs_to_series in scripts/build_dataset.py: sort the extracted pairs by
// instant and keep one value per instant, the last one seen.

module Series {
  import opened PairExtractor

  /** A normalised series: instants strictly increasing, hence unique. */
  predicate StrictlyIncreasing(s: seq<Pair>) {
    forall i, j :: 0 <= i < j < |s| ==> s[i].t < s[j].t
  }

  /** The instant-to-value mapping that writing the pairs in order leaves
      behind: a later pair for the same instant overwrites an earlier one. */
  function LastWrite(ps: seq<Pair>): (m: map<int, real>)
    ensures |m| <= |ps|
  {
    if |ps| == 0 then map[]
    else LastWrite(ps[..|ps| - 1])[ps[|ps| - 1].t := ps[|ps| - 1].v]
  }

  /** Put one more pair into a normalised series, replacing the value of an
      equal instant. */
  function Insert(s: seq<Pair>, p: Pair): (r: seq<Pair>)
    requires StrictlyIncreasing(s)
    ensures StrictlyIncreasing(r)
    ensures |s| <= |r| <= |s| + 1 && |r| > 0
    ensures r[|r| - 1].t == if |s| > 0 && s[|s| - 1].t > p.t then s[|s| - 1].t else p.t
  {
    if |s| == 0 then [p]
    else
      var last := s[|s| - 1];
      var init := s[..|s| - 1];
      if last.t < p.t then
        AppendIncreasing(s, p);
        s + [p]
      else if last.t == p.t then
        AppendIncreasing(init, p);
        init + [p]
      else
        var r0 := Insert(init, p);
        AppendIncreasing(r0, last);
        r0 + [last]
  }

  lemma LastWriteAppend(s: seq<Pair>, p: Pair)
    ensures LastWrite(s + [p]) == LastWrite(s)[p.t := p.v]
  {
    assert (s + [p])[..|s|] == s;
  }

  /** Inserting writes the new pair over the series' mapping. */
  lemma {:induction false} InsertLastWrite(s: seq<Pair>, p: Pair)
    requires StrictlyIncreasing(s)
    ensures LastWrite(Insert(s, p)) == LastWrite(s)[p.t := p.v]
  {
    if |s| > 0 {
      var last := s[|s| - 1];
      var init := s[..|s| - 1];
      if last.t < p.t {
        LastWriteAppend(s, p);
      } else if last.t == p.t {
        LastWriteAppend(init, p);
        Overwrite(LastWrite(init), last, p);
      } else {
        InsertLastWrite(init, p);
        LastWriteAppend(Insert(init, p), last);
        Swap(LastWrite(init), p, last);
      }
    }
  }

  lemma Overwrite(m: map<int, real>, a: Pair, b: Pair)
    requires a.t == b.t
    ensures m[a.t := a.v][b.t := b.v] == m[b.t := b.v]
  {
  }

  lemma Swap(m: map<int, real>, a: Pair, b: Pair)
    requires a.t != b.t
    ensures m[a.t := a.v][b.t := b.v] == m[b.t := b.v][a.t := a.v]
  {
  }

  /** Appending an instant later than every instant present keeps a series
      normalised. */
  lemma AppendIncreasing(s: seq<Pair>, p: Pair)
    requires StrictlyIncreasing(s)
    requires |s| > 0 ==> s[|s| - 1].t < p.t
    ensures StrictlyIncreasing(s + [p])
  {
    forall i, j | 0 <= i < j < |s| + 1 ensures (s + [p])[i].t < (s + [p])[j].t {
      if j == |s| && i < |s| - 1 {
        assert s[i].t < s[|s| - 1].t;
      }
    }
  }

  /** pairs_to_series: a stable sort by instant followed by "keep last"
      amounts to inserting the pairs one by one, in input order. */
  function Normalize(ps: seq<Pair>): (r: seq<Pair>)
    ensures StrictlyIncreasing(r)
    ensures LastWrite(r) == LastWrite(ps)
    ensures |r| <= |ps|
  {
    if |ps| == 0 then []
    else
      var init := ps[..|ps| - 1];
      InsertLastWrite(Normalize(init), ps[|ps| - 1]);
      Insert(Normalize(init), ps[|ps| - 1])
  }

  /** The instants a sequence of pairs mentions. */
  function Instants(ps: seq<Pair>): set<int> {
    set i | 0 <= i < |ps| :: ps[i].t
  }

  /** The instants of the written map are exactly the input's instants. */
  lemma {:induction false} LastWriteKeys(ps: seq<Pair>)
    ensures LastWrite(ps).Keys == Instants(ps)
  {
    if |ps| > 0 {
      var init := ps[..|ps| - 1];
      LastWriteKeys(init);
      forall t | t in LastWrite(ps) ensures t in Instants(ps) {
        if t != ps[|ps| - 1].t {
          assert t in LastWrite(init);
          var i :| 0 <= i < |init| && init[i].t == t;
          assert ps[i].t == t;
        } else {
          assert ps[|ps| - 1].t == t;
        }
      }
      forall t | t in Instants(ps) ensures t in LastWrite(ps) {
        var i :| 0 <= i < |ps| && ps[i].t == t;
        if i < |ps| - 1 {
          assert init[i].t == t;
          assert t in Instants(init);
        }
      }
    }
  }

  /** Last write wins: the value kept for an instant is the one of its last
      occurrence in the input. */
  lemma {:induction false} LastWriteWins(ps: seq<Pair>, j: nat)
    requires j < |ps|
    requires forall k :: j < k < |ps| ==> ps[k].t != ps[j].t
    ensures ps[j].t in LastWrite(ps) && LastWrite(ps)[ps[j].t] == ps[j].v
  {
    if j < |ps| - 1 {
      LastWriteWins(ps[..|ps| - 1], j);
    }
  }

  /** In a normalised series each entry is what the map holds for its instant. */
  lemma SeriesEntryIsMapValue(s: seq<Pair>, i: nat)
    requires StrictlyIncreasing(s) && i < |s|
    ensures s[i].t in LastWrite(s) && LastWrite(s)[s[i].t] == s[i].v
  {
    LastWriteWins(s, i);
  }

  /** The normalised series holds one entry for every instant of the input,
      carrying the value of that instant's last occurrence, and nothing else. */
  lemma NormalizeLastWins(ps: seq<Pair>, j: nat)
    requires j < |ps|
    requires forall k :: j < k < |ps| ==> ps[k].t != ps[j].t
    ensures exists i :: 0 <= i < |Normalize(ps)| && Normalize(ps)[i] == ps[j]
  {
    var r := Normalize(ps);
    LastWriteWins(ps, j);
    LastWriteKeys(r);
    assert ps[j].t in Instants(r);
    var i :| 0 <= i < |r| && r[i].t == ps[j].t;
    SeriesEntryIsMapValue(r, i);
  }

  /** The normalised series has exactly the instants of its input. */
  lemma NormalizeInstants(ps: seq<Pair>)
    ensures Instants(Normalize(ps)) == Instants(ps)
  {
    LastWriteKeys(ps);
    LastWriteKeys(Normalize(ps));
  }

  /** A series that is already normalised comes back unchanged. */
  lemma {:induction false} NormalizeFixesSeries(s: seq<Pair>)
    requires StrictlyIncreasing(s)
    ensures Normalize(s) == s
  {
    if |s| > 0 {
      var init := s[..|s| - 1];
      NormalizeFixesSeries(init);
      assert init + [s[|s| - 1]] == s;
    }
  }

  /** Normalising twice is normalising once. */
  lemma NormalizeIdempotent(ps: seq<Pair>)
    ensures Normalize(Normalize(ps)) == Normalize(ps)
  {
    NormalizeFixesSeries(Normalize(ps));
  }

  /** Normalisation keeps the values it is given (so a range filter applied
      before it still holds after it). */
  lemma {:induction false} NormalizeKeepsRange(ps: seq<Pair>, lo: real, hi: real)
    requires AllInRange(ps, lo, hi)
    ensures AllInRange(Normalize(ps), lo, hi)
  {
    var r := Normalize(ps);
    LastWriteKeys(ps);
    forall i | 0 <= i < |r| ensures lo <= r[i].v <= hi {
      SeriesEntryIsMapValue(r, i);
      LastWriteValues(ps, r[i].t);
    }
  }

  /** Every value in the written map is the value of some input pair. */
  lemma {:induction false} LastWriteValues(ps: seq<Pair>, t: int)
    requires t in LastWrite(ps)
    ensures exists j :: 0 <= j < |ps| && ps[j].t == t && ps[j].v == LastWrite(ps)[t]
  {
    if t != ps[|ps| - 1].t {
      LastWriteValues(ps[..|ps| - 1], t);
      var j :| 0 <= j < |ps| - 1 && ps[..|ps| - 1][j].t == t && ps[..|ps| - 1][j].v == LastWrite(ps[..|ps| - 1])[t];
      assert ps[j] == ps[..|ps| - 1][j];
    }
  }
}
