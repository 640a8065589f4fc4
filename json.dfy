// The values that json.loads hands to the dataset builder, and the few
// Python built-ins (int() on a float, dict lookup, str.strip(), str.lower(),
// max()) that the scripts apply to them.

module JsonValue {

  datatype Option<+T> = None | Some(value: T)

  /** A failure-compatible result, so that a chain of steps can be written with `:-`. */
  datatype Result<+T, +E> = Ok(value: T) | Err(error: E) {
    predicate IsFailure() { Err? }
    function PropagateFailure<U>(): Result<U, E>
      requires Err?
    {
      Err(error)
    }
    function Extract(): T
      requires Ok?
    {
      value
    }
  }

  /** A parsed JSON document: null, a number (int or float), a string, a list
      or an object. An object is a dict in insertion order; json.loads has
      already merged duplicate keys, so keys are taken to be distinct. */
  datatype Json =
    | Null
    | Num(n: real)
    | Str(s: string)
    | Arr(items: seq<Json>)
    | Obj(fields: seq<Field>)

  datatype Field = Field(key: string, val: Json)

  /** Python's int() applied to a float: truncation toward zero. */
  function Trunc(x: real): (r: int)
    ensures 0.0 <= x ==> r as real <= x < r as real + 1.0
    ensures x < 0.0 ==> r as real - 1.0 < x <= r as real
  {
    if 0.0 <= x then x.Floor else -((-x).Floor)
  }

  /** `k in o` / `o[k]` on a dict. */
  function Lookup(fields: seq<Field>, k: string): (r: Option<Json>)
    ensures r.None? <==> forall i :: 0 <= i < |fields| ==> fields[i].key != k
    ensures r.Some? ==> exists i :: 0 <= i < |fields| && fields[i].key == k && fields[i].val == r.value
  {
    if |fields| == 0 then None
    else if fields[0].key == k then Some(fields[0].val)
    else Lookup(fields[1..], k)
  }

  predicate IsSpace(c: char) {
    c == ' ' || c == '\t' || c == '\n' || c == '\r' || c == '\U{B}' || c == '\U{C}'
  }

  /** True when `s.strip()` is the empty string. */
  predicate IsBlank(s: string) {
    forall i :: 0 <= i < |s| ==> IsSpace(s[i])
  }

  function ToLowerChar(c: char): char {
    if 'A' <= c <= 'Z' then (c as int + 32) as char else c
  }

  /** `s.lower()`, on the ASCII letters. */
  function ToLower(s: string): (r: string)
    ensures |r| == |s|
    ensures forall i :: 0 <= i < |s| ==> r[i] == ToLowerChar(s[i])
  {
    seq(|s|, i requires 0 <= i < |s| => ToLowerChar(s[i]))
  }

  /** `sub in s` for strings. */
  predicate Contains(s: string, sub: string)
    decreases |s|
  {
    StartsWith(s, sub) || (|s| > 0 && Contains(s[1..], sub))
  }

  predicate StartsWith(s: string, prefix: string) {
    |prefix| <= |s| && s[..|prefix|] == prefix
  }

  predicate EndsWith(s: string, suffix: string) {
    |suffix| <= |s| && s[|s| - |suffix|..] == suffix
  }

  /** Python's max() on a non-empty list of integers. */
  function MaxOf(xs: seq<int>): (m: int)
    requires |xs| > 0
    ensures forall i :: 0 <= i < |xs| ==> xs[i] <= m
    ensures exists i :: 0 <= i < |xs| && xs[i] == m
  {
    if |xs| == 1 then xs[0]
    else
      var m := MaxOf(xs[..|xs| - 1]);
      assert forall i :: 0 <= i < |xs| - 1 ==> xs[..|xs| - 1][i] == xs[i];
      if xs[|xs| - 1] > m then xs[|xs| - 1] else m
  }

  /** Counting the indices below n + 1 that satisfy f: those below n, and n
      itself when it satisfies f. */
  lemma CountStep(n: nat, f: int -> bool)
    ensures |set i | 0 <= i < n + 1 && f(i)| == |set i | 0 <= i < n && f(i)| + (if f(n) then 1 else 0)
  {
    var below := set i | 0 <= i < n && f(i);
    if f(n) {
      assert (set i | 0 <= i < n + 1 && f(i)) == below + {n};
    } else {
      assert (set i | 0 <= i < n + 1 && f(i)) == below;
    }
  }
}
