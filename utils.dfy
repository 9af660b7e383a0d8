/** Small helpers of irisett/utils.py: `parse_bool` and the human-readable
    duration used in alert notifications (`get_display_time`). */
module Utils {
  import opened PyText

  /** The argument of `parse_bool`: a bool or a string. */
  datatype BoolOrStr = Bool(b: bool) | Str(s: string)

  /** `parse_bool`: a bool is returned as it is; a string is true exactly
      when its lower-cased form is "true". */
  function ParseBool(x: BoolOrStr): bool {
    match x
    case Bool(b) => b
    case Str(s) => Lower(s) == "true"
  }

  lemma LowerCharIs(c: char, lo: char)
    requires 'a' <= lo <= 'z'
    ensures LowerChar(c) == lo <==> c == lo || c as int == lo as int - 32
  {
  }

  /** The strings `parse_bool` accepts are exactly the sixteen spellings of
      "true" in upper and lower case. */
  lemma ParseBoolStrings(s: string)
    ensures ParseBool(Str(s)) <==>
      |s| == 4 && s[0] in "tT" && s[1] in "rR" && s[2] in "uU" && s[3] in "eE"
  {
    var l := Lower(s);
    LowerCharIs(if |s| > 0 then s[0] else 't', 't');
    LowerCharIs(if |s| > 1 then s[1] else 'r', 'r');
    LowerCharIs(if |s| > 2 then s[2] else 'u', 'u');
    LowerCharIs(if |s| > 3 then s[3] else 'e', 'e');
    if |s| == 4 {
      assert l == "true" <==> l[0] == 't' && l[1] == 'r' && l[2] == 'u' && l[3] == 'e';
    }
  }

  /** The `intervals` table: unit names and their sizes in seconds. */
  const Intervals: seq<(string, nat)> :=
    [("weeks", 604800), ("days", 86400), ("hours", 3600), ("minutes", 60), ("seconds", 1)]

  /** An index into `Intervals`. */
  type Unit = u: nat | u < 5

  function UnitSize(u: Unit): (c: nat)
    ensures c >= 1
  {
    Intervals[u].1
  }

  /** How many of unit `u` make one of the next larger unit. */
  function Ratio(u: Unit): nat
    requires u > 0
  {
    UnitSize(u - 1) / UnitSize(u)
  }

  /** One non-zero component of a duration: `value` of unit number `unit`. */
  datatype Part = Part(value: int, unit: Unit)

  /** The components of `seconds` in units `i` onwards, largest unit first,
      as the loop of `get_display_time` produces them (zero values skipped). */
  function Parts(seconds: int, i: nat): seq<Part>
    decreases |Intervals| - i
  {
    if i >= |Intervals| then []
    else
      var c := UnitSize(i);
      var v := seconds / c;
      if v != 0 then [Part(v, i)] + Parts(seconds % c, i + 1) else Parts(seconds, i + 1)
  }

  /** Every part is non-zero and in unit `i` or a smaller one. */
  predicate NonZeroFrom(ps: seq<Part>, i: nat) {
    forall p :: p in ps ==> i <= p.unit && p.value != 0
  }

  /** Units strictly shrink (their index grows) along the list. */
  predicate LargestFirst(ps: seq<Part>) {
    forall j, k :: 0 <= j < k < |ps| ==> ps[j].unit < ps[k].unit
  }

  /** Putting a non-zero part of unit `p.unit` before parts of smaller units
      keeps the shape. */
  lemma ConsShape(p: Part, rest: seq<Part>)
    requires p.value != 0 && NonZeroFrom(rest, p.unit + 1) && LargestFirst(rest)
    ensures NonZeroFrom([p] + rest, p.unit) && LargestFirst([p] + rest)
  {
    var r := [p] + rest;
    forall j, k | 0 <= j < k < |r|
      ensures r[j].unit < r[k].unit
    {
      assert r[k] == rest[k - 1] && r[k] in rest;
      if j > 0 {
        assert r[j] == rest[j - 1];
      }
    }
  }

  /** The components are non-zero, in units `i` onwards, strictly from the
      largest unit to the smallest. */
  lemma {:induction false} PartsShape(seconds: int, i: nat)
    ensures NonZeroFrom(Parts(seconds, i), i) && LargestFirst(Parts(seconds, i))
    decreases |Intervals| - i
  {
    if i < |Intervals| {
      var c := UnitSize(i);
      var v := seconds / c;
      if v != 0 {
        PartsShape(seconds % c, i + 1);
        ConsShape(Part(v, i), Parts(seconds % c, i + 1));
      } else {
        PartsShape(seconds, i + 1);
      }
    }
  }

  /** The unit's name, with the trailing 's' removed for a value of one. */
  function UnitName(p: Part): string {
    if p.value == 1 then RStripChar(Intervals[p.unit].0, 's') else Intervals[p.unit].0
  }

  /** `"{} {}".format(value, name)` */
  function Render(p: Part): string {
    IntToString(p.value) + " " + UnitName(p)
  }

  function RenderAll(ps: seq<Part>): (r: seq<string>)
    ensures |r| == |ps|
    ensures forall k :: 0 <= k < |ps| ==> r[k] == Render(ps[k])
  {
    if |ps| == 0 then [] else [Render(ps[0])] + RenderAll(ps[1..])
  }

  /** Python's slice `s[:n]`, including a negative `n`. */
  function PyPrefix<T>(s: seq<T>, n: int): (r: seq<T>)
    ensures |r| <= |s| && r == s[..|r|]
    ensures n >= 0 ==> |r| == if n < |s| then n else |s|
    ensures n < 0 ==> |r| == if |s| + n > 0 then |s| + n else 0
  {
    if n >= 0 then (if n < |s| then s[..n] else s)
    else (if |s| + n > 0 then s[..|s| + n] else [])
  }

  /** Sum of value times unit size over a list of parts. */
  function Total(ps: seq<Part>): int {
    if |ps| == 0 then 0 else ps[0].value * UnitSize(ps[0].unit) + Total(ps[1..])
  }

  lemma DivMod(a: int, c: int)
    requires c > 0
    ensures (a / c) * c + a % c == a
  {
  }

  /** The components add back up to the whole number of seconds. */
  lemma {:induction false} PartsTotal(seconds: int, i: nat)
    requires i < |Intervals|
    ensures Total(Parts(seconds, i)) == seconds
    decreases |Intervals| - i
  {
    var c := UnitSize(i);
    var v := seconds / c;
    var m := seconds % c;
    DivMod(seconds, c);
    if i + 1 < |Intervals| {
      if v != 0 {
        PartsTotal(m, i + 1);
        var r := Parts(seconds, i);
        assert r == [Part(v, i)] + Parts(m, i + 1);
        assert r[1..] == Parts(m, i + 1);
        assert Total(r) == v * c + m;
      } else {
        PartsTotal(seconds, i + 1);
      }
    } else {
      assert c == 1 && v == seconds;
    }
  }

  /** From a remainder below the size of unit `i - 1` on, every component
      is positive and below the ratio of its unit to the next larger one. */
  lemma {:induction false} PartsBoundedFrom(seconds: int, i: nat)
    requires 0 < i <= |Intervals|
    requires 0 <= seconds < UnitSize(i - 1)
    ensures forall p :: p in Parts(seconds, i) ==> p.unit > 0 && 0 < p.value < Ratio(p.unit)
    decreases |Intervals| - i
  {
    if i < |Intervals| {
      var c := UnitSize(i);
      var v := seconds / c;
      if i == 1 {
        assert c == 86400 && UnitSize(0) == 604800 && Ratio(1) == 7;
      } else if i == 2 {
        assert c == 3600 && UnitSize(1) == 86400 && Ratio(2) == 24;
      } else if i == 3 {
        assert c == 60 && UnitSize(2) == 3600 && Ratio(3) == 60;
      } else {
        assert c == 1 && UnitSize(3) == 60 && Ratio(4) == 60;
      }
      assert 0 <= v < Ratio(i);
      if v != 0 {
        PartsBoundedFrom(seconds % c, i + 1);
      } else {
        PartsBoundedFrom(seconds, i + 1);
      }
    }
  }

  /** Days stay below 7, hours below 24, minutes and seconds below 60 (for
      every input, as `//` floors); only the week count is unbounded. */
  lemma PartsBounded(seconds: int)
    ensures forall p :: p in Parts(seconds, 0) && p.unit > 0 ==> 0 < p.value < Ratio(p.unit)
  {
    var c := UnitSize(0);
    var v := seconds / c;
    if v != 0 {
      PartsBoundedFrom(seconds % c, 1);
    } else {
      PartsBoundedFrom(seconds, 1);
    }
  }

  /** A duration of zero has no components, so it displays as "". */
  lemma ZeroHasNoParts()
    ensures Parts(0, 0) == []
  {
    assert Parts(0, 5) == [];
    assert Parts(0, 4) == [];
    assert Parts(0, 3) == [];
    assert Parts(0, 2) == [];
    assert Parts(0, 1) == [];
  }

  /** One round of the loop of `get_display_time`: with `value` and `rest`
      as the loop computes them, the remaining components are either
      `value` of unit `i` followed by those of `rest`, or those of the next
      unit. */
  lemma TakePart(done: seq<Part>, secs: int, i: Unit, value: int, rest: int)
    requires value == secs / Intervals[i].1
    requires rest == secs - value * Intervals[i].1
    ensures value != 0 ==> done + Parts(secs, i) == (done + [Part(value, i)]) + Parts(rest, i + 1)
    ensures value == 0 ==> done + Parts(secs, i) == done + Parts(secs, i + 1)
  {
    assert rest == secs % Intervals[i].1;
  }

  lemma RenderAllSnoc(ps: seq<Part>, p: Part)
    ensures RenderAll(ps + [p]) == RenderAll(ps) + [Render(p)]
  {
  }

  /** The text of one component as the loop of `get_display_time` builds it:
      the unit's name, singular for a value of one, after the value. */
  method RenderPart(value: int, i: Unit) returns (text: string)
    ensures text == Render(Part(value, i))
  {
    var name := Intervals[i].0;
    if value == 1 {
      name := RStripChar(name, 's');
    }
    text := IntToString(value) + " " + name;
  }

  /** `get_display_time(seconds, granularity)` for the whole number of seconds
      (`int(seconds)`): the first `granularity` components, joined by ", ". */
  method GetDisplayTime(seconds: int, granularity: int) returns (r: string)
    ensures r == Join(PyPrefix(RenderAll(Parts(seconds, 0)), granularity), ", ")
  {
    var result: seq<string> := [];
    ghost var done: seq<Part> := [];
    var secs := seconds;
    for i := 0 to |Intervals|
      invariant done + Parts(secs, i) == Parts(seconds, 0)
      invariant result == RenderAll(done)
    {
      var count := Intervals[i].1;
      var value := secs / count;
      var rest := secs - value * count;
      TakePart(done, secs, i, value, rest);
      if value != 0 {
        secs := rest;
        var text := RenderPart(value, i);
        RenderAllSnoc(done, Part(value, i));
        result := result + [text];
        done := done + [Part(value, i)];
      }
    }
    assert done + [] == done;
    r := Join(PyPrefix(result, granularity), ", ");
  }

  /** The display of zero seconds is the empty string, whatever the
      granularity. */
  method DisplayOfZero(granularity: int) returns (r: string)
    ensures r == ""
  {
    ZeroHasNoParts();
    r := GetDisplayTime(0, granularity);
  }
}
