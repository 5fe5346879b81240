/** Shared data model: curves as parallel temperature / susceptibility sequences,
    the error kinds the Python code raises, and the small sequence operations
    (Python slicing, list reversal, min) the rest of the model is built from. */
module Curves {

  /** One (temperature, magnetic susceptibility) reading. */
  datatype Reading = Reading(temp: real, ms: real)

  /** A curve as the source stores it: a tuple of two parallel arrays. Nothing
      forces the two to have the same length; WellFormed says when they do. */
  datatype Curve = Curve(temps: seq<real>, ms: seq<real>)
  {
    predicate WellFormed() { |temps| == |ms| }
  }

  /** The (heating, cooling) pair of one thermal cycle. */
  datatype CurvePair = CurvePair(heating: Curve, cooling: Curve)

  /** The exceptions the modelled code can raise. */
  datatype Error =
    | ParseError(line: nat)   // ValueError from float() or from unpacking a data line
    | IndexError              // an element read past the end of a list or array
    | ZeroDivisionError       // nom_vol / real_vol with real_vol == 0
    | KeyError(key: int)      // a missing dictionary key
    | EmptyMin                // ValueError: min() of an empty sequence

  datatype Result<T> = Ok(value: T) | Err(error: Error)

  datatype Outcome = Pass | Fail(error: Error)

  datatype Option<T> = None | Some(value: T)

  /** The readings of a curve, index by index, as zip(temps, ms) gives them. */
  function Zip(c: Curve): (rs: seq<Reading>)
    ensures |rs| == if |c.temps| <= |c.ms| then |c.temps| else |c.ms|
    ensures forall i :: 0 <= i < |rs| ==> rs[i] == Reading(c.temps[i], c.ms[i])
  {
    var n := if |c.temps| <= |c.ms| then |c.temps| else |c.ms|;
    seq(n, i requires 0 <= i < n => Reading(c.temps[i], c.ms[i]))
  }

  /** The curve whose arrays are the temperatures and values of the readings. */
  function CurveOf(rs: seq<Reading>): (c: Curve)
    ensures c.WellFormed() && |c.temps| == |rs|
    ensures forall i :: 0 <= i < |rs| ==> c.temps[i] == rs[i].temp && c.ms[i] == rs[i].ms
  {
    Curve(seq(|rs|, i requires 0 <= i < |rs| => rs[i].temp),
          seq(|rs|, i requires 0 <= i < |rs| => rs[i].ms))
  }

  /** The curve with one more reading at its end. */
  function Append(c: Curve, r: Reading): Curve
  {
    Curve(c.temps + [r.temp], c.ms + [r.ms])
  }

  lemma CurveOfSnoc(rs: seq<Reading>, r: Reading)
    ensures CurveOf(rs + [r]) == Append(CurveOf(rs), r)
  {
  }

  /** Python's s[1:]: everything but the first element; empty stays empty. */
  function DropFirst<T>(s: seq<T>): (r: seq<T>)
    ensures |s| == 0 ==> r == []
    ensures |s| > 0 ==> |r| == |s| - 1 && forall i :: 0 <= i < |r| ==> r[i] == s[i + 1]
  {
    if |s| == 0 then [] else s[1..]
  }

  /** Python's s[-5:]: the last five elements, or all of them when there are fewer. */
  function LastFive<T>(s: seq<T>): (r: seq<T>)
    ensures |r| == if |s| < 5 then |s| else 5
    ensures forall i :: 0 <= i < |r| ==> r[i] == s[|s| - |r| + i]
  {
    if |s| <= 5 then s else s[|s| - 5..]
  }

  /** list.reverse(). */
  function Reverse<T>(s: seq<T>): (r: seq<T>)
    ensures |r| == |s|
    ensures forall i :: 0 <= i < |s| ==> r[i] == s[|s| - 1 - i]
  {
    seq(|s|, i requires 0 <= i < |s| => s[|s| - 1 - i])
  }

  lemma ReverseReverse<T>(s: seq<T>)
    ensures Reverse(Reverse(s)) == s
  {
  }

  predicate StrictlyIncreasing(s: seq<real>)
  {
    forall i, j :: 0 <= i < j < |s| ==> s[i] < s[j]
  }

  predicate StrictlyDecreasing(s: seq<real>)
  {
    forall i, j :: 0 <= i < j < |s| ==> s[i] > s[j]
  }

  lemma ReverseOfDecreasing(s: seq<real>)
    requires StrictlyDecreasing(s)
    ensures StrictlyIncreasing(Reverse(s))
  {
    var r := Reverse(s);
    forall i, j | 0 <= i < j < |r|
      ensures r[i] < r[j]
    {
      assert r[i] == s[|s| - 1 - i] && r[j] == s[|s| - 1 - j];
    }
  }

  /** Python's min() on a non-empty sequence of numbers. */
  function Min(s: seq<real>): (m: real)
    requires |s| > 0
    ensures m in s
    ensures forall i :: 0 <= i < |s| ==> m <= s[i]
  {
    if |s| == 1 then s[0]
    else
      var rest := Min(s[1..]);
      if s[0] <= rest then s[0] else rest
  }

  /** The minimum is the only element that is in s and below all of s. */
  lemma MinUnique(s: seq<real>, m: real)
    requires |s| > 0 && m in s
    requires forall i :: 0 <= i < |s| ==> m <= s[i]
    ensures m == Min(s)
  {
  }

  /** [d * k for d in s] */
  function Scaled(s: seq<real>, k: real): (r: seq<real>)
    ensures |r| == |s| && forall i :: 0 <= i < |s| ==> r[i] == s[i] * k
  {
    seq(|s|, i requires 0 <= i < |s| => s[i] * k)
  }

  /** [m + d for m in s] */
  function Shifted(s: seq<real>, d: real): (r: seq<real>)
    ensures |r| == |s| && forall i :: 0 <= i < |s| ==> r[i] == s[i] + d
  {
    seq(|s|, i requires 0 <= i < |s| => s[i] + d)
  }

  lemma ShiftedMin(s: seq<real>, d: real)
    requires |s| > 0
    ensures Min(Shifted(s, d)) == Min(s) + d
  {
    var t := Shifted(s, d);
    var k :| 0 <= k < |s| && s[k] == Min(s);
    assert t[k] == Min(s) + d;
    MinUnique(t, Min(s) + d);
  }

  lemma ScaledTwice(s: seq<real>, a: real, b: real)
    ensures Scaled(Scaled(s, a), b) == Scaled(s, a * b)
  {
    forall i | 0 <= i < |s|
      ensures Scaled(Scaled(s, a), b)[i] == Scaled(s, a * b)[i]
    {
      assert (s[i] * a) * b == s[i] * (a * b);
    }
  }

  lemma ShiftedLastFive(s: seq<real>, d: real)
    ensures LastFive(Shifted(s, d)) == Shifted(LastFive(s), d)
  {
    var a, b := LastFive(Shifted(s, d)), Shifted(LastFive(s), d);
    forall i | 0 <= i < |a| ensures a[i] == b[i] {
      assert a[i] == Shifted(s, d)[|s| - |a| + i];
    }
  }
}
