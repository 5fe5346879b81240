/** The empty-furnace baseline (class Furnace): its curves padded at both ends,
    a smoothing spline fitted to each, and the correction that subtracts the
    matching spline from a sample's curves. Splines are functions
    `real -> real`; fitting one is the parameter `fit`. */
module FurnaceBaseline {
  import opened Curves
  import CurFile

  /** The smoothing factor Furnace uses when the caller gives none. */
  const DefaultSmoothing: real := 100.0

  /** A fitted furnace baseline: the padded heating and cooling data and the
      spline fitted to each. Nothing changes it after construction. */
  datatype Furnace = Furnace(heatData: Curve, coolData: Curve, heatSpline: real -> real, coolSpline: real -> real)

  /** The curve with two points removed from each end. */
  function Trimmed(c: Curve): Curve
    requires |c.temps| >= 4 && |c.ms| >= 4
  {
    Curve(c.temps[2..|c.temps| - 2], c.ms[2..|c.ms| - 2])
  }

  /** Furnace.extend_data: two synthetic points 20 and 10 degrees before the
      first reading carrying its value, and two 10 and 20 degrees after the
      last carrying its value. An empty array raises IndexError. */
  function ExtendData(c: Curve): (r: Result<Curve>)
    ensures r.Ok? <==> |c.temps| > 0 && |c.ms| > 0
    ensures r.Ok? ==>
      var t, m := r.value.temps, r.value.ms;
      && |t| == |c.temps| + 4 && |m| == |c.ms| + 4
      && Trimmed(r.value) == c
      && t[0] == c.temps[0] - 20.0 && t[1] == c.temps[0] - 10.0
      && t[|t| - 2] == c.temps[|c.temps| - 1] + 10.0 && t[|t| - 1] == c.temps[|c.temps| - 1] + 20.0
      && m[0] == m[1] == c.ms[0]
      && m[|m| - 2] == m[|m| - 1] == c.ms[|c.ms| - 1]
  {
    if |c.temps| == 0 || |c.ms| == 0 then Err(IndexError)
    else
      var first, last := c.temps[0], c.temps[|c.temps| - 1];
      var r := Curve([first - 20.0, first - 10.0] + c.temps + [last + 10.0, last + 20.0],
                     [c.ms[0], c.ms[0]] + c.ms + [c.ms[|c.ms| - 1], c.ms[|c.ms| - 1]]);
      assert Trimmed(r).temps == c.temps;
      assert Trimmed(r).ms == c.ms;
      Ok(r)
  }

  /** Padding keeps the temperatures strictly increasing, as the spline fit
      needs them. */
  lemma PaddedInterior(c: Curve, k: nat)
    requires |c.temps| > 0 && |c.ms| > 0
    requires StrictlyIncreasing(c.temps)
    requires 2 <= k < |c.temps| + 2
    ensures var t := ExtendData(c).value.temps;
      t[k] == c.temps[k - 2] && c.temps[0] <= t[k] <= c.temps[|c.temps| - 1]
  {
    var n := |c.temps|;
    assert ExtendData(c).value.temps[k] == Trimmed(ExtendData(c).value).temps[k - 2];
    if k - 2 > 0 { assert c.temps[0] < c.temps[k - 2]; }
    if k - 2 < n - 1 { assert c.temps[k - 2] < c.temps[n - 1]; }
  }

  lemma ExtendDataKeepsIncreasing(c: Curve)
    requires |c.temps| > 0 && |c.ms| > 0
    requires StrictlyIncreasing(c.temps)
    ensures StrictlyIncreasing(ExtendData(c).value.temps)
  {
    var t := ExtendData(c).value.temps;
    var n := |c.temps|;
    forall i, j | 0 <= i < j < |t|
      ensures t[i] < t[j]
    {
      if 2 <= i < n + 2 { PaddedInterior(c, i); }
      if 2 <= j < n + 2 { PaddedInterior(c, j); }
    }
  }

  /** The case of test_extend_data in tests/test_furnace.py. */
  lemma ExtendDataExample()
    ensures ExtendData(Curve([30.0, 40.0, 50.0, 60.0], [21.0, 22.0, 23.0, 24.0]))
         == Ok(Curve([10.0, 20.0, 30.0, 40.0, 50.0, 60.0, 70.0, 80.0],
                     [21.0, 21.0, 21.0, 22.0, 23.0, 24.0, 24.0, 24.0]))
  {
    var c := Curve([30.0, 40.0, 50.0, 60.0], [21.0, 22.0, 23.0, 24.0]);
    assert [30.0 - 20.0, 30.0 - 10.0] + c.temps + [60.0 + 10.0, 60.0 + 20.0]
        == [10.0, 20.0, 30.0, 40.0, 50.0, 60.0, 70.0, 80.0];
    assert [21.0, 21.0] + c.ms + [24.0, 24.0] == [21.0, 21.0, 21.0, 22.0, 23.0, 24.0, 24.0, 24.0];
  }

  /** What correct_with_spline returns: the temperatures as given and an array
      shaped like the values, holding value minus spline at each temperature
      (and zero past the last temperature); IndexError when there are more
      temperatures than values. */
  function Corrected(c: Curve, spline: real -> real): (r: Result<Curve>)
    ensures r.Ok? <==> |c.temps| <= |c.ms|
    ensures r.Ok? ==>
      && r.value.temps == c.temps
      && |r.value.ms| == |c.ms|
      && (forall i :: 0 <= i < |c.temps| ==> r.value.ms[i] == c.ms[i] - spline(c.temps[i]))
      && (forall i :: |c.temps| <= i < |c.ms| ==> r.value.ms[i] == 0.0)
  {
    if |c.temps| > |c.ms| then Err(IndexError)
    else Ok(Curve(c.temps, seq(|c.ms|, i requires 0 <= i < |c.ms| =>
                                 if i < |c.temps| then c.ms[i] - spline(c.temps[i]) else 0.0)))
  }

  /** Correcting a curve and then correcting it with the negated spline gives
      the curve back: the correction loses nothing. */
  lemma CorrectedUndone(c: Curve, spline: real -> real)
    requires c.WellFormed()
    ensures Corrected(Corrected(c, spline).value, x => -spline(x)) == Ok(c)
  {
    var once := Corrected(c, spline).value;
    var twice := Corrected(once, x => -spline(x)).value;
    forall i | 0 <= i < |c.ms|
      ensures twice.ms[i] == c.ms[i]
    {
      assert twice.ms[i] == once.ms[i] - (-spline(c.temps[i]));
    }
    assert twice.ms == c.ms;
  }

  /** Two corrections in a row are one correction by the sum of the splines. */
  lemma CorrectedTwice(c: Curve, s1: real -> real, s2: real -> real)
    requires c.WellFormed()
    ensures Corrected(Corrected(c, s1).value, s2) == Corrected(c, x => s1(x) + s2(x))
  {
    var a := Corrected(Corrected(c, s1).value, s2).value;
    var b := Corrected(c, x => s1(x) + s2(x)).value;
    forall i | 0 <= i < |c.ms|
      ensures a.ms[i] == b.ms[i]
    {
      assert a.ms[i] == (c.ms[i] - s1(c.temps[i])) - s2(c.temps[i]);
    }
    assert a.ms == b.ms;
  }

  /** The case of test_correct_with_spline in tests/test_furnace.py, with a
      spline that maps 30, 40, 50, 60 to 5, 4, 3, 2. */
  lemma CorrectedExample(spline: real -> real)
    requires spline(30.0) == 5.0 && spline(40.0) == 4.0 && spline(50.0) == 3.0 && spline(60.0) == 2.0
    ensures Corrected(Curve([30.0, 40.0, 50.0, 60.0], [21.0, 22.0, 23.0, 24.0]), spline)
         == Ok(Curve([30.0, 40.0, 50.0, 60.0], [16.0, 18.0, 20.0, 22.0]))
  {
    var r := Corrected(Curve([30.0, 40.0, 50.0, 60.0], [21.0, 22.0, 23.0, 24.0]), spline).value;
    assert r.ms == [16.0, 18.0, 20.0, 22.0];
  }

  /** Furnace.correct_with_spline: fills a zeroed array index by index. */
  method CorrectWithSpline(temps: seq<real>, mss: seq<real>, spline: real -> real) returns (r: Result<Curve>)
    ensures r == Corrected(Curve(temps, mss), spline)
  {
    var corrected := new real[|mss|](_ => 0.0);
    for i := 0 to |temps|
      invariant i <= |mss|
      invariant forall j :: 0 <= j < i ==> corrected[j] == mss[j] - spline(temps[j])
      invariant forall j :: i <= j < |mss| ==> corrected[j] == 0.0
    {
      if i >= |mss| {
        return Err(IndexError);
      }
      corrected[i] := mss[i] - spline(temps[i]);
    }
    ghost var want := Corrected(Curve(temps, mss), spline).value.ms;
    forall j | 0 <= j < |mss|
      ensures corrected[..][j] == want[j]
    {
      if j < |temps| {
        assert want[j] == mss[j] - spline(temps[j]);
      } else {
        assert want[j] == 0.0;
      }
    }
    assert corrected[..] == want;
    r := Ok(Curve(temps, corrected[..]));
  }

  /** What Furnace.correct returns: the heating curve corrected with the
      heating spline, the cooling curve with the cooling spline. */
  function CorrectedPair(f: Furnace, heating: Curve, cooling: Curve): (r: Result<CurvePair>)
    ensures r.Ok? <==> |heating.temps| <= |heating.ms| && |cooling.temps| <= |cooling.ms|
    ensures r.Ok? ==>
      && Ok(r.value.heating) == Corrected(heating, f.heatSpline)
      && Ok(r.value.cooling) == Corrected(cooling, f.coolSpline)
  {
    match Corrected(heating, f.heatSpline)
    case Err(e) => Err(e)
    case Ok(h) =>
      match Corrected(cooling, f.coolSpline)
      case Err(e) => Err(e)
      case Ok(c) => Ok(CurvePair(h, c))
  }

  /** Furnace.correct. */
  method Correct(f: Furnace, heating: Curve, cooling: Curve) returns (r: Result<CurvePair>)
    ensures r == CorrectedPair(f, heating, cooling)
  {
    var h := CorrectWithSpline(heating.temps, heating.ms, f.heatSpline);
    if h.Err? {
      return Err(h.error);
    }
    var c := CorrectWithSpline(cooling.temps, cooling.ms, f.coolSpline);
    if c.Err? {
      return Err(c.error);
    }
    r := Ok(CurvePair(h.value, c.value));
  }

  /** The furnace built from parsed curves: each padded, then a spline fitted
      to each padded curve with the given smoothing. */
  function FromCurves(parsed: CurvePair, fit: (Curve, real) -> (real -> real), smoothing: real): (r: Result<Furnace>)
    ensures r.Ok? <==>
      |parsed.heating.temps| > 0 && |parsed.heating.ms| > 0 && |parsed.cooling.temps| > 0 && |parsed.cooling.ms| > 0
    ensures r.Ok? ==>
      && Ok(r.value.heatData) == ExtendData(parsed.heating)
      && Ok(r.value.coolData) == ExtendData(parsed.cooling)
      && r.value.heatSpline == fit(r.value.heatData, smoothing)
      && r.value.coolSpline == fit(r.value.coolData, smoothing)
  {
    match ExtendData(parsed.heating)
    case Err(e) => Err(e)
    case Ok(heat) =>
      match ExtendData(parsed.cooling)
      case Err(e) => Err(e)
      case Ok(cool) => Ok(Furnace(heat, cool, fit(heat, smoothing), fit(cool, smoothing)))
  }

  /** The furnace the Furnace constructor builds from a file, or the error it raises. */
  function FurnaceOf(lines: seq<string>, decode: string -> Option<real>, fit: (Curve, real) -> (real -> real), smoothing: real): Result<Furnace>
  {
    match CurFile.ReadCur(lines, decode)
    case Err(e) => Err(e)
    case Ok(parsed) => FromCurves(parsed, fit, smoothing)
  }

  /** Furnace.__init__: read the file, pad both curves, fit both splines. */
  method NewFurnace(lines: seq<string>, decode: string -> Option<real>, fit: (Curve, real) -> (real -> real), smoothing: real)
    returns (r: Result<Furnace>)
    ensures r == FurnaceOf(lines, decode, fit, smoothing)
  {
    var parsed := CurFile.ReadCurFile(lines, decode);
    if parsed.Err? {
      return Err(parsed.error);
    }
    r := FromCurves(parsed.value, fit, smoothing);
  }

  /** Furnace(filename) without a smoothing argument: the default 100. */
  method NewFurnaceDefault(lines: seq<string>, decode: string -> Option<real>, fit: (Curve, real) -> (real -> real))
    returns (r: Result<Furnace>)
    ensures r == FurnaceOf(lines, decode, fit, DefaultSmoothing)
  {
    r := NewFurnace(lines, decode, fit, DefaultSmoothing);
  }
}
