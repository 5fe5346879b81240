/** One heating-cooling run of a sample (class MeasurementCycle): its
    construction from a file (parse, furnace correction, volume
    normalisation) and the curve transforms chop_data, correct_for_volume and
    shunt_up. */
module MeasurementCycles {
  import opened Curves
  import CurFile
  import opened FurnaceBaseline

  /** A MeasurementCycle object: the shared furnace (if any), the two volumes,
      and the corrected (heating, cooling) data. Its fields are only set by
      the constructor. */
  datatype MeasurementCycle = MeasurementCycle(furnace: Option<Furnace>, realVol: real, nomVol: real, data: CurvePair)

  // ---------------------------------------------------------------------
  // correct_for_volume
  // ---------------------------------------------------------------------

  /** correct_for_volume: every value times nom_vol / real_vol; a zero real
      volume raises ZeroDivisionError before any value is looked at. */
  function CorrectForVolume(nomVol: real, realVol: real, data: seq<real>): (r: Result<seq<real>>)
    ensures r.Ok? <==> realVol != 0.0
    ensures r.Ok? ==> |r.value| == |data| && forall i :: 0 <= i < |data| ==> r.value[i] == nomVol / realVol * data[i]
  {
    if realVol == 0.0 then Err(ZeroDivisionError)
    else
      var scale := nomVol / realVol;
      Ok(seq(|data|, i requires 0 <= i < |data| => scale * data[i]))
  }

  /** Normalising to the nominal volume and back to the real one restores
      the data. */
  lemma VolumeRoundTrip(nomVol: real, realVol: real, data: seq<real>)
    requires nomVol != 0.0 && realVol != 0.0
    ensures CorrectForVolume(realVol, nomVol, CorrectForVolume(nomVol, realVol, data).value) == Ok(data)
  {
    var there := CorrectForVolume(nomVol, realVol, data).value;
    var back := CorrectForVolume(realVol, nomVol, there).value;
    forall i | 0 <= i < |data|
      ensures back[i] == data[i]
    {
      calc {
        back[i];
        realVol / nomVol * (nomVol / realVol * data[i]);
        (realVol / nomVol * (nomVol / realVol)) * data[i];
        { assert realVol / nomVol * (nomVol / realVol) == 1.0; }
        data[i];
      }
    }
    assert back == data;
  }

  // ---------------------------------------------------------------------
  // The constructor, on parsed data
  // ---------------------------------------------------------------------

  /** The data the constructor stores for parsed curves: corrected with the
      furnace when there is one, then both curves' values normalised for
      volume. */
  function CycleData(furnace: Option<Furnace>, parsed: CurvePair, realVol: real, nomVol: real): Result<CurvePair>
  {
    var corrected :=
      if furnace.Some? then CorrectedPair(furnace.value, parsed.heating, parsed.cooling) else Ok(parsed);
    match corrected
    case Err(e) => Err(e)
    case Ok(pair) =>
      match CorrectForVolume(nomVol, realVol, pair.heating.ms)
      case Err(e) => Err(e)
      case Ok(heatMs) =>
        match CorrectForVolume(nomVol, realVol, pair.cooling.ms)
        case Err(e) => Err(e)
        case Ok(coolMs) => Ok(CurvePair(Curve(pair.heating.temps, heatMs), Curve(pair.cooling.temps, coolMs)))
  }

  /** What the constructor computes, point by point, for well-formed parsed
      curves: the temperatures are kept, and each value becomes (value minus
      the matching furnace spline at its temperature) times nom_vol / real_vol,
      or just value times nom_vol / real_vol without a furnace. A zero real volume
      is the only failure. */
  lemma CycleDataPointwise(furnace: Option<Furnace>, parsed: CurvePair, realVol: real, nomVol: real)
    requires parsed.heating.WellFormed() && parsed.cooling.WellFormed()
    ensures var r := CycleData(furnace, parsed, realVol, nomVol);
      && (r.Ok? <==> realVol != 0.0)
      && (r.Ok? ==>
        && r.value.heating.temps == parsed.heating.temps
        && r.value.cooling.temps == parsed.cooling.temps
        && r.value.heating.WellFormed() && r.value.cooling.WellFormed()
        && (forall i :: 0 <= i < |parsed.heating.ms| ==>
              r.value.heating.ms[i] == nomVol / realVol *
                (if furnace.Some? then parsed.heating.ms[i] - furnace.value.heatSpline(parsed.heating.temps[i])
                 else parsed.heating.ms[i]))
        && (forall i :: 0 <= i < |parsed.cooling.ms| ==>
              r.value.cooling.ms[i] == nomVol / realVol *
                (if furnace.Some? then parsed.cooling.ms[i] - furnace.value.coolSpline(parsed.cooling.temps[i])
                 else parsed.cooling.ms[i])))
  {
    if furnace.Some? {
      var c := CorrectedPair(furnace.value, parsed.heating, parsed.cooling);
      assert c.Ok?;
    }
  }

  /** What MeasurementCycle(furnace, filename, real_vol, nom_vol) builds from
      the lines of the file, or the error it raises. */
  function CycleOf(furnace: Option<Furnace>, lines: seq<string>, decode: string -> Option<real>, realVol: real, nomVol: real)
    : Result<CurvePair>
  {
    match CurFile.ReadCur(lines, decode)
    case Err(e) => Err(e)
    case Ok(parsed) => CycleData(furnace, parsed, realVol, nomVol)
  }

  /** MeasurementCycle.__init__. */
  method NewCycle(furnace: Option<Furnace>, lines: seq<string>, decode: string -> Option<real>, realVol: real, nomVol: real)
    returns (r: Result<MeasurementCycle>)
    ensures r.Ok? <==> CycleOf(furnace, lines, decode, realVol, nomVol).Ok?
    ensures r.Ok? ==> r.value == MeasurementCycle(furnace, realVol, nomVol, CycleOf(furnace, lines, decode, realVol, nomVol).value)
    ensures r.Err? ==> r.error == CycleOf(furnace, lines, decode, realVol, nomVol).error
  {
    var parsed := CurFile.ReadCurFile(lines, decode);
    if parsed.Err? {
      return Err(parsed.error);
    }
    var heating, cooling := parsed.value.heating, parsed.value.cooling;
    if furnace.Some? {
      var corrected := Correct(furnace.value, heating, cooling);
      if corrected.Err? {
        return Err(corrected.error);
      }
      heating, cooling := corrected.value.heating, corrected.value.cooling;
    }
    var heatMs := CorrectForVolume(nomVol, realVol, heating.ms);
    if heatMs.Err? {
      return Err(heatMs.error);
    }
    var coolMs := CorrectForVolume(nomVol, realVol, cooling.ms);
    r := Ok(MeasurementCycle(furnace, realVol, nomVol,
                             CurvePair(Curve(heating.temps, heatMs.value), Curve(cooling.temps, coolMs.value))));
  }

  // ---------------------------------------------------------------------
  // chop_data
  // ---------------------------------------------------------------------

  predicate InRange(t: real, minTemp: real, maxTemp: real)
  {
    minTemp <= t <= maxTemp
  }

  /** The reference definition: the readings whose temperature lies in
      [minTemp, maxTemp], in their original order. */
  function Filter(rs: seq<Reading>, minTemp: real, maxTemp: real): seq<Reading>
  {
    if rs == [] then []
    else (if InRange(rs[0].temp, minTemp, maxTemp) then [rs[0]] else []) + Filter(rs[1..], minTemp, maxTemp)
  }

  /** Filtering distributes over concatenation: nothing is reordered. */
  lemma {:induction false} FilterAppend(a: seq<Reading>, b: seq<Reading>, minTemp: real, maxTemp: real)
    ensures Filter(a + b, minTemp, maxTemp) == Filter(a, minTemp, maxTemp) + Filter(b, minTemp, maxTemp)
  {
    if a == [] {
      assert a + b == b;
    } else {
      var head := if InRange(a[0].temp, minTemp, maxTemp) then [a[0]] else [];
      var rest, fb := Filter(a[1..], minTemp, maxTemp), Filter(b, minTemp, maxTemp);
      calc {
        Filter(a + b, minTemp, maxTemp);
      == { assert (a + b)[0] == a[0]; assert (a + b)[1..] == a[1..] + b; }
        head + Filter(a[1..] + b, minTemp, maxTemp);
      == { FilterAppend(a[1..], b, minTemp, maxTemp); }
        head + (rest + fb);
      == { assert head + (rest + fb) == (head + rest) + fb; }
        Filter(a, minTemp, maxTemp) + fb;
      }
    }
  }

  /** A reading survives exactly when it is an input reading in the range. */
  lemma {:induction false} FilterMembers(rs: seq<Reading>, minTemp: real, maxTemp: real, x: Reading)
    ensures x in Filter(rs, minTemp, maxTemp) <==> x in rs && InRange(x.temp, minTemp, maxTemp)
  {
    if rs != [] {
      FilterMembers(rs[1..], minTemp, maxTemp, x);
      assert rs == [rs[0]] + rs[1..];
    }
  }

  /** Filtering with one range and then another is filtering with their
      intersection; in particular, filtering twice with the same range is
      filtering once. */
  lemma {:induction false} FilterTwice(rs: seq<Reading>, lo1: real, hi1: real, lo2: real, hi2: real)
    ensures Filter(Filter(rs, lo1, hi1), lo2, hi2)
         == Filter(rs, if lo1 < lo2 then lo2 else lo1, if hi1 < hi2 then hi1 else hi2)
  {
    if rs != [] {
      var head := if InRange(rs[0].temp, lo1, hi1) then [rs[0]] else [];
      FilterAppend(head, Filter(rs[1..], lo1, hi1), lo2, hi2);
      FilterTwice(rs[1..], lo1, hi1, lo2, hi2);
      if InRange(rs[0].temp, lo1, hi1) {
        assert Filter(head, lo2, hi2) == (if InRange(rs[0].temp, lo2, hi2) then [rs[0]] else []) + Filter([], lo2, hi2);
      }
    }
  }

  /** chop_data's loop after the first n temperatures: the kept temperatures
      and values, or IndexError when a kept temperature has no value. */
  function ChopPrefix(c: Curve, minTemp: real, maxTemp: real, n: nat): Result<Curve>
    requires n <= |c.temps|
  {
    if n == 0 then Ok(Curve([], []))
    else
      match ChopPrefix(c, minTemp, maxTemp, n - 1)
      case Err(e) => Err(e)
      case Ok(acc) =>
        var t := c.temps[n - 1];
        if !InRange(t, minTemp, maxTemp) then Ok(acc)
        else if n - 1 < |c.ms| then Ok(Curve(acc.temps + [t], acc.ms + [c.ms[n - 1]]))
        else Err(IndexError)
  }

  /** What chop_data returns. */
  function Chop(c: Curve, minTemp: real, maxTemp: real): Result<Curve>
  {
    ChopPrefix(c, minTemp, maxTemp, |c.temps|)
  }

  lemma {:induction false} ChopPrefixIsFilter(c: Curve, minTemp: real, maxTemp: real, n: nat)
    requires c.WellFormed() && n <= |c.temps|
    ensures ChopPrefix(c, minTemp, maxTemp, n) == Ok(CurveOf(Filter(Zip(c)[..n], minTemp, maxTemp)))
  {
    if n > 0 {
      ChopPrefixIsFilter(c, minTemp, maxTemp, n - 1);
      var rs := Zip(c);
      var x := rs[n - 1];
      assert x == Reading(c.temps[n - 1], c.ms[n - 1]);
      assert rs[..n] == rs[..n - 1] + [x];
      FilterAppend(rs[..n - 1], [x], minTemp, maxTemp);
      var front := Filter(rs[..n - 1], minTemp, maxTemp);
      assert [x][1..] == [];
      if InRange(x.temp, minTemp, maxTemp) {
        assert Filter([x], minTemp, maxTemp) == [x];
        CurveOfSnoc(front, x);
      } else {
        assert Filter([x], minTemp, maxTemp) == [];
        assert front + [] == front;
      }
    }
  }

  /** On a well-formed curve, chop_data keeps exactly the (temperature, value)
      pairs inside the range, in their original order. */
  lemma ChopIsFilter(c: Curve, minTemp: real, maxTemp: real)
    requires c.WellFormed()
    ensures Chop(c, minTemp, maxTemp) == Ok(CurveOf(Filter(Zip(c), minTemp, maxTemp)))
  {
    ChopPrefixIsFilter(c, minTemp, maxTemp, |c.temps|);
    assert Zip(c)[..|c.temps|] == Zip(c);
  }

  /** chop_data raises IndexError exactly when some temperature in the range
      has no value beside it. */
  lemma {:induction false} ChopPrefixFails(c: Curve, minTemp: real, maxTemp: real, n: nat)
    requires n <= |c.temps|
    ensures ChopPrefix(c, minTemp, maxTemp, n).Err? <==>
      exists i :: |c.ms| <= i < n && InRange(c.temps[i], minTemp, maxTemp)
  {
    if n > 0 {
      ChopPrefixFails(c, minTemp, maxTemp, n - 1);
    }
  }

  /** The curve of test_chop_data in tests/test_measurement_cycle.py. */
  const ChopSample: Curve := Curve([0.0, 20.0, 40.0, 60.0, 80.0, 70.0, 50.0, 30.0, 10.0],
                                   [3.0, 1.0, 4.0, 1.0, 5.0, 9.0, 2.0, 6.0, 5.0])

  lemma ChopSampleFirstFour()
    ensures ChopPrefix(ChopSample, 25.0, 65.0, 4) == Ok(Curve([40.0, 60.0], [4.0, 1.0]))
  {
    var c := ChopSample;
    assert ChopPrefix(c, 25.0, 65.0, 1) == Ok(Curve([], []));
    assert ChopPrefix(c, 25.0, 65.0, 2) == Ok(Curve([], []));
    assert [] + [40.0] == [40.0] && [] + [4.0] == [4.0];
    assert ChopPrefix(c, 25.0, 65.0, 3) == Ok(Curve([40.0], [4.0]));
    assert [40.0] + [60.0] == [40.0, 60.0] && [4.0] + [1.0] == [4.0, 1.0];
  }

  /** The case of test_chop_data in tests/test_measurement_cycle.py. */
  lemma ChopExample()
    ensures Chop(ChopSample, 25.0, 65.0) == Ok(Curve([40.0, 60.0, 50.0, 30.0], [4.0, 1.0, 2.0, 6.0]))
  {
    var c := ChopSample;
    var two := Curve([40.0, 60.0], [4.0, 1.0]);
    var three := Curve([40.0, 60.0, 50.0], [4.0, 1.0, 2.0]);
    ChopSampleFirstFour();
    assert ChopPrefix(c, 25.0, 65.0, 5) == Ok(two);
    assert ChopPrefix(c, 25.0, 65.0, 6) == Ok(two);
    assert [40.0, 60.0] + [50.0] == [40.0, 60.0, 50.0] && [4.0, 1.0] + [2.0] == [4.0, 1.0, 2.0];
    assert ChopPrefix(c, 25.0, 65.0, 7) == Ok(three);
    assert [40.0, 60.0, 50.0] + [30.0] == [40.0, 60.0, 50.0, 30.0] && [4.0, 1.0, 2.0] + [6.0] == [4.0, 1.0, 2.0, 6.0];
    assert ChopPrefix(c, 25.0, 65.0, 8) == Ok(Curve([40.0, 60.0, 50.0, 30.0], [4.0, 1.0, 2.0, 6.0]));
  }

  /** MeasurementCycle.chop_data: appends the in-range pairs in a loop. */
  method ChopData(c: Curve, minTemp: real, maxTemp: real) returns (r: Result<Curve>)
    ensures r == Chop(c, minTemp, maxTemp)
  {
    var tempsOut: seq<real> := [];
    var mssOut: seq<real> := [];
    for i := 0 to |c.temps|
      invariant ChopPrefix(c, minTemp, maxTemp, i) == Ok(Curve(tempsOut, mssOut))
    {
      var temp := c.temps[i];
      if minTemp <= temp <= maxTemp {
        if i >= |c.ms| {
          ChopPrefixErrStays(c, minTemp, maxTemp, i + 1);
          return Err(IndexError);
        }
        tempsOut := tempsOut + [temp];
        mssOut := mssOut + [c.ms[i]];
      }
    }
    r := Ok(Curve(tempsOut, mssOut));
  }

  /** Once the loop has raised, the result is that error. */
  lemma {:induction false} ChopPrefixErrStays(c: Curve, minTemp: real, maxTemp: real, n: nat)
    requires n <= |c.temps|
    requires ChopPrefix(c, minTemp, maxTemp, n) == Err(IndexError)
    ensures Chop(c, minTemp, maxTemp) == Err(IndexError)
    decreases |c.temps| - n
  {
    if n < |c.temps| {
      ChopPrefixErrStays(c, minTemp, maxTemp, n + 1);
    }
  }

  // ---------------------------------------------------------------------
  // shunt_up
  // ---------------------------------------------------------------------

  /** MeasurementCycle.shunt_up: when the smallest value is negative, subtract
      it from every value; otherwise (and for no values) return them as they are. */
  function ShuntUp(values: seq<real>): (r: seq<real>)
    ensures |r| == |values|
    ensures |values| == 0 || Min(values) >= 0.0 ==> r == values
    ensures |values| > 0 && Min(values) < 0.0 ==>
      && (forall i :: 0 <= i < |values| ==> r[i] == values[i] - Min(values))
      && Min(r) == 0.0
    ensures forall i :: 0 <= i < |r| ==> r[i] >= 0.0
  {
    if |values| == 0 then values
    else
      var minimum := Min(values);
      if minimum < 0.0 then
        var shifted := seq(|values|, i requires 0 <= i < |values| => values[i] - minimum);
        assert shifted == Shifted(values, -minimum);
        ShiftedMin(values, -minimum);
        shifted
      else values
  }

  /** Shunting up twice is shunting up once. */
  lemma ShuntUpIdempotent(values: seq<real>)
    ensures ShuntUp(ShuntUp(values)) == ShuntUp(values)
  {
    var once := ShuntUp(values);
    if |once| > 0 {
      assert Min(once) >= 0.0 by {
        var k :| 0 <= k < |once| && once[k] == Min(once);
      }
    }
  }

  /** The case of test_shunt_up in tests/test_measurement_cycle.py. */
  lemma ShuntUpExample()
    ensures ShuntUp([0.0, -0.5, 1.0]) == [0.5, 0.0, 1.5]
  {
    assert Min([0.0, -0.5, 1.0]) == -0.5 by {
      MinUnique([0.0, -0.5, 1.0], -0.5);
    }
  }
}
