/** The results of a series of heating-cooling cycles on one sample (class
    MeasurementSet): cycles keyed by the temperature in their file names,
    rescaling to an order of magnitude, and the offset that zeroes the 700
    degree run. */
module MeasurementSets {
  import opened Curves
  import CurFile
  import opened FurnaceBaseline
  import MeasurementCycles

  // ---------------------------------------------------------------------
  // File names
  // ---------------------------------------------------------------------

  /** Where the last component of a path starts: just past its last '/', or
      at 0 when it has none. */
  function ComponentStart(p: string): (k: nat)
    ensures k <= |p|
    ensures forall i :: k <= i < |p| ==> p[i] != '/'
    ensures k > 0 ==> p[k - 1] == '/'
  {
    if p == [] || p[|p| - 1] == '/' then |p|
    else ComponentStart(p[..|p| - 1])
  }

  /** Only one position has those three properties. */
  lemma ComponentStartUnique(p: string, k: nat)
    requires k <= |p|
    requires forall i :: k <= i < |p| ==> p[i] != '/'
    requires k > 0 ==> p[k - 1] == '/'
    ensures k == ComponentStart(p)
  {
  }

  /** os.path.basename: the path after its last '/'. */
  function Basename(p: string): (b: string)
    ensures '/' !in b
  {
    var k := ComponentStart(p);
    assert forall i :: 0 <= i < |p| - k ==> p[k..][i] == p[k + i];
    p[k..]
  }

  /** The basename is a suffix of the path, either all of it or what follows
      a '/'. */
  lemma BasenameIsSuffix(p: string)
    ensures var b := Basename(p);
      && |b| <= |p| && b == p[|p| - |b|..]
      && (|b| < |p| ==> p[|p| - |b| - 1] == '/')
  {
  }

  /** The name of a file in a directory, as glob lists it, has that file's
      own name as its basename. */
  lemma BasenameOfJoin(dir: string, leaf: string)
    requires '/' !in leaf
    ensures Basename(dir + "/" + leaf) == leaf
  {
    var p := dir + "/" + leaf;
    var k := |dir| + 1;
    assert p[k..] == leaf;
    assert forall i :: k <= i < |p| ==> p[i] == leaf[i - k];
    ComponentStartUnique(p, k);
  }

  predicate AllDigits(s: string)
  {
    forall i :: 0 <= i < |s| ==> CurFile.IsDigit(s[i])
  }

  function DigitValue(c: char): nat
    requires CurFile.IsDigit(c)
  {
    (c as int) - ('0' as int)
  }

  /** int() of a string of decimal digits. */
  function DigitsValue(s: string): nat
    requires AllDigits(s)
  {
    if s == [] then 0
    else DigitsValue(s[..|s| - 1]) * 10 + DigitValue(s[|s| - 1])
  }

  /** The decimal digits of a number, as str() writes it. */
  function ShowNat(n: nat): (s: string)
    ensures |s| > 0 && AllDigits(s)
  {
    var last := ['0' + ((n % 10) as char)];
    if n < 10 then last else ShowNat(n / 10) + last
  }

  lemma {:induction false} DigitsValueShowNat(n: nat)
    ensures DigitsValue(ShowNat(n)) == n
  {
    var s := ShowNat(n);
    assert DigitValue(s[|s| - 1]) == n % 10;
    if n >= 10 {
      DigitsValueShowNat(n / 10);
      assert s[..|s| - 1] == ShowNat(n / 10);
    }
  }

  /** The file-name shape the pattern ^(\d+)[AB]?\.CUR$ accepts: digits, at
      most one of A or B, the suffix .CUR, and (since $ also matches before a
      final newline) at most one newline. */
  predicate CycleName(leaf: string, digits: string, letter: string, newline: string)
  {
    && |digits| > 0 && AllDigits(digits)
    && (letter == "" || letter == "A" || letter == "B")
    && (newline == "" || newline == "\n")
    && leaf == digits + letter + ".CUR" + newline
  }

  function DropFinalNewline(s: string): string
  {
    if |s| > 0 && s[|s| - 1] == '\n' then s[..|s| - 1] else s
  }

  /** The match of ^(\d+)[AB]?\.CUR$ against a file's own name: the number
      its digits spell, or None when it does not have the shape. */
  function LeafToTemp(leaf: string): Option<int>
  {
    var s := DropFinalNewline(leaf);
    if |s| < 4 || s[|s| - 4..] != ".CUR" then None
    else
      var body := s[..|s| - 4];
      var digits :=
        if |body| > 0 && (body[|body| - 1] == 'A' || body[|body| - 1] == 'B') then body[..|body| - 1] else body;
      if |digits| > 0 && AllDigits(digits) then Some(DigitsValue(digits)) else None
  }

  /** MeasurementSet.filename_to_temp: the number at the start of the
      basename when it has the shape of a cycle file name, otherwise None. */
  function FilenameToTemp(filename: string): Option<int>
  {
    LeafToTemp(Basename(filename))
  }

  /** Every name of the cycle-file shape gives its leading number. */
  lemma LeafToTempOfMatch(leaf: string, digits: string, letter: string, newline: string)
    requires CycleName(leaf, digits, letter, newline)
    ensures LeafToTemp(leaf) == Some(DigitsValue(digits))
  {
    var s := DropFinalNewline(leaf);
    var stem := digits + letter + ".CUR";
    assert leaf == stem + newline;
    assert s == stem by {
      if newline == "\n" {
        assert leaf[..|leaf| - 1] == stem;
      } else {
        assert leaf[|leaf| - 1] == stem[|stem| - 1] == 'R';
      }
    }
    var body := digits + letter;
    assert s == body + ".CUR";
    assert s[|s| - 4..] == ".CUR";
    assert s[..|s| - 4] == body;
    if letter == "" {
      assert body == digits;
      assert CurFile.IsDigit(body[|body| - 1]);
    } else {
      assert body[..|body| - 1] == digits;
    }
  }

  /** And only names of that shape give a number. */
  lemma LeafToTempMatched(leaf: string) returns (digits: string, letter: string, newline: string)
    requires LeafToTemp(leaf).Some?
    ensures CycleName(leaf, digits, letter, newline)
    ensures LeafToTemp(leaf) == Some(DigitsValue(digits))
  {
    var s := DropFinalNewline(leaf);
    if |leaf| > 0 && leaf[|leaf| - 1] == '\n' {
      newline := "\n";
      assert leaf == leaf[..|leaf| - 1] + [leaf[|leaf| - 1]];
    } else {
      newline := "";
    }
    assert leaf == s + newline;
    var body := s[..|s| - 4];
    assert s == body + s[|s| - 4..];
    if |body| > 0 && (body[|body| - 1] == 'A' || body[|body| - 1] == 'B') {
      digits, letter := body[..|body| - 1], [body[|body| - 1]];
      assert body == digits + letter;
    } else {
      digits, letter := body, "";
      assert body == digits + letter;
    }
  }

  /** filename_to_temp accepts a path exactly when its basename has the
      cycle-file shape, and then gives the number of its digits. */
  lemma FilenameToTempOfMatch(filename: string, digits: string, letter: string, newline: string)
    requires CycleName(Basename(filename), digits, letter, newline)
    ensures FilenameToTemp(filename) == Some(DigitsValue(digits))
  {
    LeafToTempOfMatch(Basename(filename), digits, letter, newline);
  }

  lemma FilenameToTempMatched(filename: string) returns (digits: string, letter: string, newline: string)
    requires FilenameToTemp(filename).Some?
    ensures CycleName(Basename(filename), digits, letter, newline)
    ensures FilenameToTemp(filename) == Some(DigitsValue(digits))
  {
    digits, letter, newline := LeafToTempMatched(Basename(filename));
  }

  /** The file written for a cycle to t degrees, with or without the A or B
      of a repeated run, maps back to t. */
  lemma CycleFileTemp(dir: string, t: nat, letter: string)
    requires letter == "" || letter == "A" || letter == "B"
    ensures FilenameToTemp(dir + "/" + ShowNat(t) + letter + ".CUR") == Some(t as int)
  {
    var digits := ShowNat(t);
    var leaf := digits + letter + ".CUR";
    assert dir + "/" + digits + letter + ".CUR" == dir + "/" + leaf;
    CycleLeafHasNoSlash(digits, letter);
    assert CycleName(leaf, digits, letter, "") by {
      assert leaf == digits + letter + ".CUR" + "";
    }
    calc {
      FilenameToTemp(dir + "/" + leaf);
      LeafToTemp(Basename(dir + "/" + leaf));
    == { BasenameOfJoin(dir, leaf); }
      LeafToTemp(leaf);
    == { LeafToTempOfMatch(leaf, digits, letter, ""); }
      Some(DigitsValue(digits));
    == { DigitsValueShowNat(t); }
      Some(t as int);
    }
  }

  lemma CycleLeafHasNoSlash(digits: string, letter: string)
    requires AllDigits(digits)
    requires letter == "" || letter == "A" || letter == "B"
    ensures '/' !in digits + letter + ".CUR"
  {
    var leaf := digits + letter + ".CUR";
    assert forall i :: 0 <= i < |digits| ==> leaf[i] == digits[i];
  }

  /** A name without '/' is its own basename. */
  lemma BasenameOfLeaf(leaf: string)
    requires '/' !in leaf
    ensures Basename(leaf) == leaf
  {
    ComponentStartUnique(leaf, 0);
  }

  /** The cases of test_filename_to_temp in tests/test_measurement_set.py. */
  lemma FilenameToTempUnparseable()
    ensures FilenameToTemp("unparseable") == None
  {
    BasenameOfLeaf("unparseable");
    assert "unparseable"[7..] != ".CUR" by {
      assert "unparseable"[7..][0] == 'a';
    }
  }

  lemma FilenameToTemp700()
    ensures FilenameToTemp("700.CUR") == Some(700)
  {
    BasenameOfLeaf("700.CUR");
    assert "700.CUR" == "700" + "" + ".CUR" + "";
    assert "700"[..2] == "70" && "70"[..1] == "7" && "7"[..0] == "";
    FilenameToTempOfMatch("700.CUR", "700", "", "");
  }

  lemma FilenameToTemp50A()
    ensures FilenameToTemp("50A.CUR") == Some(50)
  {
    BasenameOfLeaf("50A.CUR");
    assert "50A.CUR" == "50" + "A" + ".CUR" + "";
    assert "50"[..1] == "5" && "5"[..0] == "";
    FilenameToTempOfMatch("50A.CUR", "50", "A", "");
  }

  lemma FilenameToTemp5B()
    ensures FilenameToTemp("5B.CUR") == Some(5)
  {
    BasenameOfLeaf("5B.CUR");
    assert "5B.CUR" == "5" + "B" + ".CUR" + "";
    assert "5"[..0] == "";
    FilenameToTempOfMatch("5B.CUR", "5", "B", "");
  }

  // ---------------------------------------------------------------------
  // Powers of ten
  // ---------------------------------------------------------------------

  /** 10. ** e, exact, for an integer exponent. */
  function Pow10(e: int): real
    decreases if e >= 0 then e else -e
  {
    if e == 0 then 1.0
    else if e > 0 then 10.0 * Pow10(e - 1)
    else Pow10(e + 1) / 10.0
  }

  /** The scale set_oom multiplies by is never zero or negative, so
      rescaling keeps every sign. */
  lemma {:induction false} Pow10Positive(e: int)
    ensures Pow10(e) > 0.0
    decreases if e >= 0 then e else -e
  {
    if e > 0 {
      Pow10Positive(e - 1);
    } else if e < 0 {
      Pow10Positive(e + 1);
    }
  }

  /** Each step up in the exponent is a factor of ten, on both sides of 0. */
  lemma Pow10Step(e: int)
    ensures Pow10(e + 1) == 10.0 * Pow10(e)
  {
  }

  lemma {:induction false} Pow10AddUp(x: int, y: nat)
    ensures Pow10(x) * Pow10(y) == Pow10(x + y)
  {
    if y > 0 {
      Pow10AddUp(x, y - 1);
      Pow10Step(y - 1);
      Pow10Step(x + y - 1);
      var p, q := Pow10(x), Pow10(y - 1);
      calc {
        p * Pow10(y);
        p * (10.0 * q);
        10.0 * (p * q);
      }
    }
  }

  lemma {:induction false} Pow10AddDown(x: int, y: int)
    requires y >= 0
    ensures Pow10(x) * Pow10(-y) == Pow10(x - y)
    decreases y
  {
    if y > 0 {
      Pow10AddDown(x, y - 1);
      Pow10Step(-y);
      Pow10Step(x - y);
      var p, q := Pow10(x), Pow10(-y);
      calc {
        10.0 * (p * q);
        p * (10.0 * q);
        p * Pow10(-y + 1);
      }
      assert -y + 1 == -(y - 1) && x - y + 1 == x - (y - 1);
    }
  }

  /** Exponents add: 10^x * 10^y = 10^(x + y). */
  lemma Pow10Add(x: int, y: int)
    ensures Pow10(x) * Pow10(y) == Pow10(x + y)
  {
    if y >= 0 {
      Pow10AddUp(x, y);
    } else {
      Pow10AddDown(x, -y);
    }
  }

  lemma Pow10Congruent(x: int, y: int)
    requires x == y
    ensures Pow10(x) == Pow10(y)
  {
  }

  lemma Pow10Difference(a: int, b: int, c: int)
    ensures Pow10(a - b) * Pow10(b - c) == Pow10(a - c)
  {
    var x, y := a - b, b - c;
    Pow10Add(x, y);
    Pow10Congruent(x + y, a - c);
  }

  // ---------------------------------------------------------------------
  // shunt and set_oom, on one cycle and on the whole map
  // ---------------------------------------------------------------------

  /** MeasurementSet.shunt: the offset added to every heating and cooling
      value; temperatures are kept. */
  function Shunt(pair: CurvePair, offset: real): (r: CurvePair)
    ensures r.heating.temps == pair.heating.temps && r.cooling.temps == pair.cooling.temps
    ensures |r.heating.ms| == |pair.heating.ms| && |r.cooling.ms| == |pair.cooling.ms|
    ensures forall i :: 0 <= i < |pair.heating.ms| ==> r.heating.ms[i] - pair.heating.ms[i] == offset
    ensures forall i :: 0 <= i < |pair.cooling.ms| ==> r.cooling.ms[i] - pair.cooling.ms[i] == offset
  {
    CurvePair(Curve(pair.heating.temps, Shifted(pair.heating.ms, offset)),
              Curve(pair.cooling.temps, Shifted(pair.cooling.ms, offset)))
  }

  /** Two shunts are one shunt by the sum of the offsets. */
  lemma ShuntCompose(pair: CurvePair, a: real, b: real)
    ensures Shunt(Shunt(pair, a), b) == Shunt(pair, a + b)
  {
    assert Shifted(Shifted(pair.heating.ms, a), b) == Shifted(pair.heating.ms, a + b);
    assert Shifted(Shifted(pair.cooling.ms, a), b) == Shifted(pair.cooling.ms, a + b);
  }

  /** A shunt by a negated offset undoes the shunt. */
  lemma ShuntUndone(pair: CurvePair, offset: real)
    ensures Shunt(Shunt(pair, offset), -offset) == pair
  {
    ShuntCompose(pair, offset, -offset);
    assert Shifted(pair.heating.ms, 0.0) == pair.heating.ms;
    assert Shifted(pair.cooling.ms, 0.0) == pair.cooling.ms;
  }

  /** The case of test_shunt in tests/test_measurement_set.py. */
  lemma ShuntExample()
    ensures Shunt(CurvePair(Curve([1.0, 2.0, 3.0, 4.0], [10.0, 20.0, 30.0, 40.0]),
                            Curve([4.0, 3.0, 2.0, 1.0], [45.0, 35.0, 25.0, 15.0])), 2.0)
         == CurvePair(Curve([1.0, 2.0, 3.0, 4.0], [12.0, 22.0, 32.0, 42.0]),
                      Curve([4.0, 3.0, 2.0, 1.0], [47.0, 37.0, 27.0, 17.0]))
  {
    assert Shifted([10.0, 20.0, 30.0, 40.0], 2.0) == [12.0, 22.0, 32.0, 42.0];
    assert Shifted([45.0, 35.0, 25.0, 15.0], 2.0) == [47.0, 37.0, 27.0, 17.0];
  }

  /** Every cycle of a map shunted by one offset; the keys are kept. */
  function ShuntAll(cycles: map<int, CurvePair>, offset: real): (r: map<int, CurvePair>)
    ensures r.Keys == cycles.Keys
    ensures forall t :: t in cycles ==> r[t] == Shunt(cycles[t], offset)
  {
    map t | t in cycles :: Shunt(cycles[t], offset)
  }

  /** One cycle with every value multiplied by k; the temperatures are kept. */
  function Rescaled(pair: CurvePair, k: real): (r: CurvePair)
    ensures r.heating.temps == pair.heating.temps && r.cooling.temps == pair.cooling.temps
    ensures |r.heating.ms| == |pair.heating.ms| && |r.cooling.ms| == |pair.cooling.ms|
    ensures forall i :: 0 <= i < |pair.heating.ms| ==> r.heating.ms[i] == pair.heating.ms[i] * k
    ensures forall i :: 0 <= i < |pair.cooling.ms| ==> r.cooling.ms[i] == pair.cooling.ms[i] * k
  {
    CurvePair(Curve(pair.heating.temps, Scaled(pair.heating.ms, k)),
              Curve(pair.cooling.temps, Scaled(pair.cooling.ms, k)))
  }

  /** Every cycle of a map rescaled by k; the keys are kept. */
  function RescaleAll(cycles: map<int, CurvePair>, k: real): (r: map<int, CurvePair>)
    ensures r.Keys == cycles.Keys
    ensures forall t :: t in cycles ==> r[t] == Rescaled(cycles[t], k)
  {
    map t | t in cycles :: Rescaled(cycles[t], k)
  }

  lemma RescaledTwice(pair: CurvePair, a: real, b: real)
    ensures Rescaled(Rescaled(pair, a), b) == Rescaled(pair, a * b)
  {
    ScaledTwice(pair.heating.ms, a, b);
    ScaledTwice(pair.cooling.ms, a, b);
  }

  /** The values of every cycle after set_oom: the old values times 10 to
      the difference of the orders of magnitude. */
  function AtOom(cycles: map<int, CurvePair>, oom: int, newOom: int): map<int, CurvePair>
  {
    RescaleAll(cycles, Pow10(oom - newOom))
  }

  lemma RescaleAllTwice(cycles: map<int, CurvePair>, a: real, b: real)
    ensures RescaleAll(RescaleAll(cycles, a), b) == RescaleAll(cycles, a * b)
  {
    var twice := RescaleAll(RescaleAll(cycles, a), b);
    var direct := RescaleAll(cycles, a * b);
    forall t | t in cycles
      ensures twice[t] == direct[t]
    {
      RescaledTwice(cycles[t], a, b);
    }
  }

  /** Two calls of set_oom are one call with the later order of magnitude. */
  lemma SetOomTwice(cycles: map<int, CurvePair>, oom: int, mid: int, newOom: int)
    ensures AtOom(AtOom(cycles, oom, mid), mid, newOom) == AtOom(cycles, oom, newOom)
  {
    var k1, k2, k := Pow10(oom - mid), Pow10(mid - newOom), Pow10(oom - newOom);
    Pow10Difference(oom, mid, newOom);
    assert k1 * k2 == k;
    calc {
      AtOom(AtOom(cycles, oom, mid), mid, newOom);
      RescaleAll(RescaleAll(cycles, k1), k2);
      { RescaleAllTwice(cycles, k1, k2); }
      RescaleAll(cycles, k1 * k2);
      RescaleAll(cycles, k);
    }
  }

  /** set_oom with the current order of magnitude changes no value. */
  lemma SetOomSame(cycles: map<int, CurvePair>, oom: int)
    ensures AtOom(cycles, oom, oom) == cycles
  {
    assert Pow10(oom - oom) == 1.0;
    forall t | t in cycles
      ensures AtOom(cycles, oom, oom)[t] == cycles[t]
    {
      assert Scaled(cycles[t].heating.ms, 1.0) == cycles[t].heating.ms;
      assert Scaled(cycles[t].cooling.ms, 1.0) == cycles[t].cooling.ms;
    }
  }

  /** Rescaling from one order of magnitude to another and back restores
      every value. */
  lemma SetOomRoundTrip(cycles: map<int, CurvePair>, oom: int, newOom: int)
    ensures AtOom(AtOom(cycles, oom, newOom), newOom, oom) == cycles
  {
    SetOomTwice(cycles, oom, newOom, oom);
    SetOomSame(cycles, oom);
  }

  /** Two maps with the same keys and the same value at each key are equal. */
  lemma SameEntries(a: map<int, CurvePair>, b: map<int, CurvePair>)
    requires a.Keys == b.Keys
    requires forall t :: t in a ==> a[t] == b[t]
    ensures a == b
  {
    forall t | t in a ensures t in b {}
    forall t | t in b ensures t in a {}
    assert a.Keys <= b.Keys && b.Keys <= a.Keys;
    forall t | t in a ensures a[t] == b[t] {}
  }

  /** A non-empty set of temperatures has a member (the next key a
      dictionary iteration visits). */
  lemma {:induction false} SomeKey(keys: set<int>)
    requires keys != {}
    ensures exists t :: t in keys
  {
    if forall t :: t !in keys {
      assert false;
    }
  }

  /** set_oom's loop: a new map holding each cycle of the old one with its
      values multiplied by scale. */
  method RescaleEach(data: map<int, CurvePair>, scale: real) returns (newData: map<int, CurvePair>)
    ensures newData == RescaleAll(data, scale)
  {
    newData := map[];
    var todo := data.Keys;
    while todo != {}
      invariant todo <= data.Keys
      invariant newData.Keys == data.Keys - todo
      invariant forall t :: t in newData ==> newData[t] == Rescaled(data[t], scale)
      decreases |todo|
    {
      SomeKey(todo);
      var t :| t in todo;
      newData := newData[t := Rescaled(data[t], scale)];
      todo := todo - {t};
    }
    SameEntries(newData, RescaleAll(data, scale));
  }

  // ---------------------------------------------------------------------
  // make_zero_at_700
  // ---------------------------------------------------------------------

  /** The offset make_zero_at_700 applies: minus the smallest of the last
      five heating values of the 700 degree cycle; KeyError without that
      cycle, the ValueError of min() when its heating values are empty. */
  function ZeroOffset(cycles: map<int, CurvePair>): (r: Result<real>)
    ensures r.Ok? <==> 700 in cycles && |cycles[700].heating.ms| > 0
    ensures 700 !in cycles ==> r == Err(KeyError(700))
    ensures 700 in cycles && |cycles[700].heating.ms| == 0 ==> r == Err(EmptyMin)
    ensures r.Ok? ==> r.value == -Min(LastFive(cycles[700].heating.ms))
  {
    if 700 !in cycles then Err(KeyError(700))
    else
      var tail := LastFive(cycles[700].heating.ms);
      if |tail| == 0 then Err(EmptyMin) else Ok(-Min(tail))
  }

  /** What make_zero_at_700 leaves in the map, or the error it raises. */
  function ZeroAt700(cycles: map<int, CurvePair>): Result<map<int, CurvePair>>
  {
    match ZeroOffset(cycles)
    case Err(e) => Err(e)
    case Ok(offset) => Ok(ShuntAll(cycles, offset))
  }

  /** After make_zero_at_700 the smallest of the last five heating values of
      the 700 degree cycle is zero. */
  lemma ZeroAt700Zeroes(cycles: map<int, CurvePair>)
    requires ZeroAt700(cycles).Ok?
    ensures Min(LastFive(ZeroAt700(cycles).value[700].heating.ms)) == 0.0
  {
    var offset := ZeroOffset(cycles).value;
    var ms := cycles[700].heating.ms;
    assert ZeroAt700(cycles).value[700].heating.ms == Shifted(ms, offset);
    ShiftedLastFive(ms, offset);
    ShiftedMin(LastFive(ms), offset);
  }

  /** A zero offset changes no cycle. */
  lemma ShuntAllZero(cycles: map<int, CurvePair>)
    ensures ShuntAll(cycles, 0.0) == cycles
  {
    forall t | t in cycles
      ensures ShuntAll(cycles, 0.0)[t] == cycles[t]
    {
      assert Shifted(cycles[t].heating.ms, 0.0) == cycles[t].heating.ms;
      assert Shifted(cycles[t].cooling.ms, 0.0) == cycles[t].cooling.ms;
    }
  }

  /** Zeroing twice changes nothing more. */
  lemma ZeroAt700Idempotent(cycles: map<int, CurvePair>)
    requires ZeroAt700(cycles).Ok?
    ensures ZeroAt700(ZeroAt700(cycles).value) == ZeroAt700(cycles)
  {
    var after := ZeroAt700(cycles).value;
    ZeroAt700Zeroes(cycles);
    assert ZeroOffset(after) == Ok(0.0);
    ShuntAllZero(after);
  }

  /** make_zero_at_700's loop: a new map holding each cycle of the old one
      shunted by offset. */
  method ShuntEach(data: map<int, CurvePair>, offset: real) returns (newData: map<int, CurvePair>)
    ensures newData == ShuntAll(data, offset)
  {
    newData := map[];
    var todo := data.Keys;
    while todo != {}
      invariant todo <= data.Keys
      invariant newData.Keys == data.Keys - todo
      invariant forall t :: t in newData ==> newData[t] == Shunt(data[t], offset)
      decreases |todo|
    {
      SomeKey(todo);
      var t :| t in todo;
      newData := newData[t := Shunt(data[t], offset)];
      todo := todo - {t};
    }
    SameEntries(newData, ShuntAll(data, offset));
  }

  // ---------------------------------------------------------------------
  // read_files
  // ---------------------------------------------------------------------

  /** What the file system gives the model: the lines of each named file,
      and the decoding of a field to a number. */
  datatype Storage = Storage(files: string -> seq<string>, decode: string -> Option<real>)

  /** The state read_files leaves: the cycles map, and the error that
      stopped it, if one did. */
  datatype Loaded = Loaded(cycles: map<int, CurvePair>, error: Option<Error>)

  /** The corrected data of the cycle in one file, or the error reading it
      raises: what MeasurementCycle's constructor computes for that file. */
  function CycleOfFile(storage: Storage, furnace: Option<Furnace>, realVol: real, nomVol: real): string -> Result<CurvePair>
  {
    filename => MeasurementCycles.CycleOf(furnace, storage.files(filename), storage.decode, realVol, nomVol)
  }

  /** What read_files makes of one file name: the temperature the name
      gives, if any, and what loading the file gives (looked at only when
      there is a temperature). */
  datatype Entry = Entry(temp: Option<int>, data: Result<CurvePair>)
  {
    /** A file whose name gives a temperature, and which fails to load. */
    predicate Fails()
    {
      temp.Some? && data.Err?
    }
  }

  /** The entry of every name, in the order glob gave them. */
  function Entries(names: seq<string>, load: string -> Result<CurvePair>): (es: seq<Entry>)
    ensures |es| == |names|
    ensures forall i :: 0 <= i < |names| ==> es[i] == Entry(FilenameToTemp(names[i]), load(names[i]))
  {
    seq(|names|, i requires 0 <= i < |names| => Entry(FilenameToTemp(names[i]), load(names[i])))
  }

  lemma EntriesPrefix(names: seq<string>, k: nat, load: string -> Result<CurvePair>)
    requires k <= |names|
    ensures Entries(names[..k], load) == Entries(names, load)[..k]
  {
    var a, b := Entries(names[..k], load), Entries(names, load)[..k];
    forall i | 0 <= i < k ensures a[i] == b[i] {
      assert names[..k][i] == names[i];
    }
  }

  /** One iteration of read_files' loop: a name without a temperature is
      skipped, a file that loads is stored under its temperature (replacing
      an earlier entry), and a file that fails stops the loop with the
      entries stored so far. */
  function Put(before: Loaded, e: Entry): Loaded
  {
    if before.error.Some? then before
    else
      match e.temp
      case None => before
      case Some(t) =>
        match e.data
        case Err(err) => Loaded(before.cycles, Some(err))
        case Ok(data) => Loaded(before.cycles[t := data], None)
  }

  /** The loop over all the entries, starting from the given cycles. */
  function Store(cycles: map<int, CurvePair>, es: seq<Entry>): Loaded
  {
    if es == [] then Loaded(cycles, None) else Put(Store(cycles, es[..|es| - 1]), es[|es| - 1])
  }

  /** read_files over a list of file names, each file loaded by `load`.
      This follows the names one at a time, as ReadFiles' loop does; Store
      is the same loop over the entries the names give, and the properties
      of read_files are stated over Store, where they depend only on the
      temperatures and load results and not on how a name is parsed.
      LoadFilesIsStore ties the two together. */
  function LoadFiles(cycles: map<int, CurvePair>, names: seq<string>, load: string -> Result<CurvePair>): Loaded
  {
    if names == [] then Loaded(cycles, None)
    else
      var filename := names[|names| - 1];
      Put(LoadFiles(cycles, names[..|names| - 1], load), Entry(FilenameToTemp(filename), load(filename)))
  }

  /** read_files over the names is the loop over their entries. */
  lemma {:induction false} LoadFilesIsStore(cycles: map<int, CurvePair>, names: seq<string>, load: string -> Result<CurvePair>)
    ensures LoadFiles(cycles, names, load) == Store(cycles, Entries(names, load))
  {
    if names != [] {
      var n := |names| - 1;
      LoadFilesIsStore(cycles, names[..n], load);
      EntriesPrefix(names, n, load);
      assert Entries(names, load)[n] == Entry(FilenameToTemp(names[n]), load(names[n]));
    }
  }

  /** Once a prefix of the names has failed, the rest change nothing: the
      entry form of this, StoreErrStays, carried over by LoadFilesIsStore. */
  lemma LoadFilesErrStays(cycles: map<int, CurvePair>, names: seq<string>, k: nat, load: string -> Result<CurvePair>)
    requires k <= |names|
    requires LoadFiles(cycles, names[..k], load).error.Some?
    ensures LoadFiles(cycles, names, load) == LoadFiles(cycles, names[..k], load)
  {
    LoadFilesIsStore(cycles, names, load);
    LoadFilesIsStore(cycles, names[..k], load);
    EntriesPrefix(names, k, load);
    StoreErrStays(cycles, Entries(names, load), k);
  }

  /** Once a prefix of the entries has failed, the rest change nothing. */
  lemma {:induction false} StoreErrStays(cycles: map<int, CurvePair>, es: seq<Entry>, k: nat)
    requires k <= |es|
    requires Store(cycles, es[..k]).error.Some?
    ensures Store(cycles, es) == Store(cycles, es[..k])
  {
    if k == |es| {
      assert es[..k] == es;
    } else {
      var front := es[..|es| - 1];
      assert front[..k] == es[..k];
      StoreErrStays(cycles, front, k);
    }
  }

  /** read_files fails exactly when some file with a temperature in its
      name fails to load. */
  lemma {:induction false} StoreFails(cycles: map<int, CurvePair>, es: seq<Entry>)
    ensures Store(cycles, es).error.Some? <==> exists i :: 0 <= i < |es| && es[i].Fails()
  {
    if es != [] {
      var front := es[..|es| - 1];
      StoreFails(cycles, front);
      assert forall i :: 0 <= i < |front| ==> front[i] == es[i];
    }
  }

  /** The error is that of the first failing file, and the entries are
      those the names before it stored. */
  lemma {:induction false} StoreStopsAtFirstFailure(cycles: map<int, CurvePair>, es: seq<Entry>, i: nat)
    requires i < |es| && es[i].Fails()
    requires forall j :: 0 <= j < i ==> !es[j].Fails()
    ensures Store(cycles, es) == Loaded(Store(cycles, es[..i]).cycles, Some(es[i].data.error))
  {
    var front := es[..i];
    StoreFails(cycles, front);
    assert forall j :: 0 <= j < i ==> front[j] == es[j];
    assert es[..i + 1][..i] == front;
    StoreErrStays(cycles, es, i + 1);
  }

  /** A temperature that no name maps to keeps its entry, or its absence. */
  lemma {:induction false} StoreUntouched(cycles: map<int, CurvePair>, es: seq<Entry>, t: int)
    requires forall i :: 0 <= i < |es| ==> es[i].temp != Some(t)
    ensures var r := Store(cycles, es);
      && (t in r.cycles <==> t in cycles)
      && (t in cycles ==> r.cycles[t] == cycles[t])
  {
    if es != [] {
      var front := es[..|es| - 1];
      assert forall i :: 0 <= i < |front| ==> front[i] == es[i];
      StoreUntouched(cycles, front, t);
    }
  }

  /** When no file fails, the entry for t is the cycle of the last name that
      maps to t. */
  lemma {:induction false} LastNameWins(cycles: map<int, CurvePair>, es: seq<Entry>, i: nat, t: int)
    requires Store(cycles, es).error.None?
    requires i < |es| && es[i].temp == Some(t)
    requires forall j :: i < j < |es| ==> es[j].temp != Some(t)
    ensures t in Store(cycles, es).cycles
    ensures Ok(Store(cycles, es).cycles[t]) == es[i].data
  {
    var front := es[..|es| - 1];
    if i < |es| - 1 {
      assert forall j :: 0 <= j < |front| ==> front[j] == es[j];
      LastNameWins(cycles, front, i, t);
    }
  }

  /** When no file fails, the keys after the first n names are the old ones
      and the temperatures of those names. */
  lemma {:induction false} StoreKeys(cycles: map<int, CurvePair>, es: seq<Entry>, n: nat, t: int)
    requires n <= |es|
    requires Store(cycles, es[..n]).error.None?
    ensures t in Store(cycles, es[..n]).cycles <==> t in cycles || exists i :: 0 <= i < n && es[i].temp == Some(t)
  {
    if n > 0 {
      assert es[..n][..n - 1] == es[..n - 1];
      assert es[..n][n - 1] == es[n - 1];
      StoreKeys(cycles, es, n - 1, t);
    }
  }

  // ---------------------------------------------------------------------
  // The MeasurementSet object
  // ---------------------------------------------------------------------

  /** The order of magnitude a new set starts at (10^-6, SI). */
  const InitialOom: int := -6

  const DefaultRealVol: real := 0.25
  const DefaultNomVol: real := 10.0

  class MeasurementSet {
    /** The cycles of the sample, keyed by the temperature in their file names. */
    var cycles: map<int, CurvePair>
    /** The order of magnitude the values are expressed in. */
    var oom: int
    const name: string
    const furnace: Option<Furnace>
    const realVol: real
    const nomVol: real

    /** MeasurementSet.__init__ up to the call of read_files. */
    constructor (furnace: Option<Furnace>, sampleDir: string, realVol: real, nomVol: real)
      ensures this.cycles == map[] && this.oom == InitialOom
      ensures this.name == Basename(sampleDir) && this.furnace == furnace
      ensures this.realVol == realVol && this.nomVol == nomVol
    {
      this.oom := InitialOom;
      this.name := Basename(sampleDir);
      this.furnace := furnace;
      this.cycles := map[];
      this.nomVol := nomVol;
      this.realVol := realVol;
    }

    /** One iteration of read_files' loop: a name without a temperature is
        skipped; otherwise the MeasurementCycle built from the file is
        stored under the temperature, or the error building it raises is
        reported and nothing changes. */
    method ReadOne(filename: string, storage: Storage) returns (outcome: Outcome)
      modifies this
      ensures var l := Put(Loaded(old(cycles), None),
                           Entry(FilenameToTemp(filename), CycleOfFile(storage, furnace, realVol, nomVol)(filename)));
        && cycles == l.cycles
        && (outcome.Pass? <==> l.error.None?)
        && (outcome.Fail? ==> l.error == Some(outcome.error))
      ensures oom == old(oom)
    {
      var temperature := FilenameToTemp(filename);
      if temperature.None? {
        return Pass;
      }
      var cycle := MeasurementCycles.NewCycle(furnace, storage.files(filename), storage.decode, realVol, nomVol);
      if cycle.Err? {
        return Fail(cycle.error);
      }
      cycles := cycles[temperature.value := cycle.value.data];
      outcome := Pass;
    }

    /** MeasurementSet.read_files over the names glob found. */
    method ReadFiles(names: seq<string>, storage: Storage) returns (outcome: Outcome)
      modifies this
      ensures var l := LoadFiles(old(cycles), names, CycleOfFile(storage, furnace, realVol, nomVol));
        && cycles == l.cycles
        && (outcome.Pass? <==> l.error.None?)
        && (outcome.Fail? ==> l.error == Some(outcome.error))
      ensures oom == old(oom)
    {
      for i := 0 to |names|
        invariant LoadFiles(old(cycles), names[..i], CycleOfFile(storage, furnace, realVol, nomVol)) == Loaded(cycles, None)
        invariant oom == old(oom)
      {
        assert names[..i + 1][..i] == names[..i];
        var step := ReadOne(names[i], storage);
        if step.Fail? {
          LoadFilesErrStays(old(cycles), names, i + 1, CycleOfFile(storage, furnace, realVol, nomVol));
          return step;
        }
      }
      assert names[..|names|] == names;
      outcome := Pass;
    }

    /** MeasurementSet.set_oom: every value rescaled from the current order
        of magnitude to the new one. */
    method SetOom(newOom: int)
      modifies this
      ensures cycles == AtOom(old(cycles), old(oom), newOom)
      ensures oom == newOom
    {
      var scale := Pow10(oom - newOom);
      cycles := RescaleEach(cycles, scale);
      oom := newOom;
    }

    /** MeasurementSet.make_zero_at_700: every cycle shunted so that the
        smallest of the last five heating values at 700 degrees is zero. */
    method MakeZeroAt700() returns (outcome: Outcome)
      modifies this
      ensures var z := ZeroAt700(old(cycles));
        && (outcome.Pass? <==> z.Ok?)
        && (z.Ok? ==> cycles == z.value)
        && (z.Err? ==> cycles == old(cycles) && outcome == Fail(z.error))
      ensures oom == old(oom)
    {
      var offset := ZeroOffset(cycles);
      if offset.Err? {
        return Fail(offset.error);
      }
      cycles := ShuntEach(cycles, offset.value);
      outcome := Pass;
    }

    /** A MeasurementSet for the files in a sample directory, or the error
        that building it raises. */
    static method Open(furnace: Option<Furnace>, sampleDir: string, names: seq<string>, storage: Storage,
                       realVol: real, nomVol: real)
      returns (r: Result<MeasurementSet>)
      ensures var l := LoadFiles(map[], names, CycleOfFile(storage, furnace, realVol, nomVol));
        && (r.Ok? <==> l.error.None?)
        && (r.Err? ==> l.error == Some(r.error))
        && (r.Ok? ==> fresh(r.value) && r.value.cycles == l.cycles && r.value.oom == InitialOom
                      && r.value.name == Basename(sampleDir) && r.value.furnace == furnace
                      && r.value.realVol == realVol && r.value.nomVol == nomVol)
    {
      var s := new MeasurementSet(furnace, sampleDir, realVol, nomVol);
      var outcome := s.ReadFiles(names, storage);
      if outcome.Fail? {
        return Err(outcome.error);
      }
      r := Ok(s);
    }
  
    /** MeasurementSet(furnace, sample_dir) without volume arguments: a real
        volume of 0.25 and a nominal volume of 10. */
    static method OpenDefault(furnace: Option<Furnace>, sampleDir: string, names: seq<string>, storage: Storage)
      returns (r: Result<MeasurementSet>)
      ensures var l := LoadFiles(map[], names, CycleOfFile(storage, furnace, DefaultRealVol, DefaultNomVol));
        && (r.Ok? <==> l.error.None?)
        && (r.Err? ==> l.error == Some(r.error))
        && (r.Ok? ==> fresh(r.value) && r.value.cycles == l.cycles && r.value.oom == InitialOom
                      && r.value.name == Basename(sampleDir) && r.value.furnace == furnace
                      && r.value.realVol == DefaultRealVol && r.value.nomVol == DefaultNomVol)
    {
      r := Open(furnace, sampleDir, names, storage, DefaultRealVol, DefaultNomVol);
    }
  }
}
