/** Reading a kappabridge .CUR file (read_cur_file): picking out the data
    lines, decoding their first two fields, and the heating / cooling state
    machine that splits the readings into two curves. The file is given as its
    sequence of lines; float() text decoding is the parameter `decode`. */
module CurFile {
  import opened Curves

  // ---------------------------------------------------------------------
  // Line classification: the pattern ^ +\d applied to line.rstrip()
  // ---------------------------------------------------------------------

  predicate IsDigit(c: char) { '0' <= c <= '9' }

  /** The six C whitespace characters (space, \t, \n, \r, \v, \f).
      Python's str.strip() also removes \x1c-\x1f and non-ASCII whitespace;
      the model does not. */
  predicate IsWhitespace(c: char)
  {
    c == ' ' || c == '\t' || c == '\n' || c == '\r' || c == '\U{0B}' || c == '\U{0C}'
  }

  /** line.rstrip() */
  function RStrip(s: string): (r: string)
    ensures |r| <= |s| && r == s[..|r|]
    ensures forall i :: |r| <= i < |s| ==> IsWhitespace(s[i])
    ensures |r| > 0 ==> !IsWhitespace(r[|r| - 1])
  {
    if |s| > 0 && IsWhitespace(s[|s| - 1]) then
      var r := RStrip(s[..|s| - 1]);
      assert s[..|s| - 1][..|r|] == s[..|r|];
      assert forall i :: 0 <= i < |s| - 1 ==> s[i] == s[..|s| - 1][i];
      r
    else s
  }

  /** line.lstrip() */
  function LStrip(s: string): (r: string)
    ensures |r| <= |s| && r == s[|s| - |r|..]
    ensures forall i :: 0 <= i < |s| - |r| ==> IsWhitespace(s[i])
    ensures |r| > 0 ==> !IsWhitespace(r[0])
  {
    if |s| > 0 && IsWhitespace(s[0]) then
      var r := LStrip(s[1..]);
      assert s[1..][|s| - 1 - |r|..] == s[|s| - |r|..];
      assert forall i :: 1 <= i < |s| ==> s[i] == s[1..][i - 1];
      r
    else s
  }

  /** The number of spaces the string starts with. */
  function LeadingSpaces(s: string): (k: nat)
    ensures k <= |s|
    ensures forall j :: 0 <= j < k ==> s[j] == ' '
    ensures k < |s| ==> s[k] != ' '
  {
    if |s| > 0 && s[0] == ' ' then 1 + LeadingSpaces(s[1..]) else 0
  }

  lemma LeadingSpacesUnique(s: string, k: nat)
    requires k <= |s|
    requires forall j :: 0 <= j < k ==> s[j] == ' '
    requires k < |s| ==> s[k] != ' '
    ensures LeadingSpaces(s) == k
  {
  }

  /** re.match(r'^ +\d', s): one or more spaces, then a digit. */
  predicate MatchesLinePattern(s: string)
  {
    var k := LeadingSpaces(s);
    1 <= k < |s| && IsDigit(s[k])
  }

  /** A data line: its right-stripped form matches the line pattern. */
  predicate IsDataLine(line: string)
  {
    MatchesLinePattern(RStrip(line))
  }

  /** Right-stripping never changes whether a line is a data line, since the
      pattern ends in a digit, which is not whitespace. */
  lemma DataLineIgnoresRStrip(line: string)
    ensures IsDataLine(line) <==> MatchesLinePattern(line)
  {
    var t := RStrip(line);
    if MatchesLinePattern(line) {
      var k := LeadingSpaces(line);
      assert !IsWhitespace(line[k]);
      assert k < |t|;
      LeadingSpacesUnique(t, k);
    }
    if MatchesLinePattern(t) {
      var k := LeadingSpaces(t);
      LeadingSpacesUnique(line, k);
    }
  }

  /** On a data line, lstrip() removes exactly the leading spaces, so the first
      field starts at the first digit. */
  lemma DataLineLStrip(line: string)
    requires MatchesLinePattern(line)
    ensures LStrip(line) == line[LeadingSpaces(line)..]
    ensures IsDigit(LStrip(line)[0])
  {
    var k := LeadingSpaces(line);
    var r := LStrip(line);
    var d := |line| - |r|;
    assert !IsWhitespace(line[k]);
    assert d <= k;
    assert r[0] == line[d];
    assert d == k;
  }

  // ---------------------------------------------------------------------
  // Field splitting: re.split(' +', line.lstrip())
  // ---------------------------------------------------------------------

  function IndexOfSpace(s: string): (i: nat)
    requires ' ' in s
    ensures i < |s| && s[i] == ' ' && ' ' !in s[..i]
  {
    if s[0] == ' ' then 0 else 1 + IndexOfSpace(s[1..])
  }

  /** re.split(' +', s): the pieces between maximal runs of spaces. */
  function SplitSpaces(s: string): (fields: seq<string>)
    ensures |fields| >= 1
    ensures forall i :: 0 <= i < |fields| ==> ' ' !in fields[i]
    decreases |s|
  {
    if ' ' !in s then [s]
    else
      var i := IndexOfSpace(s);
      var j := i + LeadingSpaces(s[i..]);
      [s[..i]] + SplitSpaces(s[j..])
  }

  function Concat(fields: seq<string>): string
  {
    if fields == [] then [] else fields[0] + Concat(fields[1..])
  }

  /** s with every space removed. */
  function WithoutSpaces(s: string): string
  {
    if s == [] then [] else (if s[0] == ' ' then [] else [s[0]]) + WithoutSpaces(s[1..])
  }

  lemma {:induction false} WithoutSpacesAppend(a: string, b: string)
    ensures WithoutSpaces(a + b) == WithoutSpaces(a) + WithoutSpaces(b)
  {
    if a == [] {
      assert a + b == b;
    } else {
      assert (a + b)[1..] == a[1..] + b;
      WithoutSpacesAppend(a[1..], b);
    }
  }

  lemma {:induction false} WithoutSpacesNoSpace(s: string)
    requires ' ' !in s
    ensures WithoutSpaces(s) == s
  {
    if s != [] {
      assert ' ' !in s[1..];
      WithoutSpacesNoSpace(s[1..]);
    }
  }

  lemma {:induction false} WithoutSpacesAllSpaces(s: string)
    requires forall j :: 0 <= j < |s| ==> s[j] == ' '
    ensures WithoutSpaces(s) == []
  {
    if s != [] {
      WithoutSpacesAllSpaces(s[1..]);
    }
  }

  lemma WithoutSpacesJoin(head: string, run: string, tail: string)
    requires ' ' !in head
    requires forall k :: 0 <= k < |run| ==> run[k] == ' '
    ensures WithoutSpaces(head + (run + tail)) == head + WithoutSpaces(tail)
  {
    var rest := WithoutSpaces(tail);
    calc {
      WithoutSpaces(head + (run + tail));
    == { WithoutSpacesAppend(head, run + tail); }
      WithoutSpaces(head) + WithoutSpaces(run + tail);
    == { WithoutSpacesNoSpace(head); }
      head + WithoutSpaces(run + tail);
    == { WithoutSpacesAppend(run, tail); WithoutSpacesAllSpaces(run); assert [] + rest == rest; }
      head + rest;
    }
  }

  lemma SplitInThree(s: string, i: nat, j: nat)
    requires i <= j <= |s|
    ensures s == s[..i] + (s[i..j] + s[j..])
  {
    assert s[i..] == s[i..j] + s[j..];
    assert s == s[..i] + s[i..];
  }

  lemma SpacesBetween(s: string, i: nat, j: nat)
    requires i <= j <= |s|
    requires forall m :: i <= m < j ==> s[m] == ' '
    ensures forall k :: 0 <= k < |s[i..j]| ==> s[i..j][k] == ' '
  {
  }

  lemma WithoutSpacesAroundRun(s: string, i: nat, j: nat)
    requires i <= j <= |s|
    requires ' ' !in s[..i]
    requires forall m :: i <= m < j ==> s[m] == ' '
    ensures WithoutSpaces(s) == s[..i] + WithoutSpaces(s[j..])
  {
    SplitInThree(s, i, j);
    SpacesBetween(s, i, j);
    WithoutSpacesJoin(s[..i], s[i..j], s[j..]);
  }

  lemma ConcatCons(head: string, rest: seq<string>)
    ensures Concat([head] + rest) == head + Concat(rest)
  {
    assert ([head] + rest)[1..] == rest;
  }

  /** Splitting loses nothing but the separating spaces: the fields, put back
      together, are the input with its spaces removed. */
  lemma {:induction false} SplitSpacesLosesOnlySpaces(s: string)
    ensures Concat(SplitSpaces(s)) == WithoutSpaces(s)
    decreases |s|
  {
    if ' ' !in s {
      WithoutSpacesNoSpace(s);
      ConcatCons(s, []);
    } else {
      var i := IndexOfSpace(s);
      var j := i + LeadingSpaces(s[i..]);
      SplitSpacesLosesOnlySpaces(s[j..]);
      ConcatCons(s[..i], SplitSpaces(s[j..]));
      WithoutSpacesAroundRun(s, i, j);
    }
  }

  /** Every field but the first and the last is non-empty: runs of spaces
      count as one separator. */
  lemma {:induction false} SplitSpacesInnerFieldsNonEmpty(s: string)
    ensures forall i :: 0 < i < |SplitSpaces(s)| - 1 ==> SplitSpaces(s)[i] != []
    decreases |s|
  {
    if ' ' in s {
      var i := IndexOfSpace(s);
      var j := i + LeadingSpaces(s[i..]);
      var rest := SplitSpaces(s[j..]);
      SplitSpacesInnerFieldsNonEmpty(s[j..]);
      if |rest| > 1 {
        // s[j..] does not start with a space, so its first field is not empty
        assert s[j..][0] != ' ';
        assert ' ' in s[j..];
        assert IndexOfSpace(s[j..]) > 0;
      }
    }
  }

  /** The fields joined with one space between neighbours. */
  function JoinSpaces(fs: seq<string>): string
  {
    if |fs| <= 1 then (if fs == [] then [] else fs[0]) else fs[0] + " " + JoinSpaces(fs[1..])
  }

  /** Fields re.split(' +', ...) can give: none contains a space, and only
      the first and the last can be empty. */
  predicate SplitShaped(fs: seq<string>)
  {
    && |fs| >= 1
    && (forall i :: 0 <= i < |fs| ==> ' ' !in fs[i])
    && (forall i :: 0 < i < |fs| - 1 ==> fs[i] != [])
  }

  lemma IndexOfSpaceUnique(s: string, i: nat)
    requires i < |s| && s[i] == ' ' && ' ' !in s[..i]
    ensures IndexOfSpace(s) == i
  {
  }

  /** A joined string starts with a space only when its first field is
      empty and another follows. */
  lemma JoinSpacesStart(fs: seq<string>)
    requires SplitShaped(fs) && |fs| >= 2
    ensures JoinSpaces(fs[1..]) == [] || JoinSpaces(fs[1..])[0] != ' '
  {
    var rest := fs[1..];
    if |rest| == 1 {
      assert JoinSpaces(rest) == fs[1];
      if fs[1] != [] {
        assert fs[1][0] in fs[1];
      }
    } else {
      assert fs[1] != [] && fs[1][0] in fs[1];
      assert JoinSpaces(rest) == fs[1] + " " + JoinSpaces(rest[1..]);
    }
  }

  /** Splitting undoes joining: the cuts fall exactly at the separators. */
  lemma {:induction false} SplitJoin(fs: seq<string>)
    requires SplitShaped(fs)
    ensures SplitSpaces(JoinSpaces(fs)) == fs
    decreases |fs|
  {
    if |fs| == 1 {
      assert JoinSpaces(fs) == fs[0];
      assert [fs[0]] == fs;
    } else {
      var head, rest := fs[0], fs[1..];
      var t := JoinSpaces(rest);
      var s := JoinSpaces(fs);
      assert s == head + " " + t;
      var i := |head|;
      assert s[..i] == head && s[i] == ' ';
      IndexOfSpaceUnique(s, i);
      JoinSpacesStart(fs);
      assert s[i..] == " " + t;
      assert LeadingSpaces(t) == 0;
      assert LeadingSpaces(s[i..]) == 1 by {
        assert (" " + t)[1..] == t;
      }
      assert s[i + 1..] == t;
      assert SplitShaped(rest) by {
        assert forall k :: 0 <= k < |rest| ==> rest[k] == fs[k + 1];
      }
      SplitJoin(rest);
      assert [head] + rest == fs;
    }
  }

  /** The fields joined with runs of spaces: field i is followed by ns[i]
      spaces, as in the columns of a .CUR data line. */
  function JoinRuns(fs: seq<string>, ns: seq<nat>): string
    requires |fs| >= 1 && |ns| == |fs| - 1
  {
    if |fs| == 1 then fs[0]
    else fs[0] + seq(ns[0], _ => ' ') + JoinRuns(fs[1..], ns[1..])
  }

  /** A string joined from split-shaped fields starts with a space only when
      its first field is empty and another follows. */
  lemma JoinRunsStart(fs: seq<string>, ns: seq<nat>)
    requires SplitShaped(fs) && |fs| >= 2 && |ns| == |fs| - 1
    ensures JoinRuns(fs[1..], ns[1..]) == [] || JoinRuns(fs[1..], ns[1..])[0] != ' '
  {
    var rest, more := fs[1..], ns[1..];
    if |rest| == 1 {
      assert JoinRuns(rest, more) == fs[1];
      if fs[1] != [] {
        assert fs[1][0] in fs[1];
      }
    } else {
      assert fs[1] != [] && fs[1][0] in fs[1];
      assert JoinRuns(rest, more) == fs[1] + seq(more[0], _ => ' ') + JoinRuns(rest[1..], more[1..]);
    }
  }

  /** Splitting undoes joining with runs of any length: every run of one or
      more spaces is exactly one cut, so "1  2" gives ["1", "2"]. */
  lemma {:induction false} SplitJoinRuns(fs: seq<string>, ns: seq<nat>)
    requires SplitShaped(fs) && |ns| == |fs| - 1
    requires forall i :: 0 <= i < |ns| ==> ns[i] >= 1
    ensures SplitSpaces(JoinRuns(fs, ns)) == fs
    decreases |fs|
  {
    if |fs| == 1 {
      assert JoinRuns(fs, ns) == fs[0];
      assert [fs[0]] == fs;
    } else {
      var head, rest, n := fs[0], fs[1..], ns[0];
      var run := seq(n, _ => ' ');
      var t := JoinRuns(rest, ns[1..]);
      var s := JoinRuns(fs, ns);
      assert s == head + (run + t);
      var i := |head|;
      assert s[..i] == head && s[i] == run[0] == ' ';
      IndexOfSpaceUnique(s, i);
      JoinRunsStart(fs, ns);
      assert s[i..] == run + t;
      LeadingSpacesUnique(s[i..], n);
      assert s[i + n..] == t;
      assert SplitShaped(rest) by {
        assert forall k :: 0 <= k < |rest| ==> rest[k] == fs[k + 1];
      }
      assert forall k :: 0 <= k < |ns[1..]| ==> ns[1..][k] == ns[k + 1];
      SplitJoinRuns(rest, ns[1..]);
      assert [head] + rest == fs;
    }
  }

  /** A run of two spaces between two fields is one cut. */
  lemma SplitTwoSpaces()
    ensures SplitSpaces("1  2") == ["1", "2"]
  {
    assert JoinRuns(["1", "2"], [2]) == "1  2";
    SplitJoinRuns(["1", "2"], [2]);
  }

  // ---------------------------------------------------------------------
  // Decoding one data line and all of them
  // ---------------------------------------------------------------------

  /** The fields of a line: re.split(' +', line.lstrip()). */
  function Fields(line: string): seq<string>
  {
    SplitSpaces(LStrip(line))
  }

  /** The first two fields of a line, decoded as temperature and
      susceptibility; None where Python raises ValueError (a field float()
      refuses, or fewer than two fields to unpack). */
  function DecodeLine(line: string, decode: string -> Option<real>): Option<Reading>
  {
    var fields := Fields(line);
    if |fields| < 2 then None
    else
      match (decode(fields[0]), decode(fields[1]))
      case (Some(t), Some(m)) => Some(Reading(t, m))
      case _ => None
  }

  /** What one line of the file contributes: nothing (it is not a data
      line), a reading, or the ValueError of a data line that does not
      decode. */
  datatype LineKind = Skip | Data(reading: Reading) | Bad

  function Classify(line: string, decode: string -> Option<real>): LineKind
  {
    if !IsDataLine(line) then Skip
    else
      match DecodeLine(line, decode)
      case None => Bad
      case Some(reading) => Data(reading)
  }

  /** The line is not a data line, or it is one whose fields decode. */
  predicate LineDecodes(line: string, decode: string -> Option<real>)
  {
    IsDataLine(line) ==> DecodeLine(line, decode).Some?
  }

  /** The kind of every line, in file order. */
  function Kinds(lines: seq<string>, decode: string -> Option<real>): (ks: seq<LineKind>)
    ensures |ks| == |lines|
    ensures forall j :: 0 <= j < |lines| ==> ks[j] == Classify(lines[j], decode)
    ensures forall j :: 0 <= j < |lines| ==> (ks[j].Bad? <==> !LineDecodes(lines[j], decode))
  {
    seq(|lines|, j requires 0 <= j < |lines| => Classify(lines[j], decode))
  }

  /** The loop's effect of line number n, of kind k, on what the lines before
      it gave. */
  function Extend(before: Result<seq<Reading>>, k: LineKind, n: nat): Result<seq<Reading>>
  {
    if before.Err? then before
    else
      match k
      case Skip => before
      case Bad => Err(ParseError(n))
      case Data(reading) => Ok(before.value + [reading])
  }

  /** The readings of the lines of kind Data, in order, or the ParseError of
      the first line of kind Bad. */
  function Collect(ks: seq<LineKind>): (r: Result<seq<Reading>>)
    ensures r.Ok? <==> forall j :: 0 <= j < |ks| ==> !ks[j].Bad?
    ensures r.Err? ==>
      && r.error.ParseError?
      && r.error.line < |ks|
      && ks[r.error.line].Bad?
      && forall j :: 0 <= j < r.error.line ==> !ks[j].Bad?
  {
    if ks == [] then Ok([])
    else
      var n := |ks| - 1;
      assert forall j :: 0 <= j < n ==> ks[..n][j] == ks[j];
      Extend(Collect(ks[..n]), ks[n], n)
  }

  /** The readings of the data lines, in file order, or the ParseError of the
      first data line that does not decode. */
  function DecodeLines(lines: seq<string>, decode: string -> Option<real>): (r: Result<seq<Reading>>)
    ensures r.Ok? <==> forall j :: 0 <= j < |lines| ==> LineDecodes(lines[j], decode)
    ensures r.Err? ==>
      && r.error.ParseError?
      && r.error.line < |lines|
      && !LineDecodes(lines[r.error.line], decode)
      && forall j :: 0 <= j < r.error.line ==> LineDecodes(lines[j], decode)
  {
    Collect(Kinds(lines, decode))
  }

  /** Reading one more line extends the result for the lines before it. */
  lemma DecodeLinesSnoc(lines: seq<string>, i: nat, decode: string -> Option<real>)
    requires i < |lines|
    ensures DecodeLines(lines[..i + 1], decode) == Extend(DecodeLines(lines[..i], decode), Classify(lines[i], decode), i)
  {
    var ks := Kinds(lines[..i + 1], decode);
    assert ks[..i] == Kinds(lines[..i], decode);
    assert ks[i] == Classify(lines[i], decode);
  }

  /** Once a prefix of the file fails to decode, the whole file fails with the
      same error: the error names the first line that does not decode. */
  lemma DecodePrefixErr(lines: seq<string>, i: nat, decode: string -> Option<real>)
    requires i <= |lines|
    requires DecodeLines(lines[..i], decode).Err?
    ensures DecodeLines(lines, decode) == DecodeLines(lines[..i], decode)
  {
    var e := DecodeLines(lines[..i], decode).error.line;
    assert lines[..i][e] == lines[e];
    assert forall j :: 0 <= j < e ==> lines[..i][j] == lines[j];
  }

  // ---------------------------------------------------------------------
  // The heating / cooling state machine
  // ---------------------------------------------------------------------

  /** prev_temp before the first reading. */
  const InitialPrevTemp: real := -300.0

  /** A reading more than this far below the previous one starts cooling. */
  const Hysteresis: real := 0.5

  /** The loop's variables: the two curves being built, the flag `cool` (the
      list `current` points to is the cooling one exactly when it is set) and
      `prev_temp`. */
  datatype SegState = SegState(heating: Curve, cooling: Curve, cool: bool, prevTemp: real)

  const Start: SegState := SegState(Curve([], []), Curve([], []), false, InitialPrevTemp)

  /** One iteration of the loop on a data reading. */
  function Step(s: SegState, r: Reading): SegState
  {
    var cool := s.cool || r.temp < s.prevTemp - Hysteresis;
    if cool then SegState(s.heating, Append(s.cooling, r), true, r.temp)
    else SegState(Append(s.heating, r), s.cooling, false, r.temp)
  }

  /** The loop's state after the given readings. */
  function Run(rs: seq<Reading>): SegState
  {
    if rs == [] then Start else Step(Run(rs[..|rs| - 1]), rs[|rs| - 1])
  }

  lemma RunSnoc(rs: seq<Reading>, r: Reading)
    ensures Run(rs + [r]) == Step(Run(rs), r)
  {
    assert (rs + [r])[..|rs|] == rs;
  }

  /** prev_temp as it stands when reading i is examined. */
  function PrevTemp(rs: seq<Reading>, i: nat): real
    requires i <= |rs|
  {
    if i == 0 then InitialPrevTemp else rs[i - 1].temp
  }

  /** Reading i is more than the hysteresis below its predecessor. */
  predicate IsDrop(rs: seq<Reading>, i: nat)
    requires i < |rs|
  {
    rs[i].temp < PrevTemp(rs, i) - Hysteresis
  }

  function FirstDropFrom(rs: seq<Reading>, i: nat): (k: nat)
    requires i <= |rs|
    ensures i <= k <= |rs|
    ensures forall j :: i <= j < k ==> !IsDrop(rs, j)
    ensures k < |rs| ==> IsDrop(rs, k)
    decreases |rs| - i
  {
    if i == |rs| || IsDrop(rs, i) then i else FirstDropFrom(rs, i + 1)
  }

  /** The index of the first reading more than 0.5 below its predecessor, or
      the number of readings when there is none: where cooling starts. */
  function FirstDrop(rs: seq<Reading>): (k: nat)
    ensures k <= |rs|
    ensures forall j :: 0 <= j < k ==> !IsDrop(rs, j)
    ensures k < |rs| ==> IsDrop(rs, k)
  {
    FirstDropFrom(rs, 0)
  }

  lemma FirstDropUnique(rs: seq<Reading>, k: nat)
    requires k <= |rs|
    requires forall j :: 0 <= j < k ==> !IsDrop(rs, j)
    requires k < |rs| ==> IsDrop(rs, k)
    ensures FirstDrop(rs) == k
  {
  }

  /** The state described by a split at the first drop. */
  function SplitState(rs: seq<Reading>): SegState
  {
    var k := FirstDrop(rs);
    SegState(CurveOf(rs[..k]), CurveOf(rs[k..]), k < |rs|, PrevTemp(rs, |rs|))
  }

  lemma FirstDropSnoc(p: seq<Reading>, r: Reading)
    ensures FirstDrop(p + [r]) ==
      if FirstDrop(p) < |p| then FirstDrop(p)
      else if r.temp < PrevTemp(p, |p|) - Hysteresis then |p|
      else |p| + 1
  {
    var rs := p + [r];
    var n := |p|;
    assert forall j :: 0 <= j < n ==> (IsDrop(p, j) <==> IsDrop(rs, j));
    assert PrevTemp(p, n) == PrevTemp(rs, n);
    var k := FirstDrop(p);
    if k < n {
      FirstDropUnique(rs, k);
    } else if IsDrop(rs, n) {
      FirstDropUnique(rs, n);
    } else {
      FirstDropUnique(rs, n + 1);
    }
  }

  /** One more reading keeps the state a split at the first drop. */
  lemma StepKeepsSplit(p: seq<Reading>, r: Reading)
    ensures Step(SplitState(p), r) == SplitState(p + [r])
  {
    var rs := p + [r];
    var n := |p|;
    var k := FirstDrop(p);
    FirstDropSnoc(p, r);
    assert PrevTemp(rs, n + 1) == r.temp;
    if k < n {
      assert rs[..k] == p[..k];
      assert rs[k..] == p[k..] + [r];
      CurveOfSnoc(p[k..], r);
    } else if r.temp < PrevTemp(p, n) - Hysteresis {
      assert rs[..n] == p[..k];
      assert rs[n..] == [] + [r];
      CurveOfSnoc([], r);
      assert p[k..] == [];
    } else {
      assert rs[..n + 1] == p[..k] + [r];
      CurveOfSnoc(p[..k], r);
      assert p[k..] == [] && rs[n + 1..] == [];
    }
  }

  /** The state machine splits the readings at the first drop: everything
      before it is heating, it and everything after it (whatever later
      readings do) is cooling, and prev_temp is the last temperature read. */
  lemma {:induction false} RunSplitsAtFirstDrop(rs: seq<Reading>)
    ensures var k := FirstDrop(rs);
      Run(rs) == SegState(CurveOf(rs[..k]), CurveOf(rs[k..]), k < |rs|, PrevTemp(rs, |rs|))
  {
    if rs == [] {
      assert Run(rs) == SplitState(rs);
    } else {
      var n := |rs| - 1;
      RunSplitsAtFirstDrop(rs[..n]);
      StepKeepsSplit(rs[..n], rs[n]);
      assert rs[..n] + [rs[n]] == rs;
    }
  }

  /** The post-processing after the loop: reverse the cooling arrays, then drop
      the first element of every array. */
  function Finish(s: SegState): CurvePair
  {
    var cooling := Curve(Reverse(s.cooling.temps), Reverse(s.cooling.ms));
    CurvePair(Curve(DropFirst(s.heating.temps), DropFirst(s.heating.ms)),
              Curve(DropFirst(cooling.temps), DropFirst(cooling.ms)))
  }

  /** The two curves read_cur_file returns for the decoded readings. */
  function Segment(rs: seq<Reading>): CurvePair
  {
    Finish(Run(rs))
  }

  /** What read_cur_file returns for a file, or the ParseError it raises. */
  function ReadCur(lines: seq<string>, decode: string -> Option<real>): Result<CurvePair>
  {
    match DecodeLines(lines, decode)
    case Err(e) => Err(e)
    case Ok(rs) => Ok(Segment(rs))
  }

  lemma DropFirstReverse<T>(s: seq<T>)
    requires |s| > 0
    ensures DropFirst(Reverse(s)) == Reverse(s[..|s| - 1])
  {
    var a, b := DropFirst(Reverse(s)), Reverse(s[..|s| - 1]);
    forall i | 0 <= i < |a| ensures a[i] == b[i] {
      assert a[i] == Reverse(s)[i + 1] == s[|s| - 2 - i];
    }
  }

  lemma ReverseCurveOf(rs: seq<Reading>)
    ensures Reverse(CurveOf(rs).temps) == CurveOf(Reverse(rs)).temps
    ensures Reverse(CurveOf(rs).ms) == CurveOf(Reverse(rs)).ms
  {
  }

  lemma ReverseDropFirst(rs: seq<Reading>)
    requires |rs| > 0
    ensures DropFirst(Reverse(CurveOf(rs).temps)) == CurveOf(Reverse(rs[..|rs| - 1])).temps
    ensures DropFirst(Reverse(CurveOf(rs).ms)) == CurveOf(Reverse(rs[..|rs| - 1])).ms
  {
    var c := CurveOf(rs);
    var front := rs[..|rs| - 1];
    DropFirstReverse(c.temps);
    DropFirstReverse(c.ms);
    assert c.temps[..|rs| - 1] == CurveOf(front).temps;
    assert c.ms[..|rs| - 1] == CurveOf(front).ms;
    ReverseCurveOf(front);
  }

  /** The shape of the output. With k the index of the first drop: the heating
      curve is readings 1 .. k-1 (reading 0 is discarded), and the cooling
      curve is readings k .. n-2 in reverse file order, so the cooling point
      that is discarded is the last reading in the file. Both curves have
      equal-length arrays, one point shorter than their segment (an empty
      segment stays empty). */
  lemma SegmentShape(rs: seq<Reading>)
    ensures var k := FirstDrop(rs); var out := Segment(rs);
      && out.heating == CurveOf(if k == 0 then [] else rs[1..k])
      && out.cooling == CurveOf(if k == |rs| then [] else Reverse(rs[k..|rs| - 1]))
      && |out.heating.temps| == |out.heating.ms| == (if k == 0 then 0 else k - 1)
      && |out.cooling.temps| == |out.cooling.ms| == (if k == |rs| then 0 else |rs| - k - 1)
  {
    var k := FirstDrop(rs);
    RunSplitsAtFirstDrop(rs);
    var h := CurveOf(rs[..k]);
    if k > 0 {
      assert DropFirst(h.temps) == CurveOf(rs[1..k]).temps;
      assert DropFirst(h.ms) == CurveOf(rs[1..k]).ms;
    }
    if k < |rs| {
      var c := rs[k..];
      ReverseDropFirst(c);
      assert c[..|c| - 1] == rs[k..|rs| - 1];
    }
  }

  lemma ReversedFallingRises(seg: seq<Reading>)
    requires StrictlyDecreasing(CurveOf(seg).temps)
    ensures StrictlyIncreasing(CurveOf(Reverse(seg)).temps)
  {
    var t := CurveOf(seg).temps;
    ReverseOfDecreasing(t);
    assert CurveOf(Reverse(seg)).temps == Reverse(t);
  }

  lemma FallingPrefix(rs: seq<Reading>, k: nat)
    requires k < |rs|
    requires StrictlyDecreasing(CurveOf(rs[k..]).temps)
    ensures StrictlyDecreasing(CurveOf(rs[k..|rs| - 1]).temps)
  {
    var whole := CurveOf(rs[k..]).temps;
    assert CurveOf(rs[k..|rs| - 1]).temps == whole[..|whole| - 1];
  }

  /** When the readings from the switch on fall strictly, as the instrument
      records a cooling run, the cooling curve comes out in strictly increasing
      temperature order. */
  lemma CoolingIncreases(rs: seq<Reading>)
    requires StrictlyDecreasing(CurveOf(rs[FirstDrop(rs)..]).temps)
    ensures StrictlyIncreasing(Segment(rs).cooling.temps)
  {
    SegmentShape(rs);
    var k := FirstDrop(rs);
    if k < |rs| {
      FallingPrefix(rs, k);
      ReversedFallingRises(rs[k..|rs| - 1]);
    }
  }

  // ---------------------------------------------------------------------
  // read_cur_file
  // ---------------------------------------------------------------------

  /** read_cur_file on the lines of a file: the loop over lines with its
      three variables, then the reversal and the dropped first points. */
  method ReadCurFile(lines: seq<string>, decode: string -> Option<real>) returns (r: Result<CurvePair>)
    ensures r == ReadCur(lines, decode)
  {
    var heating := Curve([], []);
    var cooling := Curve([], []);
    var cool := false;
    var prevTemp := InitialPrevTemp;
    ghost var readings: seq<Reading> := [];
    for i := 0 to |lines|
      invariant DecodeLines(lines[..i], decode) == Ok(readings)
      invariant Run(readings) == SegState(heating, cooling, cool, prevTemp)
    {
      DecodeLinesSnoc(lines, i, decode);
      var line := lines[i];
      if IsDataLine(line) {
        var reading := DecodeLine(line, decode);
        if reading.None? {
          DecodePrefixErr(lines, i + 1, decode);
          return Err(ParseError(i));
        }
        ghost var before := SegState(heating, cooling, cool, prevTemp);
        var temperature, magSus := reading.value.temp, reading.value.ms;
        if temperature < prevTemp - Hysteresis && !cool {
          cool := true;
        }
        if cool {
          cooling := Curve(cooling.temps + [temperature], cooling.ms + [magSus]);
        } else {
          heating := Curve(heating.temps + [temperature], heating.ms + [magSus]);
        }
        prevTemp := temperature;
        assert SegState(heating, cooling, cool, prevTemp) == Step(before, reading.value);
        RunSnoc(readings, reading.value);
        readings := readings + [reading.value];
      }
    }
    assert lines[..|lines|] == lines;
    cooling := Curve(Reverse(cooling.temps), Reverse(cooling.ms));
    r := Ok(CurvePair(Curve(DropFirst(heating.temps), DropFirst(heating.ms)),
                      Curve(DropFirst(cooling.temps), DropFirst(cooling.ms))));
  }
}
