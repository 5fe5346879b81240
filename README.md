# tdmagsus core, modelled in Dafny

This project models the sequence-shaped logic of `tdmagsus/tdms.py`, a
library for temperature-dependent magnetic susceptibility (MS) data from
AGICO kappabridges. It covers these pieces:

- **Reading a .CUR file** (`read_cur_file`). The file is given as its lines:
  - data lines are picked out by the pattern `^ +\d` on the right-stripped line;
  - the first two space-separated fields are decoded;
  - a state machine splits the readings into heating and cooling;
  - the cooling arrays are reversed, then the first point of each curve is dropped.
- **The furnace baseline** (`Furnace`):
  - end padding (`extend_data`);
  - pointwise subtraction of a spline (`correct_with_spline`, `correct`);
  - construction from a file.
- **A measurement cycle** (`MeasurementCycle`):
  - construction (parse, furnace correction, volume normalisation);
  - the transforms `chop_data`, `correct_for_volume` and `shunt_up`.
- **A measurement set** (`MeasurementSet`):
  - `filename_to_temp`;
  - `read_files` over a given list of file names;
  - rescaling to an order of magnitude (`set_oom`);
  - `shunt` and `make_zero_at_700`.

## How the model represents the source

- MS values and temperatures are `real`.
- A spline is an abstract function `real -> real`.
- Spline fitting is a parameter `fit: (Curve, real) -> (real -> real)`.
- Python's `float()` on a text field is a parameter `decode: string -> Option<real>`. `None` is the `ValueError` case.
- The file system is a `Storage` value. It holds the lines of each named file and `decode`.
- The exceptions the code can raise are `Err` values of a `Result`:
  - `ParseError(line)`, for the `ValueError` that `float()` or the unpacking of the fields raises (lines 64-65). The line number is the model's addition; the Python exception carries none;
  - `IndexError`;
  - `ZeroDivisionError`;
  - `KeyError(700)`;
  - `EmptyMin`, the `ValueError` of `min([])`.

Where the source changes state step by step, the model is imperative:

- the loops of `read_cur_file`, `correct_with_spline` and `chop_data` are `method`s with loop invariants;
- `set_oom`, `make_zero_at_700` and `read_files` are methods of a class `MeasurementSet` whose fields `cycles` and `oom` they update.

Each method is proved equal to a specification function. The properties are then proved about those functions.

Modules:

- `Curves` (`curves.dfy`): the shared data model and the sequence operations. These are Python slicing, `list.reverse()`, `min()` and the comprehensions.
- `CurFile` (`cur_file.dfy`): `read_cur_file`.
- `FurnaceBaseline` (`furnace.dfy`): `Furnace`.
- `MeasurementCycles` (`measurement_cycle.dfy`): `MeasurementCycle`.
- `MeasurementSets` (`measurement_sets.dfy`): `MeasurementSet`.

Three details of the code that the model keeps:

- `make_zero_at_700` takes its offset from the last five **heating** values of the 700-degree cycle, `self.cycles[700][0][1][-5:]` (line 304).
- The cooling point `read_cur_file` discards is the **last** one recorded in the file. The reversal at lines 73-74 comes before the slice at line 76.
- The order of magnitude starts at -6. In the model it is an integer; in the code it is the float `-6.`.

## Model

| member | source | states |
|---|---|---|
| Curves.DropFirst | tdmagsus/tdms.py:75-76 | `s[1:]`: empty stays empty; otherwise one element shorter, with element i the input's element i+1 |
| Curves.LastFive | tdmagsus/tdms.py:304 | `s[-5:]`: the last min(5, len) elements, in order |
| Curves.Reverse | tdmagsus/tdms.py:73-74 | `list.reverse()`: same length, element i is the input's element len-1-i |
| Curves.ReverseReverse | tdmagsus/tdms.py:73-74 | reversing twice gives the original list back |
| Curves.ReverseOfDecreasing | tdmagsus/tdms.py:73-74 | reversing a strictly decreasing sequence gives a strictly increasing one |
| Curves.Min | tdmagsus/tdms.py:285 | `min()` of a non-empty sequence is an element of it and at most every element |
| Curves.MinUnique | tdmagsus/tdms.py:285 | any element that is at most every element is the minimum |
| Curves.Scaled | tdmagsus/tdms.py:267 | the comprehension `[k * d for d in s]`: same length, each element times k |
| Curves.Shifted | tdmagsus/tdms.py:297-298 | the comprehension `[m + d for m in s]`: same length, each element plus d |
| Curves.ShiftedMin | tdmagsus/tdms.py:287 | the minimum of a shifted sequence is the old minimum plus the shift |
| Curves.ScaledTwice | tdmagsus/tdms.py:323-324 | scaling by a and then by b is scaling by a*b |
| Curves.ShiftedLastFive | tdmagsus/tdms.py:304-307 | the last five values of a shifted sequence are the shifted last five |
| CurFile.RStrip | tdmagsus/tdms.py:63 | `rstrip()`: a prefix of the line; everything removed is whitespace; the result does not end in whitespace |
| CurFile.LStrip | tdmagsus/tdms.py:65 | `lstrip()`: a suffix of the line; everything removed is whitespace; the result does not start with whitespace |
| CurFile.LeadingSpaces | tdmagsus/tdms.py:38 | the length of the run of spaces a line starts with: all spaces up to it, and no space at it |
| CurFile.LeadingSpacesUnique | tdmagsus/tdms.py:38 | any index with the leading-run property is that length |
| CurFile.IsDataLine | tdmagsus/tdms.py:38 | the test `line_pattern.match(line.rstrip())` of line 63: the right-stripped line is one or more spaces and then a digit. DataLineIgnoresRStrip and DataLineLStrip state what follows from it |
| CurFile.DataLineIgnoresRStrip | tdmagsus/tdms.py:63 | matching `^ +\d` after `rstrip()` is the same as matching it on the raw line |
| CurFile.DataLineLStrip | tdmagsus/tdms.py:63-65 | on a data line, `lstrip()` drops exactly the leading spaces and leaves a digit first |
| CurFile.SplitSpaces | tdmagsus/tdms.py:39 | `re.split(' +', s)`: at least one field, and no field contains a space |
| CurFile.SplitSpacesLosesOnlySpaces | tdmagsus/tdms.py:39 | the fields joined back together are the input with all its spaces removed |
| CurFile.SplitSpacesInnerFieldsNonEmpty | tdmagsus/tdms.py:39 | only the first and the last field can be empty |
| CurFile.SplitJoin | tdmagsus/tdms.py:39 | splitting undoes joining with single spaces: fields with no spaces, where only the first and the last may be empty, joined with one space between neighbours split back into exactly those fields, so "1 2" gives ["1", "2"] |
| CurFile.SplitJoinRuns | tdmagsus/tdms.py:39 | the same for runs of any length: those fields joined with one or more spaces after each field but the last split back into exactly those fields. Every run of spaces is one cut |
| CurFile.SplitTwoSpaces | tdmagsus/tdms.py:39 | a run of two spaces is one cut: "1  2" gives ["1", "2"] |
| CurFile.DecodeLine | tdmagsus/tdms.py:64-65 | `map(float, fields[0:2])` unpacked into two names: a reading when the line has at least two fields and both decode, None (the ValueError) otherwise. Kinds states this contract for each line of a file |
| CurFile.Kinds | tdmagsus/tdms.py:62-65 | one kind per line; a line's kind is Bad exactly when it is a data line whose first two fields do not decode |
| CurFile.Collect | tdmagsus/tdms.py:62-71 | the readings succeed iff no line is Bad; otherwise the error names the first Bad line |
| CurFile.DecodeLines | tdmagsus/tdms.py:62-65 | the readings succeed iff every data line decodes; otherwise `ParseError(n)` where line n is the first data line that does not decode |
| CurFile.DecodeLinesSnoc | tdmagsus/tdms.py:62-71 | decoding one more line extends the earlier result by that line's reading, skip or error |
| CurFile.DecodePrefixErr | tdmagsus/tdms.py:64-65 | an error on a prefix of the file is the error of the whole file: later lines are never reached |
| CurFile.RunSnoc | tdmagsus/tdms.py:62-71 | the loop state after one more reading is one loop step applied to the earlier state |
| CurFile.FirstDropFrom | tdmagsus/tdms.py:66 | the first index at or after i whose reading is more than 0.5 below its predecessor, or the end |
| CurFile.FirstDrop | tdmagsus/tdms.py:61-66 | the first reading more than 0.5 below the previous temperature (-300 before the first), or the number of readings |
| CurFile.FirstDropUnique | tdmagsus/tdms.py:66 | any index with the first-drop property is that index |
| CurFile.FirstDropSnoc | tdmagsus/tdms.py:66-68 | one more reading leaves an existing first drop where it is; otherwise the new reading is the drop exactly when it falls more than 0.5 |
| CurFile.StepKeepsSplit | tdmagsus/tdms.py:66-71 | one loop step keeps the state "heating = readings before the first drop, cooling = the rest, cool iff a drop occurred" |
| CurFile.Step | tdmagsus/tdms.py:66-71 | one pass of the loop body: the reading goes to cooling once it falls more than 0.5 below the previous temperature or cooling has begun, otherwise to heating, and becomes the previous temperature. StepKeepsSplit and RunSplitsAtFirstDrop state what the steps together compute |
| CurFile.RunSplitsAtFirstDrop | tdmagsus/tdms.py:57-71 | after the loop, heating holds the readings before the first drop. Cooling holds that reading and every later one, whatever their temperatures, so the switch fires once. `cool` is set iff a drop occurred, and prev_temp is the last temperature read |
| CurFile.DropFirstReverse | tdmagsus/tdms.py:73-76 | dropping the first element after reversing is reversing without the last element |
| CurFile.ReverseCurveOf | tdmagsus/tdms.py:73-74 | reversing both arrays of a curve is the curve of the reversed readings |
| CurFile.ReverseDropFirst | tdmagsus/tdms.py:73-76 | the cooling curve returned is the reversal of the cooling readings without the last one recorded |
| CurFile.SegmentShape | tdmagsus/tdms.py:73-77 | The returned heating curve is the heating readings minus the first one. The returned cooling curve is the cooling readings minus the last one recorded, reversed. An empty segment stays empty. Each curve has equal-length arrays of length segment-1 |
| CurFile.Finish | tdmagsus/tdms.py:73-77 | what follows the loop: reverse both cooling lists, then drop the first element of all four. SegmentShape states the shape of its result |
| CurFile.ReversedFallingRises | tdmagsus/tdms.py:73-74 | a cooling run recorded with strictly falling temperatures ends up strictly rising after the reversal |
| CurFile.FallingPrefix | tdmagsus/tdms.py:73-76 | dropping the last cooling reading keeps a falling cooling run falling |
| CurFile.CoolingIncreases | tdmagsus/tdms.py:73-77 | when the readings from the first drop on fall strictly, the returned cooling temperatures rise strictly |
| CurFile.ReadCurFile | tdmagsus/tdms.py:42-77 | the loop over lines (the `cool` flag, prev_temp from -300, appends to the current curve), then the reversal and the dropped first points. It returns `ReadCur(lines, decode)`: the curve pair `Segment` describes, or the ParseError of the first bad data line |
| FurnaceBaseline.ExtendData | tdmagsus/tdms.py:96-103 | IndexError on an empty array. Otherwise both arrays are 4 longer: temperatures [t0-20, t0-10] + t + [tn+10, tn+20] and values [m0, m0] + m + [mn, mn]. Trimming two points from each end restores the input |
| FurnaceBaseline.PaddedInterior | tdmagsus/tdms.py:99-100 | the padded interior is the input, lying between its first and last temperature |
| FurnaceBaseline.ExtendDataKeepsIncreasing | tdmagsus/tdms.py:99-100 | padding strictly increasing temperatures gives strictly increasing temperatures |
| FurnaceBaseline.ExtendDataExample | tests/test_furnace.py:11-18 | ([30..60], [21..24]) pads to ([10, 20, ..., 80], [21, 21, 21, 22, 23, 24, 24, 24]) |
| FurnaceBaseline.Corrected | tdmagsus/tdms.py:135-139 | IndexError iff there are more temperatures than values. Otherwise the temperatures are unchanged and the length is the value array's. Value i is `mss[i] - spline(temps[i])` for i below the number of temperatures, and 0 (the `zeros_like` fill) beyond |
| FurnaceBaseline.CorrectedUndone | tdmagsus/tdms.py:138 | correcting with the negated spline undoes a correction |
| FurnaceBaseline.CorrectedTwice | tdmagsus/tdms.py:138 | correcting with s1 and then s2 is correcting with their pointwise sum |
| FurnaceBaseline.CorrectedExample | tests/test_furnace.py:20-32 | temps [30, 40, 50, 60], values [21..24] and spline values 5, 4, 3, 2 give [16, 18, 20, 22], temperatures unchanged |
| FurnaceBaseline.CorrectWithSpline | tdmagsus/tdms.py:135-139 | the index loop filling a zeroed array computes exactly the correction above |
| FurnaceBaseline.CorrectedPair | tdmagsus/tdms.py:141-145 | the heating curve is corrected with the heating spline and the cooling curve with the cooling spline; it fails iff either correction does |
| FurnaceBaseline.Correct | tdmagsus/tdms.py:141-145 | `Furnace.correct` returns that pair correction |
| FurnaceBaseline.FromCurves | tdmagsus/tdms.py:112-115 | the furnace fails iff a parsed curve has an empty array. Its data are the padded parsed curves, and each spline is fitted to its padded curve with the given smoothing |
| FurnaceBaseline.NewFurnace | tdmagsus/tdms.py:105-115 | `Furnace.__init__`: read the file, pad both curves, fit both splines; or the ParseError of reading or the IndexError of padding an empty curve (fitting cannot fail in the model) |
| FurnaceBaseline.NewFurnaceDefault | tdmagsus/tdms.py:105 | `Furnace(filename)` without a smoothing argument is the furnace with smoothing 100 |
| MeasurementCycles.CorrectForVolume | tdmagsus/tdms.py:265-267 | ZeroDivisionError iff the real volume is 0; otherwise every value times nom_vol / real_vol, same length |
| MeasurementCycles.VolumeRoundTrip | tdmagsus/tdms.py:265-267 | scaling by nom/real and then by real/nom gives the data back |
| MeasurementCycles.CycleDataPointwise | tdmagsus/tdms.py:155-162 | The cycle data fail iff the real volume is 0. Otherwise the temperatures are unchanged and each value is `nom/real * (ms - spline(temp))` with the matching furnace spline, or `nom/real * ms` without a furnace |
| MeasurementCycles.NewCycle | tdmagsus/tdms.py:151-162 | `MeasurementCycle.__init__`: it keeps furnace and volumes. Its data are the parsed file, furnace-corrected when there is a furnace, then volume-scaled; otherwise it returns the error that arises |
| MeasurementCycles.FilterAppend | tdmagsus/tdms.py:187-191 | the range filter distributes over concatenation |
| MeasurementCycles.FilterMembers | tdmagsus/tdms.py:189 | a reading is kept iff it is in the input and min_temp <= temp <= max_temp |
| MeasurementCycles.FilterTwice | tdmagsus/tdms.py:189 | filtering twice is filtering once by the intersection of the ranges |
| MeasurementCycles.ChopPrefixIsFilter | tdmagsus/tdms.py:184-191 | the first n loop iterations keep exactly the in-range (temp, ms) pairs among the first n, in order |
| MeasurementCycles.ChopIsFilter | tdmagsus/tdms.py:180-192 | `chop_data` returns exactly the in-range pairs, inclusive at both ends, in original order and not re-sorted |
| MeasurementCycles.ChopPrefixFails | tdmagsus/tdms.py:187-191 | the loop raises IndexError iff some in-range temperature has no value at its index |
| MeasurementCycles.ChopSampleFirstFour | tests/test_measurement_cycle.py:12-20 | the first four iterations on the test data keep (40, 4) and (60, 1) |
| MeasurementCycles.ChopExample | tests/test_measurement_cycle.py:12-20 | the range [25, 65] on the test data gives [40, 60, 50, 30] / [4, 1, 2, 6] |
| MeasurementCycles.ChopData | tdmagsus/tdms.py:180-192 | the append loop computes the chop |
| MeasurementCycles.ChopPrefixErrStays | tdmagsus/tdms.py:187-191 | an IndexError in the first n iterations is the result of the whole loop |
| MeasurementCycles.ShuntUp | tdmagsus/tdms.py:270-288 | Same length. Empty input, or input with minimum >= 0, comes back unchanged. Otherwise the minimum is subtracted from every value and the new minimum is 0. Every result is >= 0 |
| MeasurementCycles.ShuntUpIdempotent | tdmagsus/tdms.py:283-288 | applying `shunt_up` twice equals applying it once |
| MeasurementCycles.ShuntUpExample | tests/test_measurement_cycle.py:22-24 | [0, -0.5, 1.0] gives [0.5, 0, 1.5] |
| MeasurementSets.ComponentStart | tdmagsus/tdms.py:313 | where the last path component starts: no '/' from there on, and a '/' just before it |
| MeasurementSets.ComponentStartUnique | tdmagsus/tdms.py:313 | any index with that property is where the component starts |
| MeasurementSets.Basename | tdmagsus/tdms.py:313 | `os.path.basename`: the result contains no '/' |
| MeasurementSets.BasenameIsSuffix | tdmagsus/tdms.py:313 | the basename is a suffix of the path, preceded by '/' when shorter than it |
| MeasurementSets.BasenameOfJoin | tdmagsus/tdms.py:313 | the basename of `dir + "/" + leaf` is leaf |
| MeasurementSets.BasenameOfLeaf | tdmagsus/tdms.py:313 | a name without '/' is its own basename |
| MeasurementSets.DigitsValueShowNat | tdmagsus/tdms.py:317 | `int()` of the decimal digits of n is n |
| MeasurementSets.LeafToTemp | tdmagsus/tdms.py:314-317 | `re.search(r'^(\d+)[AB]?\.CUR$', leafname)` and `int(m.group(1))`: the value of the leading digits when the name has the cycle-file shape, None otherwise. LeafToTempOfMatch and LeafToTempMatched prove both directions |
| MeasurementSets.FilenameToTemp | tdmagsus/tdms.py:311-317 | `filename_to_temp`: LeafToTemp of the basename. FilenameToTempOfMatch and FilenameToTempMatched prove both directions |
| MeasurementSets.LeafToTempOfMatch | tdmagsus/tdms.py:314-317 | a leaf of the form digits, optional A or B, ".CUR", optional final newline gives the integer value of the digits |
| MeasurementSets.LeafToTempMatched | tdmagsus/tdms.py:314-317 | a leaf that gives a temperature has that form, and the temperature is its digits' value |
| MeasurementSets.FilenameToTempOfMatch | tdmagsus/tdms.py:311-317 | a path whose basename has the cycle-file form gives its digits' value |
| MeasurementSets.FilenameToTempMatched | tdmagsus/tdms.py:311-317 | a path gives a temperature only when its basename has the cycle-file form (so otherwise None) |
| MeasurementSets.CycleFileTemp | tdmagsus/tdms.py:311-317 | `dir/<t>[A or B].CUR` gives t for every natural t |
| MeasurementSets.FilenameToTempUnparseable | tests/test_measurement_set.py:21-22 | "unparseable" gives None |
| MeasurementSets.FilenameToTemp700 | tests/test_measurement_set.py:23 | "700.CUR" gives 700 |
| MeasurementSets.FilenameToTemp50A | tests/test_measurement_set.py:24 | "50A.CUR" gives 50 |
| MeasurementSets.FilenameToTemp5B | tests/test_measurement_set.py:25 | "5B.CUR" gives 5 |
| MeasurementSets.Pow10 | tdmagsus/tdms.py:320 | `10. ** e` for an integer e, exactly. Pow10Positive, Pow10Step, Pow10Add and Pow10Difference state its properties |
| MeasurementSets.Pow10Positive | tdmagsus/tdms.py:320 | the scale is always positive |
| MeasurementSets.Pow10Step | tdmagsus/tdms.py:320 | 10^(e+1) = 10 * 10^e |
| MeasurementSets.Pow10Add | tdmagsus/tdms.py:320 | 10^x * 10^y = 10^(x+y) for all integers x and y |
| MeasurementSets.Pow10Difference | tdmagsus/tdms.py:320 | 10^(a-b) * 10^(b-c) = 10^(a-c) |
| MeasurementSets.Shunt | tdmagsus/tdms.py:295-299 | temperatures unchanged, lengths unchanged, and every heating and cooling value raised by the offset |
| MeasurementSets.ShuntCompose | tdmagsus/tdms.py:297-298 | shunting by a and then by b is shunting by a+b |
| MeasurementSets.ShuntUndone | tdmagsus/tdms.py:297-298 | shunting by -offset undoes shunting by offset |
| MeasurementSets.ShuntExample | tests/test_measurement_set.py:10-19 | the test pair shunted by 2 gives [12, 22, 32, 42] and [47, 37, 27, 17], temperatures unchanged |
| MeasurementSets.ShuntAll | tdmagsus/tdms.py:305-307 | same keys; every cycle shunted by the offset |
| MeasurementSets.Rescaled | tdmagsus/tdms.py:323-324 | temperatures and lengths unchanged, every heating and cooling value times the scale |
| MeasurementSets.RescaleAll | tdmagsus/tdms.py:321-326 | same keys; every cycle rescaled |
| MeasurementSets.RescaledTwice | tdmagsus/tdms.py:323-324 | rescaling by a and then by b is rescaling by a*b |
| MeasurementSets.RescaleAllTwice | tdmagsus/tdms.py:321-326 | the same, over the whole map |
| MeasurementSets.AtOom | tdmagsus/tdms.py:319-327 | the map `set_oom` builds: every cycle rescaled by 10 to the power oom - new_oom. SetOomTwice, SetOomSame and SetOomRoundTrip state its properties |
| MeasurementSets.SetOomTwice | tdmagsus/tdms.py:319-327 | two successive `set_oom` calls equal one call with the last value |
| MeasurementSets.SetOomSame | tdmagsus/tdms.py:319-327 | `set_oom` to the current order of magnitude leaves the data unchanged |
| MeasurementSets.SetOomRoundTrip | tdmagsus/tdms.py:319-327 | going to a new order of magnitude and back restores the data |
| MeasurementSets.RescaleEach | tdmagsus/tdms.py:321-326 | the loop building `new_data` key by key gives the rescaled map |
| MeasurementSets.ZeroOffset | tdmagsus/tdms.py:304 | KeyError when 700 is not a key, and the ValueError of `min([])` (EmptyMin) when its heating curve is empty. It succeeds iff 700 is a key with a non-empty heating curve, and the offset is then minus the minimum of that curve's last five values |
| MeasurementSets.ZeroAt700 | tdmagsus/tdms.py:301-308 | the map `make_zero_at_700` builds, or ZeroOffset's error: every cycle shunted by the offset. ZeroAt700Zeroes and ZeroAt700Idempotent state its properties |
| MeasurementSets.ZeroAt700Zeroes | tdmagsus/tdms.py:304-308 | after `make_zero_at_700` the minimum of the last five heating values at 700 is 0 |
| MeasurementSets.ShuntAllZero | tdmagsus/tdms.py:305-307 | shunting every cycle by 0 changes nothing |
| MeasurementSets.ZeroAt700Idempotent | tdmagsus/tdms.py:301-308 | a second `make_zero_at_700` right after a successful one changes nothing |
| MeasurementSets.ShuntEach | tdmagsus/tdms.py:305-308 | the loop building `new_data` key by key gives the shunted map |
| MeasurementSets.Entries | tdmagsus/tdms.py:331-335 | each file name paired with its temperature and what loading it gives, in glob order |
| MeasurementSets.Put | tdmagsus/tdms.py:332-336 | one pass of `read_files`' loop over an entry: a name without a temperature is skipped, a loaded cycle is stored under its temperature, replacing an earlier one, and a load error stops the loop. StoreStopsAtFirstFailure, StoreUntouched, LastNameWins and StoreKeys state what the passes together compute |
| MeasurementSets.LoadFilesIsStore | tdmagsus/tdms.py:331-336 | the loop over names is the loop over their entries |
| MeasurementSets.LoadFilesErrStays | tdmagsus/tdms.py:331-336 | an exception raised for an earlier name ends `read_files`: later names change nothing |
| MeasurementSets.StoreErrStays | tdmagsus/tdms.py:331-336 | the same, over entries |
| MeasurementSets.StoreFails | tdmagsus/tdms.py:331-336 | `read_files` raises iff some name with a temperature fails to load; names without one are never loaded |
| MeasurementSets.StoreStopsAtFirstFailure | tdmagsus/tdms.py:331-336 | it raises the first such file's error, with the cycles stored before it |
| MeasurementSets.StoreUntouched | tdmagsus/tdms.py:331-336 | a temperature no name gives keeps its old entry, or stays absent |
| MeasurementSets.LastNameWins | tdmagsus/tdms.py:335-336 | the cycle stored under a temperature is the one from the last name with that temperature |
| MeasurementSets.StoreKeys | tdmagsus/tdms.py:331-336 | after a successful run, the keys are the old keys plus exactly the temperatures of the names |
| MeasurementSets.MeasurementSet.constructor | tdmagsus/tdms.py:339-345 | empty cycles, oom = -6, name = basename of the directory, furnace and volumes as given |
| MeasurementSets.MeasurementSet.ReadOne | tdmagsus/tdms.py:332-336 | one loop iteration. A name without a temperature is skipped. A loaded cycle is stored under its temperature. A failing one raises with cycles unchanged. oom is unchanged |
| MeasurementSets.MeasurementSet.ReadFiles | tdmagsus/tdms.py:329-336 | the field `cycles` becomes what the loop over names leaves; it reports the error that stopped it, if any |
| MeasurementSets.MeasurementSet.SetOom | tdmagsus/tdms.py:319-327 | `cycles` becomes every value times 10^(old oom - new oom), and `oom` becomes the new value |
| MeasurementSets.MeasurementSet.MakeZeroAt700 | tdmagsus/tdms.py:301-308 | On success `cycles` becomes every cycle shunted by the 700-degree offset. Otherwise (no key 700, or an empty heating curve there) it reports KeyError or the `min()` error with `cycles` unchanged. oom is unchanged |
| MeasurementSets.MeasurementSet.Open | tdmagsus/tdms.py:339-347 | `MeasurementSet.__init__`: a fresh set whose cycles are what `read_files` builds from the empty map, or the error it raises |
| MeasurementSets.MeasurementSet.OpenDefault | tdmagsus/tdms.py:339 | the same without volume arguments: real volume 0.25 and nominal volume 10 |

## Left out

- Spline fitting (`UnivariateSpline`, lines 114-115, 245 and 256) is the parameter `fit`, and a spline is an abstract `real -> real`. Spline derivatives and roots are not modelled (floating-point numerics in scipy).
- `linear_fit`, `curie_paramag`, `curie_inflection` and `get_spline_data` are not modelled. They are numpy/scipy floating-point computations with no discrete structure.
- `float()` text decoding and the dtype `numpy.zeros_like` inherits are not modelled. `decode` stands for the former; all values are exact reals.
- MS values in the model are exact reals, so floating-point rounding is not modelled. This includes the rounding of `10. ** e` (computed exactly by `Pow10`) and of `nom_vol / real_vol`.
- MeasurementSets.Pow10 never fails. In the code, `10. ** (self.oom - new_oom)` (line 320) raises OverflowError when the difference is above about 308. The model's `set_oom` has no such error case.
- File I/O is not modelled.
  - The lines of each file come from `Storage`.
  - The `glob` of `read_files` is its list of names, in the order glob would return them.
  - `write_csv` (fixed-point `%.2f` output) and the `print` in `make_zero_at_700` are left out.
- `alteration_index` and `alterations` are left out. `alteration_index` reads attributes that do not exist, so it always raises. `alterations` calls a method that does not exist, so it raises on any non-empty list and returns `[]` on an empty one.
- Unicode: `\d` (lines 38 and 314), `int()` of the digits (line 317), and `str.rstrip()`/`str.lstrip()` are modelled on ASCII digits and on the six C whitespace characters (space, tab, newline, carriage return, vertical tab, form feed) only; Python also strips \x1c-\x1f and non-ASCII whitespace.
- MeasurementSets.Basename follows POSIX `os.path.basename`, where only '/' separates components. The Windows form, which also splits at '\\' and drive letters, is not modelled.
- MeasurementSets.MeasurementSet.ReadFiles stores each cycle's corrected (heating, cooling) pair. The code stores the `MeasurementCycle` object (line 335), whose `data` is that pair. This changes what the later methods do.
  - In the code, once `read_files` has loaded any cycle, `set_oom` raises TypeError at line 322, because it cannot unpack the object as a tuple.
  - `make_zero_at_700` raises TypeError at line 303, because the object is not subscriptable.
  - The model's `Open` followed by `SetOom` or `MakeZeroAt700` instead rescales or shifts the stored pairs. That is what they did when `read_files` stored the pair itself, as in tdms/tdms_lib.py:127.
  - The model does not capture these TypeErrors.
- MeasurementSets.MeasurementSet.SetOom: `oom` is an integer, not the float `-6.`. Only integer orders of magnitude are modelled.
- MeasurementSets.RescaleEach and MeasurementSets.ShuntEach visit the keys in an arbitrary order. The code visits them in dict order. The result does not depend on the order.
- CurFile.ReadCurFile reverses the cooling arrays as values (`Reverse`) rather than in place. The lists are local to the function, so no aliasing is lost.
- FurnaceBaseline.NewFurnace: `fit` is total, so the errors `UnivariateSpline` raises (lines 114-115, for temperatures that are not increasing or too few points) cannot arise in the model.
- The numpy `array` conversions (line 77, 103, 192) are identity in the model.
- `os.path.basename(None)` raises, so the `sample_dir is not None` guard at line 346 never skips `read_files`. The sample directory is a string in the model.
- tdms/tdms_lib.py (a Python-2 copy of the same module) and setup.py are not part of this model.
