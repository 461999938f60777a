/** `generate_afm_data.py`: the generator of dummy AFM data pickles. It
    parses each listed name with its own rules, then builds the `info`,
    `data_status` and `data_detail` sections of a data file.

    Every random draw is a parameter: `numPoints` is `randint(5, 10)`, the
    time of day and the carrier and operator numbers are given, and the
    measured values come from `draw` functions. */
module GenerateAfmData {
  import opened Common
  import opened Text
  import FileParser
  import CheckAfmFiles

  // ---------------------------------------------------------------------
  // parse_filename
  // ---------------------------------------------------------------------

  datatype Parsed = Parsed(date: string, recipe: string, lotId: string, slot: string, measurement: string)

  /** Only `.csv` is removed, everywhere in the name, before the raw split. */
  function Parts(filename: string): seq<string> {
    Split(ReplaceAll(filename, ".csv", ""), '#')
  }

  /** The slot: `"01"` for an empty segment, else the text before the
      first `_`, else the whole segment. */
  function SlotOf(segment: string): string {
    if segment == "" then "01"
    else if '_' in segment then Split(segment, '_')[0]
    else segment
  }

  /** The measurement: the second `_`-separated token, or `"1"`. */
  function MeasurementOf(segment: string): string {
    if segment != "" && '_' in segment then
      var tokens := Split(segment, '_');
      if |tokens| > 1 then tokens[1] else "1"
    else "1"
  }

  /** `parse_filename`: `None` below four parts; the slot segment is
      empty when there is no fifth part. The lot rule is the backend's. */
  function ParseFilename(filename: string): Option<Parsed> {
    var parts := Parts(filename);
    if |parts| >= 4 then
      var segment := if |parts| > 4 then parts[4] else "";
      Some(Parsed(parts[1], parts[2], FileParser.LotId(parts[3]), SlotOf(segment), MeasurementOf(segment)))
    else None
  }

  /** A name parses exactly when three `#` remain after removing `.csv`;
      the date and recipe are the second and third pieces. */
  lemma ParseFilenameMeaning(filename: string)
    ensures ParseFilename(filename).Some? <==> multiset(ReplaceAll(filename, ".csv", ""))['#'] >= 3
    ensures ParseFilename(filename).Some? ==>
      ParseFilename(filename).value.date == Parts(filename)[1]
      && ParseFilename(filename).value.recipe == Parts(filename)[2]
      && ParseFilename(filename).value.lotId == FileParser.LotId(Parts(filename)[3])
    ensures |Parts(filename)| == 4 ==>
      ParseFilename(filename).value.slot == "01" && ParseFilename(filename).value.measurement == "1"
  {
    SplitCount(ReplaceAll(filename, ".csv", ""), '#');
  }

  /** Slot and measurement of a segment with an `_`: the first two tokens,
      `_`-free, read off the front of the segment; any later tokens are
      dropped. */
  lemma SlotMeasurement(segment: string)
    requires '_' in segment
    ensures '_' !in SlotOf(segment) && '_' !in MeasurementOf(segment)
    ensures IsPrefix(SlotOf(segment) + "_" + MeasurementOf(segment), segment)
    ensures var n := |SlotOf(segment) + "_" + MeasurementOf(segment)|;
      n == |segment| || segment[n] == '_'
  {
    var a := Split(segment, '_')[0];
    FileParser.SplitHead(segment, '_');
    var t := segment[|a| + 1..];
    assert segment == a + "_" + t;
    SplitAtFirst(a, '_', t);
    FileParser.SplitHead(t, '_');
    var m := Split(t, '_')[0];
    assert Split(segment, '_')[1] == m;
    assert a + "_" + m + t[|m|..] == segment;
  }

  /** Without an `_` the slot is the whole segment and the measurement is
      `"1"`; an empty segment gives the defaults. */
  lemma SlotDefaults(segment: string)
    requires '_' !in segment
    ensures SlotOf(segment) == (if segment == "" then "01" else segment)
    ensures MeasurementOf(segment) == "1"
  {
  }

  /** This parser keeps only the second token as the measurement, where the
      backend keeps everything after the slot. */
  lemma MeasurementDiverges(slot: string, m: string, t: string)
    requires '_' !in slot && '_' !in m
    ensures MeasurementOf(slot + "_" + m + "_" + t) == m
    ensures FileParser.MeasuredInfo(slot + "_" + m + "_" + t) == m + "_" + t
  {
    var s := slot + "_" + m + "_" + t;
    assert s == slot + "_" + (m + "_" + t);
    assert s[|slot|] == '_';
    SplitAtFirst(slot, '_', m + "_" + t);
    SplitAtFirst(m, '_', t);
    FileParser.SlotInfoOf(slot, m + "_" + t);
  }

  /** On a name in the backend's layout both parsers read the same date,
      recipe, lot, slot and measurement. */
  lemma AgreesWithBackend(date: string, recipe: string, lot: string, slot: string, info: string)
    requires FileParser.Encodable(date, recipe, lot, slot, info) && '_' !in info
    ensures ParseFilename(FileParser.EncodeName(date, recipe, lot, slot, info))
      == Some(Parsed(date, recipe, lot, slot, info))
  {
    var name := FileParser.EncodeName(date, recipe, lot, slot, info);
    FileParser.NoExtensionInEncoding(date, recipe, lot, slot, info, ".csv");
    ReplaceAbsent(name, ".csv", "");
    var si := slot + "_" + info;
    assert '#' !in si by {
      assert si == slot + ['_'] + info;
    }
    SplitJoin(["", date, recipe, lot, si, ""], '#');
    FileParser.LotIdPrecedence(lot);
    assert si[|slot|] == '_';
    SplitAtFirst(slot, '_', info);
    SplitNone(info, '_');
  }

  // ---------------------------------------------------------------------
  // generate_measurement_info
  // ---------------------------------------------------------------------

  /** `f"{n:02d}"` for a non-negative number. */
  function Pad2(n: nat): string {
    ZeroPad(NatToString(n), 2)
  }

  /** `strftime("%Y-%m-%d %H:%M:%S")` of a date and a time of day. */
  function FormatStart(y: nat, m: nat, d: nat, hh: nat, mm: nat, ss: nat): string {
    ZeroPad(NatToString(y), 4) + "-" + Pad2(m) + "-" + Pad2(d) + " " + Pad2(hh) + ":" + Pad2(mm) + ":" + Pad2(ss)
  }

  /** The year, month and day `generate_measurement_info` reads from a
      `YYMMDD` date, `None` when `int()` or `datetime` raises ValueError. */
  function DateParts(date: string): Option<(int, int, int)> {
    DateOf(PyInt(PySlice(date, 0, 2)), PyInt(PySlice(date, 2, 4)), PyInt(PySlice(date, 4, 6)))
  }

  /** The date from the three parsed numbers, the year taken in 2000-2099. */
  function DateOf(yy: Option<int>, mo: Option<int>, dd: Option<int>): Option<(int, int, int)> {
    if yy.None? || mo.None? || dd.None? then None
    else if !ValidDate(2000 + yy.value, mo.value, dd.value) then None
    else Some((2000 + yy.value, mo.value, dd.value))
  }

  /** Six digits are read as three two-digit numbers. */
  lemma DatePartsDigits(date: string, y: nat, m: nat, d: nat)
    requires y < 100 && m < 100 && d < 100
    requires date == Pad2(y) + Pad2(m) + Pad2(d)
    ensures DateParts(date) == DateOf(Some(y), Some(m), Some(d))
  {
    Pad2Width(y);
    Pad2Width(m);
    Pad2Width(d);
    assert date[0..] == Pad2(y) + (Pad2(m) + Pad2(d));
    assert date[2..] == Pad2(m) + Pad2(d);
    assert date[4..] == Pad2(d) + "";
    PaddedSlice(date, 0, y, Pad2(m) + Pad2(d));
    PaddedSlice(date, 2, m, Pad2(d));
    PaddedSlice(date, 4, d, "");
  }

  /** The years 2000-2099 hold a 29 February exactly when the two-digit
      year is a multiple of four, 2000 being a leap year. */
  lemma LeapDay(yy: int)
    requires 0 <= yy < 100
    ensures DateOf(Some(yy), Some(2), Some(29)).Some? <==> yy % 4 == 0
  {
  }

  /** The two characters at `i` of the rest of a date are `n` padded. */
  lemma PaddedSlice(date: string, i: nat, n: nat, rest: string)
    requires n < 100 && i + 2 <= |date| && date[i..] == Pad2(n) + rest
    ensures PyInt(PySlice(date, i, i + 2)) == Some(n)
  {
    Pad2Width(n);
    assert PySlice(date, i, i + 2) == Pad2(n);
    PyIntOfPadded(n, 2);
  }

  lemma Pad2Width(n: nat)
    requires n < 100
    ensures |Pad2(n)| == 2
  {
    NatToStringShort(n);
  }

  lemma SliceThree(a: string, b: string, c: string)
    requires |a| == 2 && |b| == 2 && |c| == 2
    ensures PySlice(a + b + c, 0, 2) == a && PySlice(a + b + c, 2, 4) == b && PySlice(a + b + c, 4, 6) == c
  {
    var s := a + b + c;
    assert s[0..2] == a && s[2..4] == b && s[4..6] == c;
  }

  /** The keys of the info dict, in the order they are written. */
  const InfoNames: seq<string> := ["Lot ID", "Recipe ID", "Carrier ID", "Sample ID", "Start Time", "Tool", "Operator", "Measurement"]

  /** The info dict for a parsed name, a start time and the carrier and
      operator numbers. */
  function InfoEntries(p: Parsed, start: string, carrier: nat, operator: nat): Entries {
    Zip(InfoNames, InfoValues(p, start, carrier, operator))
  }

  /** The values of the info dict, beside the keys in `InfoNames`. */
  function InfoValues(p: Parsed, start: string, carrier: nat, operator: nat): seq<Value> {
    [Str(p.lotId), Str(p.recipe), Str("CAR" + NatToString(carrier)), Str("S" + p.slot),
     Str(start), Str("MAP608"), Str("OP" + NatToString(operator)), Str(p.measurement)]
  }

  /** `generate_measurement_info`; the time of day (8-18 h, 0-59 min,
      0-59 s) and the carrier and operator numbers are the random draws. */
  function MeasurementInfo(p: Parsed, hh: nat, mm: nat, ss: nat, carrier: nat, operator: nat): Option<Entries> {
    match DateParts(p.date)
    case None => None
    case Some(ymd) =>
      Some(InfoEntries(p, FormatStart(ymd.0, ymd.1, ymd.2, hh, mm, ss), carrier, operator))
  }

  /** The info section names the parsed lot, recipe and slot ... */
  lemma InfoEntriesNames(p: Parsed, start: string, carrier: nat, operator: nat)
    ensures var es := InfoEntries(p, start, carrier, operator);
      Get(es, "Lot ID") == Some(Str(p.lotId)) && Get(es, "Recipe ID") == Some(Str(p.recipe))
      && Get(es, "Sample ID") == Some(Str("S" + p.slot))
  {
    var vs := InfoValues(p, start, carrier, operator);
    GetZip(InfoNames, vs, 0);
    GetZip(InfoNames, vs, 1);
    GetZip(InfoNames, vs, 3);
  }

  /** ... the start time ... */
  lemma InfoEntriesStart(p: Parsed, start: string, carrier: nat, operator: nat)
    ensures Get(InfoEntries(p, start, carrier, operator), "Start Time") == Some(Str(start))
  {
    GetZip(InfoNames, InfoValues(p, start, carrier, operator), 4);
  }

  /** ... the tool ... */
  lemma InfoEntriesTool(p: Parsed, start: string, carrier: nat, operator: nat)
    ensures Get(InfoEntries(p, start, carrier, operator), "Tool") == Some(Str("MAP608"))
  {
    GetZip(InfoNames, InfoValues(p, start, carrier, operator), 5);
  }

  /** ... and the measurement. */
  lemma InfoEntriesMeasurement(p: Parsed, start: string, carrier: nat, operator: nat)
    ensures Get(InfoEntries(p, start, carrier, operator), "Measurement") == Some(Str(p.measurement))
  {
    GetZip(InfoNames, InfoValues(p, start, carrier, operator), 7);
  }

  // ---------------------------------------------------------------------
  // generate_data_status and generate_data_detail
  // ---------------------------------------------------------------------

  /** The key of point `i`. */
  function PointName(i: nat): string {
    NatToString(i) + "_UL"
  }

  lemma PointNameInjective(i: nat, j: nat)
    requires PointName(i) == PointName(j)
    ensures i == j
  {
    var a, b := NatToString(i), NatToString(j);
    assert |a| == |b|;
    assert a == PointName(i)[..|a|] && b == PointName(j)[..|b|];
  }

  const ItemNames: seq<Value> := [Str("MEAN"), Str("STDEV"), Str("MIN"), Str("MAX"), Str("RANGE")]
  const StatusColumns: seq<string> := ["Left_H (nm)", "Right_H (nm)", "Ref_H (nm)"]

  /** The draws behind one statistics column: the base value, the
      deviation, how far below and above the base the minimum and maximum
      lie, and the range. */
  datatype StatDraw = StatDraw(base: real, stdev: real, below: real, above: real, range: real)

  /** The bounds `random.uniform` keeps the draws in. */
  predicate InBounds(d: StatDraw) {
    1.0 <= d.stdev <= 5.0 && 5.0 <= d.below <= 15.0 && 5.0 <= d.above <= 15.0 && 10.0 <= d.range <= 30.0
  }

  /** MEAN, STDEV, MIN, MAX, RANGE of one column. */
  function StatColumn(d: StatDraw): seq<Value> {
    [Float(d.base), Float(d.stdev), Float(d.base - d.below), Float(d.base + d.above), Float(d.range)]
  }

  /** With draws in bounds, the minimum lies below the mean and the maximum
      above it. */
  lemma StatColumnOrder(d: StatDraw)
    requires InBounds(d)
    ensures |StatColumn(d)| == |ItemNames|
    ensures StatColumn(d)[2].f < StatColumn(d)[0].f < StatColumn(d)[3].f
  {
  }

  /** The group of point `i`: the item names and the three statistics
      columns; `draw(i, c)` are the draws of column `c`. */
  function StatusGroup(i: nat, draw: (nat, nat) -> StatDraw): Entries {
    [("ITEM", List(ItemNames))]
    + seq(|StatusColumns|, c requires 0 <= c < |StatusColumns| => (StatusColumns[c], List(StatColumn(draw(i, c)))))
  }

  /** `generate_data_status(n)`. */
  function DataStatus(n: nat, draw: (nat, nat) -> StatDraw): (r: Entries)
    ensures |r| == n
  {
    seq(n, j requires 0 <= j < n => (PointName(j + 1), Dict(StatusGroup(j + 1, draw))))
  }

  /** The point keys `1_UL` .. `n_UL`, in order. */
  function PointNames(n: nat): seq<string> {
    seq(n, j requires 0 <= j < n => PointName(j + 1))
  }

  /** Exactly `n` groups, keyed `1_UL` .. `n_UL` in order ... */
  lemma DataStatusKeys(n: nat, draw: (nat, nat) -> StatDraw)
    ensures Keys(DataStatus(n, draw)) == PointNames(n)
  {
    var ks := Keys(DataStatus(n, draw));
    assert forall j :: 0 <= j < n ==> ks[j] == PointNames(n)[j];
  }

  /** ... and no two points share a key. */
  lemma PointNamesUnique(n: nat)
    ensures forall j, k :: 0 <= j < k < n ==> PointNames(n)[j] != PointNames(n)[k]
  {
    forall j, k | 0 <= j < k < n ensures PointNames(n)[j] != PointNames(n)[k] {
      if PointName(j + 1) == PointName(k + 1) {
        PointNameInjective(j + 1, k + 1);
      }
    }
  }

  /** A group holds the item names and the three columns in that order,
      each column with one value per item name. */
  lemma StatusGroupShape(i: nat, draw: (nat, nat) -> StatDraw)
    ensures Keys(StatusGroup(i, draw)) == ["ITEM"] + StatusColumns
    ensures StatusGroup(i, draw)[0].1 == List(ItemNames)
    ensures forall c :: 1 <= c < |StatusGroup(i, draw)| ==> StatusGroup(i, draw)[c].1.List? && |StatusGroup(i, draw)[c].1.items| == |ItemNames|
  {
    var g := StatusGroup(i, draw);
    forall c | 1 <= c < |g| ensures g[c].1.List? && |g[c].1.items| == |ItemNames| {
      assert g[c] == (StatusColumns[c - 1], List(StatColumn(draw(i, c - 1))));
    }
    assert Keys(g) == ["ITEM"] + StatusColumns by {
      forall c | 0 <= c < |g| ensures Keys(g)[c] == (["ITEM"] + StatusColumns)[c] {
        if c > 0 {
          assert g[c] == (StatusColumns[c - 1], List(StatColumn(draw(i, c - 1))));
        }
      }
    }
  }

  /** The columns of a detail group after `Point No`. */
  const DetailColumns: seq<string> := [
    "X (um)", "Y (um)", "Method ID", "State", "Valid", "Left_H (nm)", "Left_H_Valid",
    "Right_H (nm)", "Right_H_Valid", "Ref_H (nm)", "Ref_H_Valid", "Pick Up Count",
    "Sample Count", "Approach Count", "Mileage"]

  /** The detail group of point `i` with `m` measurements: `Point No` runs
      1..m and every other column has `m` values, `draw(i, c, k)` being row
      `k` of column `c`. */
  function DetailGroup(i: nat, m: nat, draw: (nat, nat, nat) -> Value): Entries {
    [("Point No", List(seq(m, k requires 0 <= k < m => Int(k + 1))))]
    + seq(|DetailColumns|, c requires 0 <= c < |DetailColumns| =>
        (DetailColumns[c], List(seq(m, k requires 0 <= k < m => draw(i, c, k)))))
  }

  /** `generate_data_detail(n)`; `count(i)` is the `randint(20, 50)` drawn
      for point `i`. */
  function DataDetail(n: nat, count: nat -> nat, draw: (nat, nat, nat) -> Value): (r: Entries)
    ensures |r| == n
  {
    seq(n, j requires 0 <= j < n => (PointName(j + 1), Dict(DetailGroup(j + 1, count(j + 1), draw))))
  }

  /** The detail section has the same point keys as the status section. */
  lemma DataDetailKeys(n: nat, count: nat -> nat, draw: (nat, nat, nat) -> Value)
    ensures Keys(DataDetail(n, count, draw)) == PointNames(n)
  {
    var ks := Keys(DataDetail(n, count, draw));
    assert forall j :: 0 <= j < n ==> ks[j] == PointNames(n)[j];
  }

  /** Each point's `Point No` column is 1..m and every other column has m
      values. */
  lemma DetailGroupShape(i: nat, m: nat, draw: (nat, nat, nat) -> Value)
    ensures Keys(DetailGroup(i, m, draw)) == ["Point No"] + DetailColumns
    ensures var points := DetailGroup(i, m, draw)[0].1.items;
      |points| == m && forall k :: 0 <= k < m ==> points[k] == Int(k + 1)
    ensures forall c :: 1 <= c < |DetailGroup(i, m, draw)| ==>
      DetailGroup(i, m, draw)[c].1.List? && |DetailGroup(i, m, draw)[c].1.items| == m
  {
    var g := DetailGroup(i, m, draw);
    forall c | 1 <= c < |g| ensures g[c].1.List? && |g[c].1.items| == m {
      assert g[c] == (DetailColumns[c - 1], List(seq(m, k requires 0 <= k < m => draw(i, c - 1, k))));
    }
    assert Keys(g) == ["Point No"] + DetailColumns by {
      forall c | 0 <= c < |g| ensures Keys(g)[c] == (["Point No"] + DetailColumns)[c] {
        if c > 0 {
          assert g[c] == (DetailColumns[c - 1], List(seq(m, k requires 0 <= k < m => draw(i, c - 1, k))));
        }
      }
    }
  }

  // ---------------------------------------------------------------------
  // generate_afm_data_file
  // ---------------------------------------------------------------------

  /** What `generate_afm_data_file` does with one name: `Skipped` is its
      `None` for a name that does not parse, `Raised` the ValueError of a
      bad date. */
  datatype Generated = Skipped | Raised | Generated(data: Value)

  /** The random draws of one file. */
  datatype Draws = Draws(
    numPoints: nat, hour: nat, minute: nat, second: nat, carrier: nat, operator: nat,
    status: (nat, nat) -> StatDraw, count: nat -> nat, detail: (nat, nat, nat) -> Value)

  /** The three sections of a data file. */
  function FileData(info: Entries, d: Draws): Entries {
    [("info", Dict(info)),
     ("data_status", Dict(DataStatus(d.numPoints, d.status))),
     ("data_detail", Dict(DataDetail(d.numPoints, d.count, d.detail)))]
  }

  /** `generate_afm_data_file`. */
  function GenerateFile(filename: string, d: Draws): Generated {
    match ParseFilename(filename)
    case None => Skipped
    case Some(p) =>
      match MeasurementInfo(p, d.hour, d.minute, d.second, d.carrier, d.operator)
      case None => Raised
      case Some(info) => Generated(Dict(FileData(info, d)))
  }

  /** Three sections whose info dict holds the four info keys pass the
      checker's data-file rules, with one point per status entry. */
  lemma SectionsPassCheck(info: Entries, status: Entries, detail: Entries)
    requires HasKey(info, "Lot ID") && HasKey(info, "Recipe ID") && HasKey(info, "Tool") && HasKey(info, "Start Time")
    ensures CheckAfmFiles.CheckData(Some(Dict([("info", Dict(info)), ("data_status", Dict(status)), ("data_detail", Dict(detail))])))
      == CheckAfmFiles.DataValid(|status|)
  {
    var es := [("info", Dict(info)), ("data_status", Dict(status)), ("data_detail", Dict(detail))];
    var v := Dict(es);
    assert CheckAfmFiles.Item(v, "info") == Some(Dict(info));
    assert CheckAfmFiles.LenOf(v, "data_status") == Some(|status|) by {
      assert es[1..][0] == ("data_status", Dict(status));
      assert Get(es, "data_status") == Get(es[1..], "data_status");
    }
    assert Keys(es)[2] == "data_detail";
    CheckAfmFiles.RequiredKeysPresent(es);
    CheckAfmFiles.InfoKeysPresent(info);
    CheckAfmFiles.CheckDataAccepts(v, Dict(info), |status|);
  }

  /** Every file the generator writes passes the checker's data-file rules. */
  lemma GeneratedPassesCheck(filename: string, d: Draws)
    requires GenerateFile(filename, d).Generated?
    ensures CheckAfmFiles.CheckData(Some(GenerateFile(filename, d).data)) == CheckAfmFiles.DataValid(d.numPoints)
  {
    var p := ParseFilename(filename).value;
    var ymd := DateParts(p.date).value;
    var start := FormatStart(ymd.0, ymd.1, ymd.2, d.hour, d.minute, d.second);
    InfoEntriesNames(p, start, d.carrier, d.operator);
    InfoEntriesStart(p, start, d.carrier, d.operator);
    InfoEntriesTool(p, start, d.carrier, d.operator);
    SectionsPassCheck(InfoEntries(p, start, d.carrier, d.operator), DataStatus(d.numPoints, d.status),
                      DataDetail(d.numPoints, d.count, d.detail));
  }
}
