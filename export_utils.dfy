/** The CSV export of the front-end (`front-end/src/utils/exportUtils.js`):
    `arrayToCSV` turns a list of row objects into CSV text, quoting fields in
    the manner of section 2 of RFC 4180 but separating records with a bare
    line feed; `formatMeasurementInfo` and `formatSummaryStatistics` prepare
    the rows. The model of `arrayToCSV` is paired with a reader for the same
    dialect, and the export is proved to read back as the header names and
    the text of every cell. */
module ExportUtils {
  import opened Common
  import opened Text

  /** JavaScript `String(n)` for an integer-valued number. */
  function IntString(i: int): (r: string)
    ensures r != []
  {
    if i < 0 then "-" + NatToString(-i) else NatToString(i)
  }

  /** JavaScript `String(v)`. An array is the `,`-join of its elements with
      `null` elements as empty strings; every other object prints as
      `[object Object]`. How non-integral numbers print is the parameter
      `num`. */
  function JsString(v: Value, num: real -> string): string
    decreases v
  {
    match v
    case Str(s) => s
    case Int(i) => IntString(i)
    case Float(f) => num(f)
    case Bool(b) => if b then "true" else "false"
    case Null => "null"
    case List(xs) =>
      Join(seq(|xs|, k requires 0 <= k < |xs| => if xs[k].Null? then "" else JsString(xs[k], num)), ",")
    case Dict(_) => "[object Object]"
  }

  /** `s.replace(/"/g, '""')` */
  function DoubleQuotes(s: string): string {
    ReplaceAll(s, "\"", "\"\"")
  }

  /** The characters that make a cell quoted. */
  predicate NeedsQuotes(s: string) {
    Contains(s, ",") || Contains(s, "\n") || Contains(s, "\"")
  }

  /** `row[header]` on an object row; `None` is `undefined`. Rows that are
      not objects are read as having no properties. */
  function Field(row: Value, h: string): Option<Value> {
    if row.Dict? then Get(row.entries, h) else None
  }

  /** One CSV cell: empty for `null` and `undefined`, otherwise the string
      with its quotes doubled, enclosed in quotes when it holds `,`, a line
      feed or a quote. */
  function Cell(value: Option<Value>, num: real -> string): (r: string)
    ensures value.None? || value.value.Null? ==> r == ""
  {
    if value.None? || value.value.Null? then ""
    else
      var e := DoubleQuotes(JsString(value.value, num));
      if NeedsQuotes(e) then "\"" + e + "\"" else e
  }

  /** The text a cell stands for. */
  function CellText(value: Option<Value>, num: real -> string): string {
    if value.None? || value.value.Null? then "" else JsString(value.value, num)
  }

  /** The header cells: every name in quotes, its own quotes left alone. */
  function HeaderCells(hs: seq<string>): (r: seq<string>)
    ensures |r| == |hs|
  {
    if hs == [] then [] else ["\"" + hs[0] + "\""] + HeaderCells(hs[1..])
  }

  function RowCells(row: Value, hs: seq<string>, num: real -> string): (r: seq<string>)
    ensures |r| == |hs|
  {
    if hs == [] then [] else [Cell(Field(row, hs[0]), num)] + RowCells(row, hs[1..], num)
  }

  /** The texts the cells of one row stand for, one per header. */
  function RowTexts(row: Value, hs: seq<string>, num: real -> string): (r: seq<string>)
    ensures |r| == |hs|
  {
    if hs == [] then [] else [CellText(Field(row, hs[0]), num)] + RowTexts(row, hs[1..], num)
  }

  /** One line per row. */
  function DataLines(data: seq<Value>, hs: seq<string>, num: real -> string): (r: seq<string>)
    ensures |r| == |data|
  {
    if data == [] then [] else [Join(RowCells(data[0], hs, num), ",")] + DataLines(data[1..], hs, num)
  }

  function DataTexts(data: seq<Value>, hs: seq<string>, num: real -> string): (r: seq<seq<string>>)
    ensures |r| == |data|
  {
    if data == [] then [] else [RowTexts(data[0], hs, num)] + DataTexts(data[1..], hs, num)
  }

  /** `Object.keys(v)` of a first row that is not `null`; rows that are not
      objects are read as having no keys. */
  function ObjectKeys(v: Value): seq<string> {
    if v.Dict? then Keys(v.entries) else []
  }

  /** The header names: the given ones, otherwise the keys of the first row. */
  function Headers(data: seq<Value>, headers: Option<seq<string>>): seq<string>
    requires data != []
  {
    if headers.Some? then headers.value else ObjectKeys(data[0])
  }

  /** Whether the conversion throws a `TypeError`: `Object.keys(null)` for a
      `null` first row without given headers, or `null[header]` for a `null`
      row when there is at least one header. */
  predicate Throws(data: seq<Value>, headers: Option<seq<string>>)
    requires data != []
  {
    (headers.None? && data[0].Null?)
    || (Headers(data, headers) != [] && exists i :: 0 <= i < |data| && data[i].Null?)
  }

  /** `arrayToCSV(data, headers)`. `data` and `headers` are `None` for
      `null`/`undefined`; the result is `None` where the call throws. */
  function ArrayToCsv(data: Option<seq<Value>>, headers: Option<seq<string>>, num: real -> string): (r: Option<string>)
    ensures data.None? || data.value == [] ==> r == Some("")
    ensures data.Some? && data.value != [] ==> (r.None? <==> Throws(data.value, headers))
  {
    if data.None? || data.value == [] then Some("")
    else if Throws(data.value, headers) then None
    else
      var hs := Headers(data.value, headers);
      Some(Join([Join(HeaderCells(hs), ",")] + DataLines(data.value, hs, num), "\n"))
  }

  /** `formatMeasurementInfo(info)`: a single-row list for an object (arrays
      included), no rows otherwise. */
  function FormatMeasurementInfo(info: Option<Value>): (r: seq<Value>)
    ensures |r| <= 1
    ensures r == [] <==> info.None? || !(info.value.Dict? || info.value.List?)
    ensures r != [] ==> r[0] == info.value
  {
    if info.Some? && (info.value.Dict? || info.value.List?) then [info.value] else []
  }

  /** `formatSummaryStatistics(summaryData)`: an array as it is, no rows
      for anything else. */
  function FormatSummaryStatistics(summary: Option<Value>): (r: seq<Value>)
    ensures summary.Some? && summary.value.List? ==> r == summary.value.items
    ensures !(summary.Some? && summary.value.List?) ==> r == []
  {
    if summary.Some? && summary.value.List? then summary.value.items else []
  }

  // A reader for the same dialect: fields as in section 2 of RFC 4180,
  // records separated by a line feed.

  /** The content of a quoted field after its opening quote, reading a
      doubled quote as one quote, up to the closing quote; and what follows. */
  function ReadQuoted(s: string): (r: (string, string))
    ensures |r.1| <= |s|
    decreases |s|
  {
    if s == [] then ("", "")
    else if s[0] == '"' then
      if |s| > 1 && s[1] == '"' then
        var t := ReadQuoted(s[2..]);
        ("\"" + t.0, t.1)
      else ("", s[1..])
    else
      var t := ReadQuoted(s[1..]);
      ([s[0]] + t.0, t.1)
  }

  /** An unquoted field: everything up to the next `,` or line feed. */
  function ReadBare(s: string): (r: (string, string))
    ensures |r.1| <= |s|
    decreases |s|
  {
    if s == [] || s[0] == ',' || s[0] == '\n' then ("", s)
    else
      var t := ReadBare(s[1..]);
      ([s[0]] + t.0, t.1)
  }

  function ReadField(s: string): (r: (string, string))
    ensures |r.1| <= |s|
  {
    if s != [] && s[0] == '"' then ReadQuoted(s[1..]) else ReadBare(s)
  }

  /** The fields of one record, and the text after it. */
  function ReadRecord(s: string): (r: (seq<string>, string))
    ensures |r.1| <= |s|
    decreases |s|
  {
    var f := ReadField(s);
    if f.1 != [] && f.1[0] == ',' then
      var t := ReadRecord(f.1[1..]);
      ([f.0] + t.0, t.1)
    else ([f.0], f.1)
  }

  /** The records of a text. */
  function ReadCsv(s: string): seq<seq<string>>
    decreases |s|
  {
    var t := ReadRecord(s);
    if t.1 == [] then [t.0] else [t.0] + ReadCsv(t.1[1..])
  }

  /** What may follow a field. */
  predicate FieldEnd(rest: string) {
    rest == [] || rest[0] == ',' || rest[0] == '\n'
  }

  /** What may follow a record. */
  predicate RecordEnd(rest: string) {
    rest == [] || rest[0] == '\n'
  }

  lemma DoubleQuotesStep(c: char, s: string)
    ensures DoubleQuotes([c] + s) == (if c == '"' then "\"\"" else [c]) + DoubleQuotes(s)
  {
    var t := [c] + s;
    assert t[1..] == s;
    assert t[..1] == [c];
  }

  /** A quote-free string is its own escape. */
  lemma DoubleQuotesAbsent(s: string)
    requires '"' !in s
    ensures DoubleQuotes(s) == s
  {
    ContainsChar(s, '"');
    ReplaceAbsent(s, "\"", "\"\"");
  }

  /** Escaping keeps every character other than the quote, and the quote
      itself, present or absent. */
  lemma {:induction false} DoubleQuotesKeeps(s: string, c: char)
    ensures c in DoubleQuotes(s) <==> c in s
    decreases |s|
  {
    if s != [] {
      DoubleQuotesStep(s[0], s[1..]);
      DoubleQuotesKeeps(s[1..], c);
      assert s == [s[0]] + s[1..];
    }
  }

  /** Reading a quoted field undoes the escaping. */
  lemma {:induction false} QuotedRoundTrip(s: string, rest: string)
    requires FieldEnd(rest)
    ensures ReadQuoted(DoubleQuotes(s) + "\"" + rest) == (s, rest)
    decreases |s|
  {
    var e := DoubleQuotes(s) + "\"" + rest;
    if s == [] {
      assert DoubleQuotes(s) == "";
      assert e == "\"" + rest;
      assert e[1..] == rest;
    } else {
      DoubleQuotesStep(s[0], s[1..]);
      var tail := DoubleQuotes(s[1..]) + "\"" + rest;
      QuotedRoundTrip(s[1..], rest);
      if s[0] == '"' {
        assert e == "\"\"" + tail;
        assert e[2..] == tail;
        assert "\"" + s[1..] == s;
      } else {
        assert e == [s[0]] + tail;
        assert e[1..] == tail;
        assert [s[0]] + s[1..] == s;
      }
    }
  }

  /** Reading an unquoted field takes exactly the field. */
  lemma {:induction false} BareRoundTrip(s: string, rest: string)
    requires ',' !in s && '\n' !in s && FieldEnd(rest)
    ensures ReadBare(s + rest) == (s, rest)
    decreases |s|
  {
    var e := s + rest;
    if s == [] {
      assert e == rest;
    } else {
      assert e[1..] == s[1..] + rest;
      assert e[0] == s[0];
      BareRoundTrip(s[1..], rest);
      assert [s[0]] + s[1..] == s;
    }
  }

  /** A cell is quoted exactly when its text holds `,`, a line feed or a
      quote; then it is the escaped text in quotes, otherwise the text
      itself. A carriage return alone leaves a cell unquoted. */
  lemma CellQuoting(value: Option<Value>, num: real -> string)
    requires value.Some? && !value.value.Null?
    ensures var s := JsString(value.value, num);
      && ((',' in s || '\n' in s || '"' in s) ==> Cell(value, num) == "\"" + DoubleQuotes(s) + "\"")
      && (!(',' in s || '\n' in s || '"' in s) ==> Cell(value, num) == s)
  {
    var s := JsString(value.value, num);
    var e := DoubleQuotes(s);
    DoubleQuotesKeeps(s, ',');
    DoubleQuotesKeeps(s, '\n');
    DoubleQuotesKeeps(s, '"');
    ContainsChar(e, ',');
    ContainsChar(e, '\n');
    ContainsChar(e, '"');
    if !(',' in s || '\n' in s || '"' in s) {
      DoubleQuotesAbsent(s);
    }
  }

  /** Every cell reads back as the text it stands for. */
  lemma CellRoundTrip(value: Option<Value>, num: real -> string, rest: string)
    requires FieldEnd(rest)
    ensures ReadField(Cell(value, num) + rest) == (CellText(value, num), rest)
  {
    if value.None? || value.value.Null? {
      BareRoundTrip("", rest);
      assert "" + rest == rest;
    } else {
      var s := JsString(value.value, num);
      CellQuoting(value, num);
      if ',' in s || '\n' in s || '"' in s {
        var c := "\"" + DoubleQuotes(s) + "\"";
        assert c + rest == "\"" + (DoubleQuotes(s) + "\"" + rest);
        QuotedRoundTrip(s, rest);
      } else {
        BareRoundTrip(s, rest);
      }
    }
  }

  /** A header without quotes reads back as itself. */
  lemma HeaderRoundTrip(h: string, rest: string)
    requires '"' !in h && FieldEnd(rest)
    ensures ReadField("\"" + h + "\"" + rest) == (h, rest)
  {
    DoubleQuotesAbsent(h);
    assert "\"" + h + "\"" + rest == "\"" + (DoubleQuotes(h) + "\"" + rest);
    QuotedRoundTrip(h, rest);
  }

  /** Reading the first field of a joined record and the comma after it. */
  lemma JoinStep(parts: seq<string>, first: string, rest: string)
    requires |parts| > 1
    requires ReadField(parts[0] + ("," + Join(parts[1..], ",") + rest)) == (first, "," + Join(parts[1..], ",") + rest)
    ensures Join(parts, ",") + rest == parts[0] + ("," + Join(parts[1..], ",") + rest)
    ensures ReadRecord(Join(parts, ",") + rest)
            == ([first] + ReadRecord(Join(parts[1..], ",") + rest).0, ReadRecord(Join(parts[1..], ",") + rest).1)
  {
    var t := "," + Join(parts[1..], ",") + rest;
    assert Join(parts, ",") + rest == parts[0] + t;
    assert t[1..] == Join(parts[1..], ",") + rest;
  }

  /** A header line reads back as the header names. */
  lemma {:induction false} HeaderLineRoundTrip(hs: seq<string>, rest: string)
    requires hs != [] && RecordEnd(rest)
    requires forall i :: 0 <= i < |hs| ==> '"' !in hs[i]
    ensures ReadRecord(Join(HeaderCells(hs), ",") + rest) == (hs, rest)
    decreases |hs|
  {
    var cells := HeaderCells(hs);
    if |hs| == 1 {
      HeaderRoundTrip(hs[0], rest);
      assert Join(cells, ",") == cells[0];
      assert hs == [hs[0]];
    } else {
      assert cells[1..] == HeaderCells(hs[1..]);
      var t := "," + Join(cells[1..], ",") + rest;
      HeaderRoundTrip(hs[0], t);
      JoinStep(cells, hs[0], rest);
      HeaderLineRoundTrip(hs[1..], rest);
      assert [hs[0]] + hs[1..] == hs;
    }
  }

  /** A data line reads back as the texts of the row's cells. */
  lemma {:induction false} RowLineRoundTrip(row: Value, hs: seq<string>, num: real -> string, rest: string)
    requires hs != [] && RecordEnd(rest)
    ensures ReadRecord(Join(RowCells(row, hs, num), ",") + rest) == (RowTexts(row, hs, num), rest)
    decreases |hs|
  {
    var cells := RowCells(row, hs, num);
    if |hs| == 1 {
      CellRoundTrip(Field(row, hs[0]), num, rest);
      assert cells[0] == Cell(Field(row, hs[0]), num);
      assert Join(cells, ",") + rest == cells[0] + rest;
      assert ReadRecord(cells[0] + rest) == ([CellText(Field(row, hs[0]), num)], rest);
      assert RowTexts(row, hs, num) == [CellText(Field(row, hs[0]), num)];
    } else {
      assert cells[1..] == RowCells(row, hs[1..], num);
      var t := "," + Join(cells[1..], ",") + rest;
      CellRoundTrip(Field(row, hs[0]), num, t);
      JoinStep(cells, CellText(Field(row, hs[0]), num), rest);
      RowLineRoundTrip(row, hs[1..], num, rest);
    }
  }

  /** The data lines read back as the texts of every row. */
  lemma {:induction false} DataLinesRoundTrip(data: seq<Value>, hs: seq<string>, num: real -> string)
    requires data != [] && hs != []
    ensures ReadCsv(Join(DataLines(data, hs, num), "\n")) == DataTexts(data, hs, num)
    decreases |data|
  {
    var lines := DataLines(data, hs, num);
    if |data| == 1 {
      RowLineRoundTrip(data[0], hs, num, "");
      assert Join(lines, "\n") == lines[0] + "";
    } else {
      assert lines[1..] == DataLines(data[1..], hs, num);
      var t := "\n" + Join(lines[1..], "\n");
      RowLineRoundTrip(data[0], hs, num, t);
      assert Join(lines, "\n") == lines[0] + t;
      assert t[1..] == Join(lines[1..], "\n");
      DataLinesRoundTrip(data[1..], hs, num);
    }
  }

  /** The export reads back as one record of header names followed by one
      record per row holding the text of each of its cells, so there are
      `1 + data.length` records, each as long as the header list. Header
      names must be free of quotes, which the export does not escape. */
  lemma CsvRoundTrip(data: seq<Value>, headers: Option<seq<string>>, num: real -> string)
    requires data != [] && !Throws(data, headers)
    requires Headers(data, headers) != []
    requires forall i :: 0 <= i < |Headers(data, headers)| ==> '"' !in Headers(data, headers)[i]
    ensures ArrayToCsv(Some(data), headers, num).Some?
    ensures ReadCsv(ArrayToCsv(Some(data), headers, num).value)
            == [Headers(data, headers)] + DataTexts(data, Headers(data, headers), num)
    ensures |ReadCsv(ArrayToCsv(Some(data), headers, num).value)| == 1 + |data|
  {
    var hs := Headers(data, headers);
    var lines := [Join(HeaderCells(hs), ",")] + DataLines(data, hs, num);
    var t := "\n" + Join(lines[1..], "\n");
    assert lines[1..] == DataLines(data, hs, num);
    assert Join(lines, "\n") == lines[0] + t;
    HeaderLineRoundTrip(hs, t);
    assert t[1..] == Join(DataLines(data, hs, num), "\n");
    DataLinesRoundTrip(data, hs, num);
  }

  /** Without given headers the columns are the keys of the first row only:
      a key that first appears in a later row is not exported. */
  lemma DefaultHeadersFirstRow(es: Entries, rest: seq<Value>, num: real -> string, k: nat)
    requires es != [] && forall i :: 0 <= i < |es| ==> '"' !in es[i].0
    requires forall i :: 0 <= i < |rest| ==> !rest[i].Null?
    requires k < 2 + |rest|
    ensures ArrayToCsv(Some([Dict(es)] + rest), None, num).Some?
    ensures |ReadCsv(ArrayToCsv(Some([Dict(es)] + rest), None, num).value)| == 2 + |rest|
    ensures ReadCsv(ArrayToCsv(Some([Dict(es)] + rest), None, num).value)[0] == Keys(es)
    ensures |ReadCsv(ArrayToCsv(Some([Dict(es)] + rest), None, num).value)[k]| == |es|
  {
    var data := [Dict(es)] + rest;
    forall i | 0 <= i < |data| ensures !data[i].Null? {
      if i > 0 { assert data[i] == rest[i - 1]; }
    }
    assert Headers(data, None) == Keys(es);
    CsvRoundTrip(data, None, num);
    var records := [Keys(es)] + DataTexts(data, Keys(es), num);
    assert ReadCsv(ArrayToCsv(Some(data), None, num).value) == records;
    assert |data| == 1 + |rest|;
    assert |records| == 1 + |data|;
    if k > 0 {
      assert records[k] == DataTexts(data, Keys(es), num)[k - 1];
      DataTextsAt(data, Keys(es), num, k - 1);
    }
  }

  lemma {:induction false} DataTextsAt(data: seq<Value>, hs: seq<string>, num: real -> string, i: nat)
    requires i < |data|
    ensures DataTexts(data, hs, num)[i] == RowTexts(data[i], hs, num)
    decreases i
  {
    if i > 0 {
      DataTextsAt(data[1..], hs, num, i - 1);
    }
  }

  /** A quote inside a header name is not escaped, so the header does not
      read back: `a"b` is written as `"a"b"` and read as `a`. */
  lemma HeaderQuoteNotEscaped()
    ensures Join(HeaderCells(["a\"b"]), ",") == "\"a\"b\""
    ensures ReadRecord(Join(HeaderCells(["a\"b"]), ",")).0 == ["a"]
  {
    assert HeaderCells(["a\"b"]) == ["\"" + "a\"b" + "\""];
    assert "\"" + "a\"b" + "\"" == "\"a\"b\"";
    assert "\""[1..] == "";
    assert "\""[0] == '"';
    assert ReadBare("") == ("", "");
    assert ['"'] + "" == "\"";
    assert ReadBare("\"") == ("\"", "");
    assert "b\""[1..] == "\"";
    assert "b\""[0] == 'b' && ['b'] + "\"" == "b\"";
    assert ReadBare("b\"") == ("b\"", "");
    assert "\"b\""[1..] == "b\"";
    assert ReadQuoted("\"b\"") == ("", "b\"");
    assert "a\"b\""[1..] == "\"b\"";
    assert "a\"b\""[0] == 'a' && ['a'] + "" == "a";
    assert ReadQuoted("a\"b\"") == ("a", "b\"");
    assert "\"a\"b\""[1..] == "a\"b\"";
  }

  /** The measurement-information export of an object with quote-free keys
      is one header record of its keys and one record of its values. */
  lemma MeasurementInfoExport(es: Entries, num: real -> string)
    requires es != [] && forall i :: 0 <= i < |es| ==> '"' !in es[i].0
    ensures ArrayToCsv(Some(FormatMeasurementInfo(Some(Dict(es)))), None, num).Some?
    ensures var records := ReadCsv(ArrayToCsv(Some(FormatMeasurementInfo(Some(Dict(es)))), None, num).value);
      |records| == 2 && records[0] == Keys(es) && records[1] == RowTexts(Dict(es), Keys(es), num)
  {
    var data := FormatMeasurementInfo(Some(Dict(es)));
    CsvRoundTrip(data, None, num);
    DataTextsAt(data, Keys(es), num, 0);
  }
}
