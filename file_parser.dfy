/** The AFM file-name codec of the backend and everything built on it: the
    names `#date#recipe#lot[_time|[time]]#slot[_info]#.ext`, the filter that
    keeps only measurements with a backing pickle, the parsed-list cache, the
    free-text search over it, and the direct path builders for the pickle,
    profile and image files of a measurement.

    The file system is abstract: a directory is `None` when it does not exist
    and otherwise the names of its files; "exists" is membership in a set of
    names. Paths are the file names inside the tool's directory. */
module FileParser {
  import opened Common
  import opened Text

  datatype ParsedFile = ParsedFile(
    filename: string,
    date: string,
    formattedDate: string,
    recipeName: string,
    lotId: string,
    slotNumber: string,
    measuredInfo: string)

  /** A parsed file as the live list stores it, with its line number and
      tool. */
  datatype FileEntry = FileEntry(file: ParsedFile, id: nat, toolName: string)

  /** Every occurrence of `.csv`, then of `.pkl`, removed. */
  function StripExtensions(name: string): string {
    ReplaceAll(ReplaceAll(name, ".csv", ""), ".pkl", "")
  }

  /** The non-empty `#`-separated segments of the name without extensions. */
  function Segments(name: string): seq<string> {
    NonEmpty(Split(StripExtensions(name), '#'))
  }

  function LotId(segment: string): string {
    if '[' in segment then Split(segment, '[')[0]
    else if '_' in segment then Split(segment, '_')[0]
    else segment
  }

  function SlotNumber(segment: string): string {
    Split(segment, '_')[0]
  }

  function MeasuredInfo(segment: string): string {
    var parts := Split(segment, '_');
    if |parts| > 1 then Join(parts[1..], "_") else "standard"
  }

  function FormatDate(date: string): string {
    "20" + PySlice(date, 0, 2) + "-" + PySlice(date, 2, 4) + "-" + PySlice(date, 4, 6)
  }

  /** `parse_filename`: `None` when fewer than four segments remain. A name
      parses exactly when at least four non-empty segments remain; the fields
      come from the first four in order and later ones are ignored. */
  function ParseFilename(filename: string): (r: Option<ParsedFile>)
    ensures r.Some? <==> |Segments(filename)| >= 4
    ensures r.Some? ==>
      var s := Segments(filename);
      r.value.filename == filename && r.value.date == s[0] && r.value.recipeName == s[1]
      && r.value.lotId == LotId(s[2]) && r.value.slotNumber == SlotNumber(s[3])
      && r.value.measuredInfo == MeasuredInfo(s[3])
  {
    var parts := Segments(filename);
    if |parts| < 4 then None
    else
      Some(ParsedFile(
        filename, parts[0], FormatDate(parts[0]), parts[1],
        LotId(parts[2]), SlotNumber(parts[3]), MeasuredInfo(parts[3])))
  }

  // ---- properties of the codec ---------------------------------------------

  /** The first piece of a split is the longest prefix free of the separator. */
  lemma {:induction false} SplitHead(s: string, c: char)
    ensures IsPrefix(Split(s, c)[0], s)
    ensures c !in Split(s, c)[0]
    ensures |Split(s, c)[0]| == |s| || s[|Split(s, c)[0]|] == c
  {
    if s != [] {
      SplitHead(s[1..], c);
      var h := Split(s[1..], c)[0];
      if s[0] != c {
        assert Split(s, c)[0] == [s[0]] + h;
        assert s == [s[0]] + s[1..];
      }
    }
  }

  /** Lot precedence: the text before the first `[` if there is one, else the
      text before the first `_`, else the whole segment. */
  lemma LotIdPrecedence(segment: string)
    ensures IsPrefix(LotId(segment), segment)
    ensures '[' in segment ==> '[' !in LotId(segment) && segment[|LotId(segment)|] == '['
    ensures '[' !in segment && '_' in segment ==>
      '_' !in LotId(segment) && segment[|LotId(segment)|] == '_'
    ensures '[' !in segment && '_' !in segment ==> LotId(segment) == segment
  {
    SplitHead(segment, '[');
    SplitHead(segment, '_');
  }

  /** Slot and measurement: with an `_` the segment is the slot, an `_` and
      the measurement info; without one the slot is the whole segment and the
      info is "standard". */
  lemma SlotInfoSplit(segment: string)
    ensures '_' !in SlotNumber(segment)
    ensures '_' in segment ==> segment == SlotNumber(segment) + "_" + MeasuredInfo(segment)
    ensures '_' !in segment ==> SlotNumber(segment) == segment && MeasuredInfo(segment) == "standard"
  {
    var parts := Split(segment, '_');
    JoinSplit(segment, '_');
    SplitHead(segment, '_');
    SplitSeparated(segment, '_');
  }

  /** The date is reformatted as `20YY-MM-DD`; slicing never fails, so even a
      short date yields a string starting with "20" and the fallback to the
      raw date cannot happen. */
  lemma FormatDateLayout(date: string)
    ensures IsPrefix("20", FormatDate(date))
    ensures |date| >= 6 ==>
      FormatDate(date) == "20" + date[0..2] + "-" + date[2..4] + "-" + date[4..6]
      && |FormatDate(date)| == 10
  {
  }

  // ---- round trip ------------------------------------------------------------

  /** The measurement key written back in the name layout. */
  function EncodeName(date: string, recipe: string, lot: string, slot: string, info: string): string {
    Join(["", date, recipe, lot, slot + "_" + info, ""], "#")
  }

  predicate FreeOfExtensions(s: string) {
    !Contains(s, ".csv") && !Contains(s, ".pkl")
  }

  /** Parts that survive the extension stripping and the `#` split. */
  predicate Clean(date: string, recipe: string, lot: string, slot: string, info: string) {
    '#' !in date && '#' !in recipe && '#' !in lot && '#' !in slot && '#' !in info
    && FreeOfExtensions(date) && FreeOfExtensions(recipe) && FreeOfExtensions(lot)
    && FreeOfExtensions(slot) && FreeOfExtensions(info)
  }

  /** When the name parts are encodable: clean, non-empty, a lot without
      `[` or `_`, a slot without `_`. */
  predicate Encodable(date: string, recipe: string, lot: string, slot: string, info: string) {
    Clean(date, recipe, lot, slot, info)
    && date != "" && recipe != "" && lot != ""
    && '[' !in lot && '_' !in lot && '_' !in slot
  }

  lemma NoExtensionInEncoding(date: string, recipe: string, lot: string, slot: string, info: string, pat: string)
    requires Clean(date, recipe, lot, slot, info)
    requires pat == ".csv" || pat == ".pkl"
    ensures !Contains(EncodeName(date, recipe, lot, slot, info), pat)
  {
    var parts := ["", date, recipe, lot, slot + "_" + info, ""];
    if Contains(slot + "_" + info, pat) {
      assert slot + "_" + info == slot + ['_'] + info;
      ContainsAcrossSeparator(slot, '_', info, pat);
    }
    if Contains(Join(parts, "#"), pat) {
      ContainsJoin(parts, '#', pat);
      assert false;
    }
  }

  /** The segments of an encoded key are its non-empty parts. */
  lemma EncodedSegments(date: string, recipe: string, lot: string, slot: string, info: string)
    requires Clean(date, recipe, lot, slot, info)
    ensures Segments(EncodeName(date, recipe, lot, slot, info))
      == NonEmpty([date, recipe, lot, slot + "_" + info])
  {
    var name := EncodeName(date, recipe, lot, slot, info);
    var si := slot + "_" + info;
    var parts := ["", date, recipe, lot, si, ""];
    NoExtensionInEncoding(date, recipe, lot, slot, info, ".csv");
    NoExtensionInEncoding(date, recipe, lot, slot, info, ".pkl");
    ReplaceAbsent(name, ".csv", "");
    ReplaceAbsent(name, ".pkl", "");
    assert StripExtensions(name) == name;
    assert '#' !in si by {
      assert si == slot + ['_'] + info;
    }
    SplitJoin(parts, '#');
    assert parts == [""] + [date, recipe, lot, si] + [""];
    NonEmptyAppend([""] + [date, recipe, lot, si], [""]);
    NonEmptyAppend([""], [date, recipe, lot, si]);
  }

  /** Decoding an encoded key gives back its parts, so the key of a parsed
      name can be written back and read again. */
  lemma {:induction false} ParseEncodeRoundTrip(date: string, recipe: string, lot: string, slot: string, info: string)
    requires Encodable(date, recipe, lot, slot, info)
    ensures ParseFilename(EncodeName(date, recipe, lot, slot, info))
      == Some(ParsedFile(EncodeName(date, recipe, lot, slot, info), date, FormatDate(date),
                         recipe, lot, slot, info))
  {
    var si := slot + "_" + info;
    EncodedSegments(date, recipe, lot, slot, info);
    assert si != "";
    NonEmptyKeeps([date, recipe, lot, si]);
    LotIdPrecedence(lot);
    SlotInfoOf(slot, info);
  }

  /** The slot segment `slot_info` splits back into its slot and its info. */
  lemma SlotInfoOf(slot: string, info: string)
    requires '_' !in slot
    ensures SlotNumber(slot + "_" + info) == slot && MeasuredInfo(slot + "_" + info) == info
  {
    SplitAtFirst(slot, '_', info);
    JoinSplit(info, '_');
    assert Split(slot + "_" + info, '_')[1..] == Split(info, '_');
  }

  /** A lot segment that starts with `[` parses to an empty lot id, and the
      key written back from it has only three segments and no longer
      parses: the round trip needs a non-empty lot. */
  lemma EmptyLotDoesNotRoundTrip(date: string, recipe: string, segment: string, slot: string, info: string)
    requires Clean(date, recipe, "", slot, info)
    requires segment != [] && segment[0] == '['
    ensures LotId(segment) == ""
    ensures ParseFilename(EncodeName(date, recipe, LotId(segment), slot, info)).None?
  {
    BracketedLot(segment);
    EncodedSegments(date, recipe, "", slot, info);
    NonEmptyShorter([date, recipe, "", slot + "_" + info], 2);
  }

  lemma BracketedLot(segment: string)
    requires segment != [] && segment[0] == '['
    ensures LotId(segment) == ""
  {
    assert segment == "" + ['['] + segment[1..];
    SplitAtFirst("", '[', segment[1..]);
  }

  // ---- the pickle filter and the live list -----------------------------------

  /** The four fields a pickle must share with a listed measurement. */
  predicate SameMeasurement(a: ParsedFile, b: ParsedFile) {
    a.lotId == b.lotId && a.slotNumber == b.slotNumber
    && a.measuredInfo == b.measuredInfo && a.recipeName == b.recipeName
  }

  /** A name that `glob('*.pkl')` returns and that parses to the measurement. */
  predicate PickleMatches(parsed: ParsedFile, name: string) {
    IsSuffix(".pkl", name)
    && var p := ParseFilename(name);
    p.Some? && SameMeasurement(p.value, parsed)
  }

  predicate HasPickle(parsed: ParsedFile, pickleDir: Option<seq<string>>) {
    pickleDir.Some? && exists i :: 0 <= i < |pickleDir.value| && PickleMatches(parsed, pickleDir.value[i])
  }

  /** `check_pickle_file_exists`: scans the pickle directory and stops at the
      first name that parses to the same measurement. */
  method CheckPickleFileExists(parsed: ParsedFile, pickleDir: Option<seq<string>>) returns (found: bool)
    ensures found <==> HasPickle(parsed, pickleDir)
  {
    if pickleDir.None? {
      return false;
    }
    var names := pickleDir.value;
    var i := 0;
    while i < |names|
      invariant 0 <= i <= |names|
      invariant forall j :: 0 <= j < i ==> !PickleMatches(parsed, names[j])
    {
      var hit := MeasurementCandidate(parsed, names[i]);
      if hit {
        return true;
      }
      i := i + 1;
    }
    return false;
  }

  method MeasurementCandidate(parsed: ParsedFile, name: string) returns (hit: bool)
    ensures hit == PickleMatches(parsed, name)
  {
    if !IsSuffix(".pkl", name) {
      return false;
    }
    var p := ParseFilename(name);
    hit := p.Some? && SameMeasurement(p.value, parsed);
  }

  /** The file name a listing line carries: the line stripped, and, when it
      holds the `→` marker, the stripped text after the first marker. */
  function ListedName(line: string): string {
    var l := PyStrip(line);
    SplitSeparated(l, '→');
    if '→' in l then PyStrip(Split(l, '→')[1]) else l
  }

  /** The entry line number `n` contributes, if any: a non-blank line whose
      name parses and has a pickle. */
  function LineEntry(line: string, n: nat, pickleDir: Option<seq<string>>, tool: string): Option<FileEntry> {
    if PyStrip(line) == "" then None
    else
      match ParseFilename(ListedName(line))
      case None => None
      case Some(p) => if HasPickle(p, pickleDir) then Some(FileEntry(p, n, tool)) else None
  }

  /** A line has an entry exactly when it is not blank and its name parses
      and has a pickle; the entry is that parse with the line number and the
      tool name. */
  lemma LineEntryMeaning(line: string, n: nat, pickleDir: Option<seq<string>>, tool: string)
    ensures LineEntry(line, n, pickleDir, tool).Some? <==>
      PyStrip(line) != "" && ParseFilename(ListedName(line)).Some?
      && HasPickle(ParseFilename(ListedName(line)).value, pickleDir)
    ensures LineEntry(line, n, pickleDir, tool).Some? ==>
      LineEntry(line, n, pickleDir, tool) == Some(FileEntry(ParseFilename(ListedName(line)).value, n, tool))
  {
  }

  function LineEntryOf(pickleDir: Option<seq<string>>, tool: string): (string, nat) -> Option<FileEntry> {
    (line: string, n: nat) => LineEntry(line, n, pickleDir, tool)
  }

  lemma LineEntryIds(pickleDir: Option<seq<string>>, tool: string)
    ensures forall l, m :: LineEntryOf(pickleDir, tool)(l, m).Some? ==> LineEntryOf(pickleDir, tool)(l, m).value.id == m
  {
  }

  /** The entries that `entry` draws from the first `n` lines, numbering
      lines from 1. */
  function Collect(lines: seq<string>, n: nat, entry: (string, nat) -> Option<FileEntry>): seq<FileEntry>
    requires n <= |lines|
  {
    if n == 0 then []
    else
      Collect(lines, n - 1, entry)
      + match entry(lines[n - 1], n) case Some(e) => [e] case None => []
  }

  /** The list `load_afm_file_list_live` builds from the listing lines. */
  function LiveEntries(lines: seq<string>, pickleDir: Option<seq<string>>, tool: string): seq<FileEntry> {
    Collect(lines, |lines|, LineEntryOf(pickleDir, tool))
  }

  /** `load_afm_file_list_live`: `listFile` is `None` when the listing file
      does not exist and otherwise its lines. The names that parse but have
      no pickle are only logged. */
  method LoadAfmFileListLive(listFile: Option<seq<string>>, pickleDir: Option<seq<string>>, tool: string)
    returns (entries: seq<FileEntry>)
    ensures listFile.None? || pickleDir.None? ==> entries == []
    ensures listFile.Some? && pickleDir.Some? ==> entries == LiveEntries(listFile.value, pickleDir, tool)
  {
    if listFile.None? || pickleDir.None? {
      return [];
    }
    var lines := listFile.value;
    entries := [];
    var i := 0;
    while i < |lines|
      invariant 0 <= i <= |lines|
      invariant entries == Collect(lines, i, LineEntryOf(pickleDir, tool))
    {
      var e := ReadLine(lines[i], i + 1, pickleDir, tool);
      entries := entries + e;
      i := i + 1;
    }
  }

  /** One iteration of the listing loop: the entry of the line, if any. */
  method ReadLine(raw: string, lineNum: nat, pickleDir: Option<seq<string>>, tool: string)
    returns (entry: seq<FileEntry>)
    ensures entry == match LineEntry(raw, lineNum, pickleDir, tool) case Some(e) => [e] case None => []
  {
    var line := PyStrip(raw);
    if line == "" {
      return [];
    }
    var filename := ListedName(raw);
    var parsed := ParseFilename(filename);
    if parsed.None? {
      return [];
    }
    var hasPickle := CheckPickleFileExists(parsed.value, pickleDir);
    entry := if hasPickle then [FileEntry(parsed.value, lineNum, tool)] else [];
  }

  /** Every collected entry comes from its own line: its id is that line's
      1-based number (blank lines included), and ids strictly increase, so the
      output follows the file. */
  lemma {:induction false} CollectSound(lines: seq<string>, n: nat, entry: (string, nat) -> Option<FileEntry>)
    requires n <= |lines|
    requires forall l, m :: entry(l, m).Some? ==> entry(l, m).value.id == m
    ensures forall e :: e in Collect(lines, n, entry) ==>
      1 <= e.id <= n && entry(lines[e.id - 1], e.id) == Some(e)
    ensures forall k, m :: 0 <= k < m < |Collect(lines, n, entry)| ==>
      Collect(lines, n, entry)[k].id < Collect(lines, n, entry)[m].id
  {
    if n > 0 {
      CollectSound(lines, n - 1, entry);
      var prev := Collect(lines, n - 1, entry);
      var es := Collect(lines, n, entry);
      match entry(lines[n - 1], n)
      case None =>
        assert es == prev;
      case Some(e) =>
        assert es == prev + [e];
        assert e.id == n;
        forall k, m | 0 <= k < m < |es| ensures es[k].id < es[m].id {
          assert es[k] == prev[k];
          if m < |prev| {
            assert es[m] == prev[m];
          }
        }
    }
  }

  /** And every line with an entry is collected. */
  lemma {:induction false} CollectComplete(lines: seq<string>, n: nat, entry: (string, nat) -> Option<FileEntry>, k: nat)
    requires 1 <= k <= n <= |lines|
    requires entry(lines[k - 1], k).Some?
    ensures entry(lines[k - 1], k).value in Collect(lines, n, entry)
  {
    if k < n {
      CollectComplete(lines, n - 1, entry, k);
    }
  }

  /** The live list holds exactly the entries of its lines, in file order:
      by `LineEntry`'s contract, the lines that parse and have a pickle, each
      with its line number and the tool name. */
  lemma LiveEntriesSound(lines: seq<string>, pickleDir: Option<seq<string>>, tool: string)
    ensures forall e :: e in LiveEntries(lines, pickleDir, tool) ==>
      1 <= e.id <= |lines| && LineEntry(lines[e.id - 1], e.id, pickleDir, tool) == Some(e)
    ensures forall k, m :: 0 <= k < m < |LiveEntries(lines, pickleDir, tool)| ==>
      LiveEntries(lines, pickleDir, tool)[k].id < LiveEntries(lines, pickleDir, tool)[m].id
  {
    LineEntryIds(pickleDir, tool);
    CollectSound(lines, |lines|, LineEntryOf(pickleDir, tool));
  }

  lemma LiveEntriesComplete(lines: seq<string>, pickleDir: Option<seq<string>>, tool: string, j: nat)
    requires j < |lines| && LineEntry(lines[j], j + 1, pickleDir, tool).Some?
    ensures LineEntry(lines[j], j + 1, pickleDir, tool).value in LiveEntries(lines, pickleDir, tool)
  {
    CollectComplete(lines, |lines|, LineEntryOf(pickleDir, tool), j + 1);
  }

  // ---- the parsed-list cache -------------------------------------------------

  datatype CacheMetadata = CacheMetadata(
    toolName: string, totalFilesProcessed: nat, generatedAt: string, cacheVersion: string)

  datatype CacheArtifact = CacheArtifact(measurements: seq<FileEntry>, metadata: CacheMetadata)

  /** `parse_and_cache_afm_data` given the live list, the clock reading and
      whether creating the directory and dumping the pickle succeed: whether
      it succeeded and the cache it writes. */
  function ParseAndCache(live: seq<FileEntry>, tool: string, now: string, written: bool): (r: (bool, Option<CacheArtifact>))
    ensures r.0 <==> live != [] && written
    ensures !r.0 ==> r.1.None?
    ensures r.0 ==>
      r.1.Some? && r.1.value.measurements == live
      && r.1.value.metadata.totalFilesProcessed == |r.1.value.measurements|
      && r.1.value.metadata == CacheMetadata(tool, |live|, now, "1.0")
  {
    if live == [] || !written then (false, None)
    else (true, Some(CacheArtifact(live, CacheMetadata(tool, |live|, now, "1.0"))))
  }

  /** `load_afm_file_list`: the cached measurements when the cache can be
      read, the live list otherwise. */
  function LoadAfmFileList(cache: Option<CacheArtifact>, live: seq<FileEntry>): (r: seq<FileEntry>)
    ensures cache.Some? ==> r == cache.value.measurements
    ensures cache.None? ==> r == live
  {
    match cache
    case Some(c) => c.measurements
    case None => live
  }

  /** Reading back a freshly written cache gives the live list it was built
      from; when nothing was written the live list is used anyway. */
  lemma CacheRoundTrip(live: seq<FileEntry>, tool: string, now: string, written: bool)
    ensures LoadAfmFileList(ParseAndCache(live, tool, now, written).1, live) == live
  {
  }

  // ---- search ------------------------------------------------------------------

  /** The six searchable fields, in the order they are tried. */
  function SearchFields(f: ParsedFile): seq<string> {
    [f.lotId, f.recipeName, f.measuredInfo, f.formattedDate, f.slotNumber, f.filename]
  }

  predicate FieldsMatch(fields: seq<string>, q: string) {
    exists i :: 0 <= i < |fields| && Contains(Lower(fields[i]), q)
  }

  /** Whether a measurement is kept for the normalised query `q`. */
  function Matcher(q: string): FileEntry -> bool {
    (e: FileEntry) => FieldsMatch(SearchFields(e.file), q)
  }

  /** The normalised query: lowercased, then stripped. */
  function SearchKey(query: string): string {
    PyStrip(Lower(query))
  }

  /** `search_afm_files` over the loaded measurements. */
  method SearchAfmFiles(query: string, measurements: seq<FileEntry>) returns (results: seq<FileEntry>)
    ensures query == "" || PyStrip(query) == "" ==> results == measurements
    ensures query != "" && PyStrip(query) != "" ==> results == Filter(measurements, Matcher(SearchKey(query)))
  {
    if measurements == [] {
      return [];
    }
    if query == "" || PyStrip(query) == "" {
      return measurements;
    }
    results := FilterByQuery(SearchKey(query), measurements);
  }

  /** The outer loop: keeps, in order, every measurement with a field that
      contains the normalised query. */
  method FilterByQuery(q: string, measurements: seq<FileEntry>) returns (results: seq<FileEntry>)
    ensures results == Filter(measurements, Matcher(q))
  {
    results := [];
    var i := 0;
    while i < |measurements|
      invariant 0 <= i <= |measurements|
      invariant results == Filter(measurements[..i], Matcher(q))
    {
      var matched := AnyFieldMatches(SearchFields(measurements[i].file), q);
      FilterSnoc(measurements, i, Matcher(q));
      if matched {
        results := results + [measurements[i]];
      }
      i := i + 1;
    }
    assert measurements[..i] == measurements;
  }

  /** The inner loop: tries the fields in order and stops at the first that
      contains the query. */
  method AnyFieldMatches(fields: seq<string>, q: string) returns (matched: bool)
    ensures matched <==> FieldsMatch(fields, q)
  {
    var j := 0;
    while j < |fields|
      invariant 0 <= j <= |fields|
      invariant forall k :: 0 <= k < j ==> !Contains(Lower(fields[k]), q)
    {
      if Contains(Lower(fields[j]), q) {
        return true;
      }
      j := j + 1;
    }
    return false;
  }

  /** A query found in the lot id keeps the measurement, whatever case the
      query was typed in. */
  lemma SearchByLot(query: string, e: FileEntry)
    requires IsPrefix(SearchKey(query), Lower(e.file.lotId))
    ensures Matcher(SearchKey(query))(e)
  {
    assert SearchFields(e.file)[0] == e.file.lotId;
  }

  // ---- lookup by group key -----------------------------------------------------

  /** The (lot, slot, info) target of a group key `lot_slot_info`. */
  function GroupTarget(groupKey: string): Option<(string, string, string)> {
    var parts := Split(groupKey, '_');
    if |parts| < 3 then None else Some((parts[0], parts[1], Join(parts[2..], "_")))
  }

  predicate TargetMatches(t: (string, string, string), p: ParsedFile) {
    p.lotId == t.0 && p.slotNumber == t.1 && p.measuredInfo == t.2
  }

  predicate PickleForTarget(t: (string, string, string), name: string) {
    IsSuffix(".pkl", name) && var p := ParseFilename(name); p.Some? && TargetMatches(t, p.value)
  }

  function PickleMatcher(t: (string, string, string)): string -> bool {
    (name: string) => PickleForTarget(t, name)
  }

  /** `find_pickle_file_path`: the first pickle whose parse has the key's
      lot, slot and measurement info. */
  method FindPickleFilePath(groupKey: string, pickleDir: Option<seq<string>>) returns (r: Option<string>)
    ensures GroupTarget(groupKey).None? || pickleDir.None? ==> r.None?
    ensures GroupTarget(groupKey).Some? && pickleDir.Some? ==>
      r == First(pickleDir.value, PickleMatcher(GroupTarget(groupKey).value))
  {
    var target := GroupTarget(groupKey);
    if target.None? || pickleDir.None? {
      return None;
    }
    var t, names := target.value, pickleDir.value;
    var i := 0;
    while i < |names|
      invariant 0 <= i <= |names|
      invariant First(names, PickleMatcher(t)) == First(names[i..], PickleMatcher(t))
    {
      FirstStep(names, i, PickleMatcher(t));
      var hit := PickleCandidate(t, names[i]);
      if hit {
        return Some(names[i]);
      }
      i := i + 1;
    }
    return None;
  }

  method PickleCandidate(t: (string, string, string), name: string) returns (hit: bool)
    ensures hit == PickleForTarget(t, name)
  {
    if !IsSuffix(".pkl", name) {
      return false;
    }
    var parsed := ParseFilename(name);
    hit := parsed.Some? && TargetMatches(t, parsed.value);
  }

  /** A group key `lot_slot_info` built from a lot and a slot without `_`
      splits back into its three parts, whatever the info holds. */
  lemma KeyRoundTrip(lot: string, slot: string, info: string)
    requires '_' !in lot && '_' !in slot
    ensures GroupTarget(lot + "_" + slot + "_" + info) == Some((lot, slot, info))
  {
    var ps := Split(lot + "_" + slot + "_" + info, '_');
    KeyParts(lot, slot, info);
    assert ps[2..] == Split(info, '_');
    JoinSplit(info, '_');
  }

  lemma KeyParts(a: string, b: string, c: string)
    requires '_' !in a && '_' !in b
    ensures Split(a + "_" + b + "_" + c, '_') == [a, b] + Split(c, '_')
  {
    assert a + "_" + b + "_" + c == a + "_" + (b + "_" + c);
    SplitAtFirst(a, '_', b + "_" + c);
    SplitAtFirst(b, '_', c);
  }

  // ---- profile and image files of one point ---------------------------------

  /** The digits `D` of a name ending `#_D_Height<ext>` (the regular
      expression `#_(\d+)_Height\.pkl$`), if it has that form. */
  function PointSuffix(name: string, ext: string): Option<string> {
    var tail := "_Height" + ext;
    if !IsSuffix(tail, name) then None
    else
      var body := name[..|name| - |tail|];
      var d := TrailingDigits(body);
      if d != [] && |body| >= |d| + 2 && body[|body| - |d| - 2..|body| - |d|] == "#_" then Some(d)
      else None
  }

  /** The longest suffix made of digits. */
  function TrailingDigits(s: string): (r: string)
    ensures |r| <= |s| && r == s[|s| - |r|..] && AllDigits(r)
    ensures |r| == |s| || !IsDigit(s[|s| - |r| - 1])
  {
    if s == [] || !IsDigit(s[|s| - 1]) then []
    else TrailingDigits(s[..|s| - 1]) + [s[|s| - 1]]
  }

  /** The point digits of a file that belongs to the measurement `t`: its
      name has the extension, the name with `_Height<ext>` replaced by `.pkl`
      parses to `t`, and it ends `#_D_Height<ext>`. */
  function CandidateDigits(t: (string, string, string), name: string, ext: string): Option<string> {
    if !IsSuffix(ext, name) then None
    else
      match ParseFilename(ReplaceAll(name, "_Height" + ext, ".pkl"))
      case None => None
      case Some(p) => if TargetMatches(t, p) then PointSuffix(name, ext) else None
  }

  function PointMatcher(t: (string, string, string), n: int, ext: string): string -> bool {
    (name: string) => CandidateDigits(t, name, ext) == Some(Pad4(n))
  }

  /** `find_profile_file_path` (ext `.pkl`) and `find_image_file_path` (ext
      `.webp`): the first file of the measurement whose point digits equal
      the zero-padded point. A point `int()` rejects raises on the first
      candidate; the error is caught, so the result is `None` either way. */
  method FindPointFilePath(groupKey: string, point: string, dir: Option<seq<string>>, ext: string)
    returns (r: Option<string>)
    requires ext == ".pkl" || ext == ".webp"
    ensures GroupTarget(groupKey).None? || dir.None? || PyInt(point).None? ==> r.None?
    ensures GroupTarget(groupKey).Some? && dir.Some? && PyInt(point).Some? ==>
      r == First(dir.value, PointMatcher(GroupTarget(groupKey).value, PyInt(point).value, ext))
  {
    var target := GroupTarget(groupKey);
    if target.None? || dir.None? {
      return None;
    }
    var t, names := target.value, dir.value;
    var i := 0;
    while i < |names|
      invariant 0 <= i <= |names|
      invariant PyInt(point).Some? ==>
        First(names, PointMatcher(t, PyInt(point).value, ext)) == First(names[i..], PointMatcher(t, PyInt(point).value, ext))
    {
      var digits := PointCandidate(t, names[i], ext);
      if digits.Some? {
        var n := PyInt(point);
        if n.None? {
          return None;
        }
        FirstStep(names, i, PointMatcher(t, n.value, ext));
        if digits.value == Pad4(n.value) {
          return Some(names[i]);
        }
      } else if PyInt(point).Some? {
        FirstStep(names, i, PointMatcher(t, PyInt(point).value, ext));
      }
      i := i + 1;
    }
    return None;
  }

  /** The tests the finder applies to one file, in the order it applies
      them. */
  method PointCandidate(t: (string, string, string), name: string, ext: string) returns (digits: Option<string>)
    ensures digits == CandidateDigits(t, name, ext)
  {
    if !IsSuffix(ext, name) {
      return None;
    }
    var parsed := ParseFilename(ReplaceAll(name, "_Height" + ext, ".pkl"));
    if parsed.None? || !TargetMatches(t, parsed.value) {
      return None;
    }
    digits := PointSuffix(name, ext);
  }

  /** The base name without `.csv` / `.pkl`. */
  function NoExt(base: string): string {
    StripExtensions(base)
  }

  function PickleFileName(base: string): string {
    NoExt(base) + ".pkl"
  }

  function PointFileName(base: string, n: int, ext: string): string {
    NoExt(base) + "#_" + Pad4(n) + "_Height" + ext
  }

  /** `get_pickle_file_path_by_filename`. */
  function GetPicklePathByFilename(base: string, existing: set<string>): (r: Option<string>)
    ensures r.Some? <==> PickleFileName(base) in existing
    ensures r.Some? ==> r.value == PickleFileName(base) && IsSuffix(".pkl", r.value)
  {
    if PickleFileName(base) in existing then Some(PickleFileName(base)) else None
  }

  /** `get_profile_file_path_by_filename` (ext `.pkl`, the profile
      directory) and `get_image_file_path_by_filename` (ext `.webp`, the
      tiff directory). */
  function GetPointPathByFilename(base: string, point: string, ext: string, existing: set<string>): (r: Option<string>)
    ensures r.Some? <==> PyInt(point).Some? && PointFileName(base, PyInt(point).value, ext) in existing
    ensures r.Some? ==> r.value == PointFileName(base, PyInt(point).value, ext)
  {
    match PyInt(point)
    case None => None
    case Some(n) => if PointFileName(base, n, ext) in existing then Some(PointFileName(base, n, ext)) else None
  }

  /** The name built for point `n` ends with `_Height<ext>`, and the digits
      between `#_` and that tail read back as `n`, negative points
      included. */
  lemma PointFileNameDigits(base: string, n: int, ext: string)
    ensures IsSuffix("_Height" + ext, PointFileName(base, n, ext))
    ensures PyInt(PointFileName(base, n, ext)[|NoExt(base)| + 2..|PointFileName(base, n, ext)| - |"_Height" + ext|])
      == Some(n)
  {
    var name := PointFileName(base, n, ext);
    var tail := "_Height" + ext;
    var d := Pad4(n);
    assert name == (NoExt(base) + "#_") + d + tail;
    SliceOfThree(NoExt(base) + "#_", d, tail);
    PyIntPad4(n);
  }

  lemma SliceOfThree(a: string, b: string, c: string)
    ensures (a + b + c)[|a + b + c| - |c|..] == c
    ensures (a + b + c)[|a|..|a + b + c| - |c|] == b
  {
  }

  /** The finder recognises the builder's names: for a non-negative point
      the digits it extracts are exactly the padded point. */
  lemma PointSuffixOfBuiltName(base: string, n: nat, ext: string)
    ensures PointSuffix(PointFileName(base, n, ext), ext) == Some(Pad4(n))
  {
    PadDigitsValue(n, 4);
    assert Pad4(n) == ZeroPad(NatToString(n), 4);
    PointSuffixOf(NoExt(base), Pad4(n), ext);
  }

  lemma PointSuffixOf(prefix: string, d: string, ext: string)
    requires d != [] && AllDigits(d)
    ensures PointSuffix(prefix + "#_" + d + "_Height" + ext, ext) == Some(d)
  {
    var name := prefix + "#_" + d + "_Height" + ext;
    var tail := "_Height" + ext;
    assert name == (prefix + "#_" + d) + tail;
    var body := prefix + "#_" + d;
    assert name[..|name| - |tail|] == body;
    assert name[|name| - |tail|..] == tail;
    TrailingDigitsOf(prefix + "#_", d);
    assert body[|body| - |d| - 2..|body| - |d|] == "#_";
  }

  lemma {:induction false} TrailingDigitsOf(prefix: string, d: string)
    requires d != [] && AllDigits(d) && |prefix| >= 1 && !IsDigit(prefix[|prefix| - 1])
    ensures TrailingDigits(prefix + d) == d
    decreases |d|
  {
    var s := prefix + d;
    if |d| == 1 {
      assert s[..|s| - 1] == prefix;
    } else {
      assert s[..|s| - 1] == prefix + d[..|d| - 1];
      TrailingDigitsOf(prefix, d[..|d| - 1]);
      assert d == d[..|d| - 1] + [d[|d| - 1]];
    }
  }

  /** A site label such as `1_UL` is not an integer, so no profile path is
      built for it, whatever files exist. */
  lemma SitePointHasNoPath(base: string, point: string, ext: string, existing: set<string>)
    requires |point| >= 2 && IsDigit(point[0]) && 'A' <= point[|point| - 1] <= 'Z'
    ensures GetPointPathByFilename(base, point, ext, existing).None?
  {
    PyIntRejectsLabel(point);
  }
}
