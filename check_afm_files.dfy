/** `check_afm_files.py`: the `AFMFileChecker` command-line tool. It parses
    the AFM file names with its own rules, checks the structure of each
    unpickled data and profile file, counts dates, recipes and lots over
    every file it scans, samples files, and looks up the profile files a
    data file should have.

    The file system is abstract. A directory is `None` when it does not
    exist, and otherwise it is the names its `glob('*.pkl')` returns, in
    that order. A file's content is what `pickle.load` returns, or `None`
    when opening or unpickling it raises. "Exists" means being in a set of
    names. */
module CheckAfmFiles {
  import opened Common
  import opened Text
  import FileParser

  // ---------------------------------------------------------------------
  // parse_filename
  // ---------------------------------------------------------------------

  /** The dict `parse_filename` returns when the name has enough parts. */
  datatype NameParts = NameParts(date: string, recipe: string, lotId: string, slotInfo: string, fullName: string)

  /** The text before the first `_` of the lot segment, or the whole
      segment; a `[` is not treated specially. */
  function LotOf(segment: string): string {
    if '_' in segment then Split(segment, '_')[0] else segment
  }

  /** `parse_filename`: a raw split on `#` that keeps empty parts and the
      extension. `None` stands for the empty dict. A name parses exactly when
      it holds at least four `#`; the date, recipe and slot are the pieces
      after the first, second and fourth `#`, and the lot is the longest
      `_`-free prefix of the third. */
  function ParseFilename(filename: string): (r: Option<NameParts>)
    ensures r.Some? <==> |Split(filename, '#')| >= 5
    ensures r.Some? <==> multiset(filename)['#'] >= 4
    ensures r.Some? ==>
      var parts := Split(filename, '#');
      r.value.fullName == filename && r.value.date == parts[1] && r.value.recipe == parts[2] && r.value.slotInfo == parts[4]
      && IsPrefix(r.value.lotId, parts[3]) && '_' !in r.value.lotId
      && (|r.value.lotId| == |parts[3]| || parts[3][|r.value.lotId|] == '_')
  {
    SplitCount(filename, '#');
    var parts := Split(filename, '#');
    if |parts| >= 5 then
      FileParser.SplitHead(parts[3], '_');
      Some(NameParts(parts[1], parts[2], LotOf(parts[3]), parts[4], filename))
    else None
  }

  /** The name layout `#date#recipe#lot#slot#` with `suffix` after the last
      `#` (for example `.pkl`). */
  function EncodeName(date: string, recipe: string, lot: string, slot: string, suffix: string): string {
    Join(["", date, recipe, lot, slot, suffix], "#")
  }

  /** Parsing a name written in the layout gives back its parts, and the lot
      keeps only the text before its first `_`. */
  lemma ParseEncodeRoundTrip(date: string, recipe: string, lot: string, slot: string, suffix: string)
    requires '#' !in date && '#' !in recipe && '#' !in lot && '#' !in slot && '#' !in suffix
    ensures ParseFilename(EncodeName(date, recipe, lot, slot, suffix))
      == Some(NameParts(date, recipe, LotOf(lot), slot, EncodeName(date, recipe, lot, slot, suffix)))
  {
    SplitJoin(["", date, recipe, lot, slot, suffix], '#');
  }

  /** A lot with a time after `_` gives back the lot alone. */
  lemma LotBeforeTime(lot: string, time: string)
    requires '_' !in lot
    ensures LotOf(lot + "_" + time) == lot
  {
    assert '_' in lot + "_" + time by {
      assert (lot + "_" + time)[|lot|] == '_';
    }
    SplitAtFirst(lot, '_', time);
  }

  /** The checker and the backend disagree on a bracketed lot segment
      without `_`: the checker keeps the brackets, the backend cuts the lot
      at the `[`. */
  lemma BracketNotHandled(segment: string)
    requires '[' in segment && '_' !in segment
    ensures LotOf(segment) == segment
    ensures '[' !in FileParser.LotId(segment)
    ensures LotOf(segment) != FileParser.LotId(segment)
  {
    FileParser.LotIdPrecedence(segment);
  }

  // ---------------------------------------------------------------------
  // check_data_file and check_profile_file
  // ---------------------------------------------------------------------

  /** `key in v`: a key of a dict, an element of a list, a substring of a
      string; `None` stands for the TypeError raised on the other types. */
  function Membership(v: Value, key: string): Option<bool> {
    match v
    case Dict(es) => Some(HasKey(es, key))
    case List(xs) => Some(Str(key) in xs)
    case Str(s) => Some(Contains(s, key))
    case _ => None
  }

  /** `v[key]`: only a dict can be indexed by a string; `None` stands for
      the KeyError or TypeError. */
  function Item(v: Value, key: string): Option<Value> {
    if v.Dict? then Get(v.entries, key) else None
  }

  /** `len(v[key])`, `None` when either step raises. */
  function LenOf(v: Value, key: string): Option<nat> {
    match Item(v, key)
    case None => None
    case Some(x) => PyLen(x)
  }

  /** The outcome of the membership loop over `keys`. */
  datatype KeyCheck = AllPresent | Missing(key: string) | Raised

  /** A key whose membership test does not succeed stops the loop. */
  function Absent(v: Value): string -> bool {
    k => Membership(v, k) != Some(true)
  }

  function CheckKeys(v: Value, keys: seq<string>): KeyCheck {
    match First(keys, Absent(v))
    case None => AllPresent
    case Some(k) => if Membership(v, k).None? then Raised else Missing(k)
  }

  /** All keys pass exactly when every membership test succeeds. */
  lemma CheckKeysAll(v: Value, keys: seq<string>)
    ensures CheckKeys(v, keys) == AllPresent <==> forall i :: 0 <= i < |keys| ==> Membership(v, keys[i]) == Some(true)
  {
  }

  /** A missing key is the first key whose test fails, every earlier key
      passing. */
  lemma CheckKeysFirst(v: Value, keys: seq<string>)
    requires CheckKeys(v, keys).Missing?
    ensures exists i :: 0 <= i < |keys| && keys[i] == CheckKeys(v, keys).key && Membership(v, keys[i]) == Some(false)
                        && forall j :: 0 <= j < i ==> Membership(v, keys[j]) == Some(true)
  {
    var f := First(keys, Absent(v));
    var k :| 0 <= k < |keys| && keys[k] == f.value && Absent(v)(keys[k]) && forall j :: 0 <= j < k ==> !Absent(v)(keys[j]);
    assert forall j :: 0 <= j < k ==> Membership(v, keys[j]) == Some(true);
  }

  /** The membership loop, returning at the first key that fails. */
  method FindMissing(v: Value, keys: seq<string>) returns (r: KeyCheck)
    ensures r == CheckKeys(v, keys)
  {
    for i := 0 to |keys|
      invariant First(keys[..i], Absent(v)) == None
    {
      FirstSnoc(keys, i, Absent(v));
      var m := Membership(v, keys[i]);
      if m != Some(true) {
        FirstPrefix(keys, i + 1, Absent(v));
        r := if m.None? then Raised else Missing(keys[i]);
        return;
      }
    }
    FirstPrefix(keys, |keys|, Absent(v));
    r := AllPresent;
  }

  /** A first hit in a prefix is the first hit of the whole sequence. */
  lemma {:induction false} FirstPrefix<T>(s: seq<T>, n: nat, p: T -> bool)
    requires n <= |s|
    requires First(s[..n], p).Some? || n == |s|
    ensures First(s, p) == First(s[..n], p)
  {
    if n == |s| {
      assert s[..n] == s;
    } else if !p(s[0]) {
      assert n > 0;
      assert s[..n][1..] == s[1..][..n - 1];
      FirstPrefix(s[1..], n - 1, p);
    }
  }

  const RequiredKeys: seq<string> := ["info", "data_status", "data_detail"]
  const InfoKeys: seq<string> := ["Lot ID", "Recipe ID", "Tool", "Start Time"]
  const Axes: seq<string> := ["X", "Y", "Z"]
  const ProfilePoints: nat := 400

  /** What `check_data_file` reports; `valid` is `DataValid?` and the
      message is built from the fields. */
  datatype DataCheck = DataValid(points: nat) | MissingKey(key: string) | MissingInfoKey(key: string) | DataUnreadable

  function CheckData(data: Option<Value>): DataCheck {
    if data.None? then DataUnreadable
    else
      var v := data.value;
      match CheckKeys(v, RequiredKeys)
      case Raised => DataUnreadable
      case Missing(k) => MissingKey(k)
      case AllPresent =>
        match Item(v, "info")
        case None => DataUnreadable
        case Some(info) =>
          match CheckKeys(info, InfoKeys)
          case Raised => DataUnreadable
          case Missing(k) => MissingInfoKey(k)
          case AllPresent =>
            match LenOf(v, "data_status")
            case None => DataUnreadable
            case Some(n) => DataValid(n)
  }

  /** `check_data_file` on the unpickled content. */
  method CheckDataFile(data: Option<Value>) returns (valid: bool, result: DataCheck)
    ensures result == CheckData(data)
    ensures valid == result.DataValid?
  {
    if data.None? {
      return false, DataUnreadable;
    }
    var v := data.value;
    var top := FindMissing(v, RequiredKeys);
    if top.Raised? {
      return false, DataUnreadable;
    } else if top.Missing? {
      return false, MissingKey(top.key);
    }
    var info := Item(v, "info");
    if info.None? {
      return false, DataUnreadable;
    }
    var inner := FindMissing(info.value, InfoKeys);
    if inner.Raised? {
      return false, DataUnreadable;
    } else if inner.Missing? {
      return false, MissingInfoKey(inner.key);
    }
    var n := LenOf(v, "data_status");
    if n.None? {
      return false, DataUnreadable;
    }
    return true, DataValid(n.value);
  }

  /** A data file is valid exactly when it is a dict with the three
      required keys, its `info` holds the four info keys and `data_status`
      has a length, which is the number of points reported. */
  lemma CheckDataValid(v: Value, n: nat)
    ensures CheckData(Some(v)) == DataValid(n) <==>
      v.Dict? && HasKey(v.entries, "info") && HasKey(v.entries, "data_status") && HasKey(v.entries, "data_detail")
      && (forall i :: 0 <= i < |InfoKeys| ==> Membership(Get(v.entries, "info").value, InfoKeys[i]) == Some(true))
      && PyLen(Get(v.entries, "data_status").value) == Some(n)
  {
    CheckKeysAll(v, RequiredKeys);
    if v.Dict? {
      var es := v.entries;
      assert RequiredKeys[0] == "info" && RequiredKeys[1] == "data_status" && RequiredKeys[2] == "data_detail";
      assert CheckKeys(v, RequiredKeys) == AllPresent <==>
        HasKey(es, "info") && HasKey(es, "data_status") && HasKey(es, "data_detail");
      if HasKey(es, "info") && HasKey(es, "data_status") && HasKey(es, "data_detail") {
        var info := Get(es, "info").value;
        assert Item(v, "info") == Some(info);
        CheckKeysAll(info, InfoKeys);
      }
    } else {
      assert Item(v, "info").None?;
    }
  }

  /** A dict holding the three required keys passes the outer loop. */
  lemma RequiredKeysPresent(es: Entries)
    requires HasKey(es, "info") && HasKey(es, "data_status") && HasKey(es, "data_detail")
    ensures CheckKeys(Dict(es), RequiredKeys) == AllPresent
  {
    forall i | 0 <= i < |RequiredKeys| ensures Membership(Dict(es), RequiredKeys[i]) == Some(true) {
      assert i == 0 || i == 1 || i == 2;
    }
    CheckKeysAll(Dict(es), RequiredKeys);
  }

  /** An info dict holding the four info keys passes the inner loop. */
  lemma InfoKeysPresent(info: Entries)
    requires HasKey(info, "Lot ID") && HasKey(info, "Recipe ID") && HasKey(info, "Tool") && HasKey(info, "Start Time")
    ensures CheckKeys(Dict(info), InfoKeys) == AllPresent
  {
    forall i | 0 <= i < |InfoKeys| ensures Membership(Dict(info), InfoKeys[i]) == Some(true) {
      assert i == 0 || i == 1 || i == 2 || i == 3;
    }
    CheckKeysAll(Dict(info), InfoKeys);
  }

  /** The four steps of the check, each succeeding, give a valid file. */
  lemma CheckDataAccepts(v: Value, info: Value, n: nat)
    requires CheckKeys(v, RequiredKeys) == AllPresent && Item(v, "info") == Some(info)
    requires CheckKeys(info, InfoKeys) == AllPresent && LenOf(v, "data_status") == Some(n)
    ensures CheckData(Some(v)) == DataValid(n)
  {
  }

  /** A missing required key is the first of `info`, `data_status`,
      `data_detail` that the content lacks. */
  lemma CheckDataMissing(v: Value, k: string)
    requires CheckData(Some(v)) == MissingKey(k)
    ensures exists i :: 0 <= i < |RequiredKeys| && RequiredKeys[i] == k && Membership(v, k) == Some(false)
                        && forall j :: 0 <= j < i ==> Membership(v, RequiredKeys[j]) == Some(true)
  {
    CheckKeysFirst(v, RequiredKeys);
  }

  /** What `check_profile_file` reports. */
  datatype ProfileCheck =
    | ProfileValid(points: nat)
    | MissingAxis(key: string)
    | Inconsistent(x: nat, y: nat, z: nat)
    | UnexpectedSize(size: nat)
    | ProfileUnreadable

  function CheckProfile(data: Option<Value>): (r: ProfileCheck)
    ensures r.ProfileValid? ==> r.points == ProfilePoints
  {
    if data.None? then ProfileUnreadable
    else
      var v := data.value;
      match CheckKeys(v, Axes)
      case Raised => ProfileUnreadable
      case Missing(k) => MissingAxis(k)
      case AllPresent => Sizes(LenOf(v, "X"), LenOf(v, "Y"), LenOf(v, "Z"))
  }

  /** The verdict on the lengths of `X`, `Y` and `Z`. */
  function Sizes(x: Option<nat>, y: Option<nat>, z: Option<nat>): ProfileCheck {
    if x.None? || y.None? || z.None? then ProfileUnreadable
    else if x.value != y.value || x.value != z.value then Inconsistent(x.value, y.value, z.value)
    else if x.value != ProfilePoints then UnexpectedSize(x.value)
    else ProfileValid(x.value)
  }

  /** `check_profile_file` on the unpickled content. */
  method CheckProfileFile(data: Option<Value>) returns (valid: bool, result: ProfileCheck)
    ensures result == CheckProfile(data)
    ensures valid == result.ProfileValid?
  {
    if data.None? {
      return false, ProfileUnreadable;
    }
    var v := data.value;
    var keys := FindMissing(v, Axes);
    if keys.Raised? {
      return false, ProfileUnreadable;
    } else if keys.Missing? {
      return false, MissingAxis(keys.key);
    }
    var x := LenOf(v, "X");
    var y := LenOf(v, "Y");
    var z := LenOf(v, "Z");
    if x.None? || y.None? || z.None? {
      return false, ProfileUnreadable;
    }
    if x.value != y.value || x.value != z.value {
      return false, Inconsistent(x.value, y.value, z.value);
    }
    if x.value != ProfilePoints {
      return false, UnexpectedSize(x.value);
    }
    return true, ProfileValid(x.value);
  }

  /** A profile is valid exactly when it is a dict whose `X`, `Y` and `Z`
      all have 400 elements. */
  lemma CheckProfileValid(v: Value)
    ensures CheckProfile(Some(v)).ProfileValid? <==>
      v.Dict? && HasKey(v.entries, "X") && HasKey(v.entries, "Y") && HasKey(v.entries, "Z")
      && PyLen(Get(v.entries, "X").value) == Some(400)
      && PyLen(Get(v.entries, "Y").value) == Some(400)
      && PyLen(Get(v.entries, "Z").value) == Some(400)
  {
    if v.Dict? {
      var es := v.entries;
      AxesPresent(es);
      if HasKey(es, "X") && HasKey(es, "Y") && HasKey(es, "Z") {
        SizesOfDict(es);
      }
    } else {
      assert LenOf(v, "X").None?;
    }
  }

  /** With the three axes present, the verdict is read off their lengths. */
  lemma SizesOfDict(es: Entries)
    requires HasKey(es, "X") && HasKey(es, "Y") && HasKey(es, "Z")
    ensures CheckProfile(Some(Dict(es))) == Sizes(PyLen(Get(es, "X").value), PyLen(Get(es, "Y").value), PyLen(Get(es, "Z").value))
  {
    AxesPresent(es);
  }

  /** A dict passes the axis loop exactly when it holds `X`, `Y` and `Z`. */
  lemma AxesPresent(es: Entries)
    ensures CheckKeys(Dict(es), Axes) == AllPresent <==> HasKey(es, "X") && HasKey(es, "Y") && HasKey(es, "Z")
  {
    CheckKeysAll(Dict(es), Axes);
    if HasKey(es, "X") && HasKey(es, "Y") && HasKey(es, "Z") {
      forall i | 0 <= i < |Axes| ensures Membership(Dict(es), Axes[i]) == Some(true) {
        assert i == 0 || i == 1 || i == 2;
      }
    }
    assert CheckKeys(Dict(es), Axes) == AllPresent ==>
      Membership(Dict(es), Axes[0]) == Some(true) && Membership(Dict(es), Axes[1]) == Some(true)
      && Membership(Dict(es), Axes[2]) == Some(true);
  }

  // ---------------------------------------------------------------------
  // scan_directory, check_all, sample_files
  // ---------------------------------------------------------------------

  /** The parts of a `file_info` the model keeps. */
  datatype FileInfo = FileInfo(name: string, valid: bool, parsed: Option<NameParts>)

  function Listing(dir: Option<seq<string>>): seq<string> {
    if dir.None? then [] else dir.value
  }

  /** The `file_info` of one listed name. */
  function Info(name: string, check: string -> bool): FileInfo {
    FileInfo(name, check(name), ParseFilename(name))
  }

  function Infos(names: seq<string>, check: string -> bool): (r: seq<FileInfo>)
    ensures |r| == |names|
  {
    if names == [] then [] else Infos(names[..|names| - 1], check) + [Info(names[|names| - 1], check)]
  }

  /** Each listed name is reported once, in listing order, with its check
      outcome and its parse. */
  lemma {:induction false} InfosMeaning(names: seq<string>, check: string -> bool, i: nat)
    requires i < |names|
    ensures Infos(names, check)[i] == FileInfo(names[i], check(names[i]), ParseFilename(names[i]))
  {
    if i < |names| - 1 {
      InfosMeaning(names[..|names| - 1], check, i);
    }
  }

  predicate Failed(f: FileInfo) { !f.valid }
  predicate Passed(f: FileInfo) { f.valid }

  function DateOf(p: NameParts): string { p.date }
  function RecipeOf(p: NameParts): string { p.recipe }
  function LotIdOf(p: NameParts): string { p.lotId }

  /** The non-empty values of one name field, one per parsed name, in
      scanning order: what the loop counts. */
  function Present(names: seq<string>, field: NameParts -> string): seq<string> {
    if names == [] then []
    else Present(names[..|names| - 1], field) + Counted(names[|names| - 1], field)
  }

  function Counted(name: string, field: NameParts -> string): seq<string> {
    Values(ParseFilename(name), field)
  }

  /** The field of a parse, unless there is none or it is empty. */
  function Values(parsed: Option<NameParts>, field: NameParts -> string): seq<string> {
    match parsed
    case None => []
    case Some(p) => if field(p) != "" then [field(p)] else []
  }

  /** A name that parses with value `k` in the field. */
  function HasField(field: NameParts -> string, k: string): string -> bool {
    name => ParseFilename(name).Some? && field(ParseFilename(name).value) == k
  }

  /** The empty value is never counted; any other value is counted once per
      name that parses with it. */
  lemma {:induction false} PresentMeaning(names: seq<string>, field: NameParts -> string, k: string)
    ensures multiset(Present(names, field))[k] == if k == "" then 0 else |Filter(names, HasField(field, k))|
  {
    if names != [] {
      var n := |names| - 1;
      PresentMeaning(names[..n], field, k);
      FilterSnoc(names, n, HasField(field, k));
      assert names[..n + 1] == names;
      CountedMeaning(names[n], field, k);
    }
  }

  lemma CountedMeaning(name: string, field: NameParts -> string, k: string)
    ensures multiset(Counted(name, field))[k] == if k != "" && HasField(field, k)(name) then 1 else 0
  {
  }

  /** After a scan each counter has grown by the number of parsed names
      carrying that non-empty value, and by nothing for the empty value. */
  lemma CountersMeaning(c: Counts, names: seq<string>, field: NameParts -> string, k: string)
    ensures CountIn(TallyOf(c, Present(names, field)), k)
      == CountIn(c, k) + if k == "" then 0 else |Filter(names, HasField(field, k))|
  {
    TallyOfMeaning(c, Present(names, field), k);
    PresentMeaning(names, field, k);
  }

  lemma {:induction false} FilterComplement<T>(s: seq<T>, p: T -> bool, q: T -> bool)
    requires forall x :: q(x) == !p(x)
    ensures |Filter(s, p)| + |Filter(s, q)| == |s|
  {
    if s != [] {
      FilterComplement(s[1..], p, q);
    }
  }

  /** Every scanned file is either valid or listed as an error. */
  lemma ValidPlusErrors(files: seq<FileInfo>)
    ensures |Filter(files, Passed)| + |Filter(files, Failed)| == |files|
  {
    FilterComplement(files, Passed, Failed);
  }

  class AFMFileChecker {
    var dates: Counts
    var recipes: Counts
    var lots: Counts
    var dataTotal: nat
    var dataValid: nat
    var dataErrors: seq<FileInfo>
    var profileTotal: nat
    var profileValid: nat
    var profileErrors: seq<FileInfo>

    constructor()
      ensures dates == [] && recipes == [] && lots == []
      ensures dataTotal == 0 && dataValid == 0 && dataErrors == []
      ensures profileTotal == 0 && profileValid == 0 && profileErrors == []
    {
      dates, recipes, lots := [], [], [];
      dataTotal, dataValid, dataErrors := 0, 0, [];
      profileTotal, profileValid, profileErrors := 0, 0, [];
    }

    /** `scan_directory`: every listed file is reported; the invalid ones
        are also errors; the counters take the name fields of every file
        that parses. A missing directory changes nothing. */
    method ScanDirectory(dir: Option<seq<string>>, check: string -> bool) returns (files: seq<FileInfo>, errors: seq<FileInfo>)
      modifies this
      ensures files == Infos(Listing(dir), check)
      ensures errors == Filter(files, Failed)
      ensures dates == TallyOf(old(dates), Present(Listing(dir), DateOf))
      ensures recipes == TallyOf(old(recipes), Present(Listing(dir), RecipeOf))
      ensures lots == TallyOf(old(lots), Present(Listing(dir), LotIdOf))
      ensures dataTotal == old(dataTotal) && dataValid == old(dataValid) && dataErrors == old(dataErrors)
      ensures profileTotal == old(profileTotal) && profileValid == old(profileValid) && profileErrors == old(profileErrors)
    {
      files, errors := [], [];
      if dir.None? {
        return;
      }
      files, errors, dates, recipes, lots := Scan(dir.value, check, dates, recipes, lots);
    }

    /** The bookkeeping of `check_all`: the data directory is scanned, then
        the profile directory, each with its own check, and each one's
        total, valid count and errors are recorded. */
    method CheckAll(dataDir: Option<seq<string>>, dataCheck: string -> bool, profileDir: Option<seq<string>>, profileCheck: string -> bool)
      modifies this
      ensures dataTotal == |Listing(dataDir)|
      ensures dataErrors == Filter(Infos(Listing(dataDir), dataCheck), Failed)
      ensures dataValid == |Filter(Infos(Listing(dataDir), dataCheck), Passed)|
      ensures profileTotal == |Listing(profileDir)|
      ensures profileErrors == Filter(Infos(Listing(profileDir), profileCheck), Failed)
      ensures profileValid == |Filter(Infos(Listing(profileDir), profileCheck), Passed)|
      ensures dataValid + |dataErrors| == dataTotal && profileValid + |profileErrors| == profileTotal
      ensures dates == TallyOf(TallyOf(old(dates), Present(Listing(dataDir), DateOf)), Present(Listing(profileDir), DateOf))
      ensures recipes == TallyOf(TallyOf(old(recipes), Present(Listing(dataDir), RecipeOf)), Present(Listing(profileDir), RecipeOf))
      ensures lots == TallyOf(TallyOf(old(lots), Present(Listing(dataDir), LotIdOf)), Present(Listing(profileDir), LotIdOf))
    {
      var dataFiles, dataErrs := ScanDirectory(dataDir, dataCheck);
      dataTotal := |dataFiles|;
      dataValid := |Filter(dataFiles, Passed)|;
      dataErrors := dataErrs;
      ValidPlusErrors(dataFiles);
      var profileFiles, profileErrs := ScanDirectory(profileDir, profileCheck);
      profileTotal := |profileFiles|;
      profileValid := |Filter(profileFiles, Passed)|;
      profileErrors := profileErrs;
      ValidPlusErrors(profileFiles);
    }
  }

  /** The loop of `scan_directory` over the listed names, counting into
      the date, recipe and lot counters it is given. */
  method Scan(names: seq<string>, check: string -> bool, dates0: Counts, recipes0: Counts, lots0: Counts)
    returns (files: seq<FileInfo>, errors: seq<FileInfo>, dates: Counts, recipes: Counts, lots: Counts)
    ensures files == Infos(names, check)
    ensures errors == Filter(files, Failed)
    ensures dates == TallyOf(dates0, Present(names, DateOf))
    ensures recipes == TallyOf(recipes0, Present(names, RecipeOf))
    ensures lots == TallyOf(lots0, Present(names, LotIdOf))
  {
    files, errors := [], [];
    dates, recipes, lots := dates0, recipes0, lots0;
    for i := 0 to |names|
      invariant files == Infos(names[..i], check)
      invariant errors == Filter(files, Failed)
      invariant dates == TallyOf(dates0, Present(names[..i], DateOf))
      invariant recipes == TallyOf(recipes0, Present(names[..i], RecipeOf))
      invariant lots == TallyOf(lots0, Present(names[..i], LotIdOf))
    {
      var info := Info(names[i], check);
      InfoStep(names, i, check);
      FilterAppend(files, [info], Failed);
      files := files + [info];
      if !info.valid {
        errors := errors + [info];
      }
      CountStep(dates0, names, i, DateOf);
      CountStep(recipes0, names, i, RecipeOf);
      CountStep(lots0, names, i, LotIdOf);
      dates, recipes, lots := CountParsed(info.parsed, dates, recipes, lots);
    }
    assert names[..|names|] == names;
  }

  /** One more name adds its `file_info`, which is an error exactly when
      it is invalid. */
  lemma InfoStep(names: seq<string>, i: nat, check: string -> bool)
    requires i < |names|
    ensures Infos(names[..i + 1], check) == Infos(names[..i], check) + [Info(names[i], check)]
    ensures Filter([Info(names[i], check)], Failed) == if Info(names[i], check).valid then [] else [Info(names[i], check)]
  {
    assert names[..i + 1][..i] == names[..i];
    assert [Info(names[i], check)][1..] == [];
  }

  /** One more name adds the values it contributes to a counter. */
  lemma CountStep(c: Counts, names: seq<string>, i: nat, field: NameParts -> string)
    requires i < |names|
    ensures TallyOf(c, Present(names[..i + 1], field))
      == TallyOf(TallyOf(c, Present(names[..i], field)), Values(ParseFilename(names[i]), field))
  {
    assert names[..i + 1][..i] == names[..i];
    TallyOfAppend(c, Present(names[..i], field), Counted(names[i], field));
  }

  /** The statistics update of `scan_directory` for one parsed name: each
      counter takes the name's value for it when that value is not empty. */
  method CountParsed(parsed: Option<NameParts>, dates0: Counts, recipes0: Counts, lots0: Counts)
    returns (dates: Counts, recipes: Counts, lots: Counts)
    ensures dates == TallyOf(dates0, Values(parsed, DateOf))
    ensures recipes == TallyOf(recipes0, Values(parsed, RecipeOf))
    ensures lots == TallyOf(lots0, Values(parsed, LotIdOf))
  {
    dates, recipes, lots := dates0, recipes0, lots0;
    if parsed.Some? {
      var p := parsed.value;
      if p.date != "" {
        dates := Bump(dates, p.date);
        assert [p.date][..0] == [];
      }
      if p.recipe != "" {
        recipes := Bump(recipes, p.recipe);
        assert [p.recipe][..0] == [];
      }
      if p.lotId != "" {
        lots := Bump(lots, p.lotId);
        assert [p.lotId][..0] == [];
      }
    }
  }

  lemma {:induction false} TallyOfAppend(c: Counts, xs: seq<string>, ys: seq<string>)
    ensures TallyOf(c, xs + ys) == TallyOf(TallyOf(c, xs), ys)
  {
    if ys == [] {
      assert xs + ys == xs;
    } else {
      TallyOfAppend(c, xs, ys[..|ys| - 1]);
      assert (xs + ys)[..|xs + ys| - 1] == xs + ys[..|ys| - 1];
    }
  }

  /** `sample_files`: `drawn` is what `random.sample(files, size)` returns;
      `None` stands for the ValueError of a negative size. */
  function SampleFiles<T>(files: seq<T>, size: int, drawn: seq<T>): (r: Option<seq<T>>)
    ensures |files| <= size ==> r == Some(files)
  {
    if |files| <= size then Some(files) else if size < 0 then None else Some(drawn)
  }

  // ---------------------------------------------------------------------
  // check_file_correlation
  // ---------------------------------------------------------------------

  /** `Path(name).stem` for a name that `glob('*.pkl')` returns. */
  function Stem(name: string): string {
    if |name| > 4 && IsSuffix(".pkl", name) then name[..|name| - 4] else name
  }

  /** The profile file of point `i` of the data file with stem `stem`. */
  function ProfileName(stem: string, i: int): string {
    stem + "_" + Pad4(i) + "_Height.pkl"
  }

  /** Different points have different profile names. */
  lemma ProfileNamesDistinct(stem: string, i: int, j: int)
    requires i != j
    ensures ProfileName(stem, i) != ProfileName(stem, j)
  {
    if ProfileName(stem, i) == ProfileName(stem, j) {
      var a, b := stem + "_" + Pad4(i), stem + "_" + Pad4(j);
      assert a == ProfileName(stem, i)[..|a|] && b == ProfileName(stem, j)[..|b|];
      assert |a| == |b|;
      assert Pad4(i) == a[|stem| + 1..] && Pad4(j) == b[|stem| + 1..];
      PyIntPad4(i);
      PyIntPad4(j);
      assert false;
    }
  }

  /** The point numbers 1..n. */
  function Points(n: nat): (r: seq<nat>)
    ensures |r| == n
    ensures forall k :: 0 <= k < n ==> r[k] == k + 1
  {
    seq(n, k requires 0 <= k < n => k + 1)
  }

  function HasProfile(stem: string, profiles: set<string>): nat -> bool {
    i => ProfileName(stem, i) in profiles
  }

  function LacksProfile(stem: string, profiles: set<string>): nat -> bool {
    i => ProfileName(stem, i) !in profiles
  }

  /** What the correlation check finds for one data file. */
  datatype Correlation = Unreadable | Checked(points: nat, found: seq<nat>, missing: seq<nat>)

  function Correlate(stem: string, data: Option<Value>, profiles: set<string>): Correlation {
    if data.None? then Unreadable
    else
      match LenOf(data.value, "data_status")
      case None => Unreadable
      case Some(n) => Checked(n, Filter(Points(n), HasProfile(stem, profiles)), Filter(Points(n), LacksProfile(stem, profiles)))
  }

  /** Every point from 1 to n is found or missing and not both, the found
      ones having their profile file and the missing ones not. */
  lemma CorrelateMeaning(stem: string, data: Option<Value>, profiles: set<string>)
    requires Correlate(stem, data, profiles).Checked?
    ensures var c := Correlate(stem, data, profiles);
      |c.found| + |c.missing| == c.points
      && (forall i :: 0 <= i < |c.found| ==> 1 <= c.found[i] <= c.points && ProfileName(stem, c.found[i]) in profiles)
      && (forall i :: 0 <= i < |c.missing| ==> 1 <= c.missing[i] <= c.points && ProfileName(stem, c.missing[i]) !in profiles)
      && (forall i :: 1 <= i <= c.points ==> i in c.found || i in c.missing)
  {
    var c := Correlate(stem, data, profiles);
    PartitionPoints(c.points, HasProfile(stem, profiles), LacksProfile(stem, profiles));
  }

  /** Splitting the points 1..n by a test and its negation loses none. */
  lemma PartitionPoints(n: nat, p: nat -> bool, q: nat -> bool)
    requires forall x :: q(x) == !p(x)
    ensures |Filter(Points(n), p)| + |Filter(Points(n), q)| == n
    ensures forall i :: 0 <= i < |Filter(Points(n), p)| ==> 1 <= Filter(Points(n), p)[i] <= n && p(Filter(Points(n), p)[i])
    ensures forall i :: 0 <= i < |Filter(Points(n), q)| ==> 1 <= Filter(Points(n), q)[i] <= n && q(Filter(Points(n), q)[i])
    ensures forall i :: 1 <= i <= n ==> i in Filter(Points(n), p) || i in Filter(Points(n), q)
  {
    var pts := Points(n);
    FilterComplement(pts, p, q);
    forall x | x in pts ensures 1 <= x <= n {
      var k :| 0 <= k < n && pts[k] == x;
    }
    forall i | 1 <= i <= n ensures i in Filter(pts, p) || i in Filter(pts, q) {
      assert pts[i - 1] == i;
    }
  }

  /** The per-file step of `check_file_correlation`. */
  method CorrelateFile(stem: string, data: Option<Value>, profiles: set<string>) returns (r: Correlation)
    ensures r == Correlate(stem, data, profiles)
  {
    if data.None? {
      return Unreadable;
    }
    var count := LenOf(data.value, "data_status");
    if count.None? {
      return Unreadable;
    }
    var n := count.value;
    var found, missing := [], [];
    for k := 0 to n
      invariant found == Filter(Points(n)[..k], HasProfile(stem, profiles))
      invariant missing == Filter(Points(n)[..k], LacksProfile(stem, profiles))
    {
      var i := k + 1;
      FilterSnoc(Points(n), k, HasProfile(stem, profiles));
      FilterSnoc(Points(n), k, LacksProfile(stem, profiles));
      if ProfileName(stem, i) in profiles {
        found := found + [i];
      } else {
        missing := missing + [i];
      }
    }
    assert Points(n)[..n] == Points(n);
    return Checked(n, found, missing);
  }

  /** The data files whose profiles `check_file_correlation` looks up:
      none when the data directory is missing, otherwise a sample of three
      (`drawn` being the random choice). */
  function Sampled(dataDir: Option<seq<string>>, drawn: seq<string>): seq<string> {
    if dataDir.None? then [] else SampleFiles(dataDir.value, 3, drawn).value
  }

  /** One report per sampled data file, in order. */
  function Reports(sampled: seq<string>, load: string -> Option<Value>, profiles: set<string>): (r: seq<Correlation>)
    ensures |r| == |sampled|
    ensures forall i :: 0 <= i < |sampled| ==> r[i] == Correlate(Stem(sampled[i]), load(sampled[i]), profiles)
  {
    if sampled == [] then []
    else
      var last := sampled[|sampled| - 1];
      Reports(sampled[..|sampled| - 1], load, profiles) + [Correlate(Stem(last), load(last), profiles)]
  }

  /** `check_file_correlation`. */
  method CheckFileCorrelation(dataDir: Option<seq<string>>, drawn: seq<string>, load: string -> Option<Value>, profiles: set<string>)
    returns (reports: seq<Correlation>)
    ensures reports == Reports(Sampled(dataDir, drawn), load, profiles)
  {
    if dataDir.None? {
      return [];
    }
    var sampled := SampleFiles(dataDir.value, 3, drawn).value;
    reports := [];
    for i := 0 to |sampled|
      invariant reports == Reports(sampled[..i], load, profiles)
    {
      var report := CorrelateFile(Stem(sampled[i]), load(sampled[i]), profiles);
      assert sampled[..i + 1][..i] == sampled[..i];
      reports := reports + [report];
    }
    assert sampled[..|sampled|] == sampled;
  }
}
