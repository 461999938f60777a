/** Response shaping of the measurement handlers in api/afm_routes.py: the
    summary, detail and available-point lists returned for a measurement
    pickle, the coercion of the `point_no` query value, and the conversion
    of a profile pickle into a list of points. The HTTP layer is not
    modelled: each handler is the function from the loaded pickle to the
    payload it answers with, or to the status it fails with. */
module AfmRoutes {
  import opened Common
  import opened Text
  import opened Sorting
  import opened DataConverter

  // ---- summary --------------------------------------------------------------

  /** A summary dict is converted row by row only when it has both `Site` and
      `ITEM` columns. */
  predicate Tabular(summary: Value) {
    summary.Dict? && HasKey(summary.entries, "Site") && HasKey(summary.entries, "ITEM")
  }

  /** Candidate row `i`: every list column that has a cell at `i`. */
  function SummaryRow(es: Entries, i: nat): Entries {
    WriteCells([], es, i)
  }

  /** The non-empty candidate rows among the first `n`, in order. */
  function SummaryRows(es: Entries, n: nat): (r: seq<Value>)
    ensures |r| <= n
    ensures forall k :: 0 <= k < |r| ==> r[k].Dict? && r[k].entries != []
  {
    if n == 0 then []
    else SummaryRows(es, n - 1) + (if SummaryRow(es, n - 1) != [] then [Dict(SummaryRow(es, n - 1))] else [])
  }

  /** The summary records: a tabular dict converted to `len(Site)` candidate
      rows with the empty ones dropped, a list passed through, anything else
      none. `None` is the TypeError of `len` on a scalar `Site`. */
  function SummaryRecords(summary: Value): Option<seq<Value>> {
    if Tabular(summary) then
      match PyLen(Get(summary.entries, "Site").value)
      case None => None
      case Some(n) => Some(SummaryRows(summary.entries, n))
    else if summary.List? then Some(summary.items)
    else Some([])
  }

  method SummaryToRecords(summary: Value) returns (r: Option<seq<Value>>)
    ensures r == SummaryRecords(summary)
  {
    if !Tabular(summary) {
      if summary.List? {
        return Some(summary.items);
      }
      return Some([]);
    }
    var numRows := PyLen(Get(summary.entries, "Site").value);
    if numRows.None? {
      return None;
    }
    var records: seq<Value> := [];
    var i := 0;
    while i < numRows.value
      invariant 0 <= i <= numRows.value
      invariant records == SummaryRows(summary.entries, i)
    {
      var record := WriteRowCells([], summary.entries, i);
      if record != [] {
        records := records + [Dict(record)];
      }
      i := i + 1;
    }
    return Some(records);
  }

  /** A column with a cell at `i` decides that key of row `i`. */
  lemma {:induction false} LastCellFound(es: Entries, j: nat, i: nat)
    requires j < |es| && Cell(es[j].1, i).Some?
    ensures LastCell(es, es[j].0, i).Some?
    decreases |es|
  {
    if j < |es| - 1 {
      if !(es[|es| - 1].0 == es[j].0 && Cell(es[|es| - 1].1, i).Some?) {
        LastCellFound(es[..|es| - 1], j, i);
      }
    }
  }

  lemma {:induction false} SummaryRowsAll(es: Entries, n: nat)
    requires forall i :: 0 <= i < n ==> SummaryRow(es, i) != []
    ensures |SummaryRows(es, n)| == n
    ensures forall i :: 0 <= i < n ==> SummaryRows(es, n)[i] == Dict(SummaryRow(es, i))
  {
    if n > 0 {
      SummaryRowsAll(es, n - 1);
    }
  }

  /** With a list-valued `Site` column no row is empty, so there are exactly
      `len(Site)` records and record `i` holds every list column's cell at
      `i`. */
  lemma TabularRowCount(summary: Value, sites: seq<Value>, i: nat, k: string)
    requires Tabular(summary) && Get(summary.entries, "Site") == Some(List(sites))
    requires i < |sites|
    ensures SummaryRecords(summary).Some? && |SummaryRecords(summary).value| == |sites|
    ensures SummaryRecords(summary).value[i] == Dict(SummaryRow(summary.entries, i))
    ensures Get(SummaryRow(summary.entries, i), k) == LastCell(summary.entries, k, i)
  {
    var es := summary.entries;
    var j := GetIndex(es, "Site");
    forall m | 0 <= m < |sites| ensures SummaryRow(es, m) != [] {
      LastCellFound(es, j, m);
      WriteCellsGet([], es, m, "Site");
    }
    SummaryRowsAll(es, |sites|);
    WriteCellsGet([], es, i, k);
  }

  // ---- detail ---------------------------------------------------------------

  /** `any(isinstance(v, list) for v in point_data.values())`. */
  predicate AnyList(es: Entries) {
    exists j :: 0 <= j < |es| && es[j].1.List?
  }

  /** The length of the longest list column (0 when there is none). */
  function MaxListLen(es: Entries): (r: nat)
    ensures forall j :: 0 <= j < |es| && es[j].1.List? ==> |es[j].1.items| <= r
    ensures !AnyList(es) ==> r == 0
    decreases |es|
  {
    if es == [] then 0
    else
      var m := MaxListLen(es[..|es| - 1]);
      var last := es[|es| - 1].1;
      assert forall j :: 0 <= j < |es| - 1 ==> es[j] == es[..|es| - 1][j];
      if last.List? && |last.items| > m then |last.items| else m
  }

  /** Some list column attains the maximum. */
  lemma {:induction false} MaxListLenAttained(es: Entries) returns (j: nat)
    requires AnyList(es)
    ensures j < |es| && es[j].1.List? && |es[j].1.items| == MaxListLen(es)
    decreases |es|
  {
    var init, last := es[..|es| - 1], es[|es| - 1].1;
    if last.List? && |last.items| >= MaxListLen(init) {
      j := |es| - 1;
    } else {
      assert AnyList(init) by {
        var k :| 0 <= k < |es| && es[k].1.List?;
        if k < |es| - 1 {
          assert init[k] == es[k];
        }
      }
      j := MaxListLenAttained(init);
      assert init[j] == es[j];
    }
  }

  /** Row `i` of the detail group `gk`. */
  function DetailRowOf(gk: string, es: Entries, i: nat): Entries {
    WriteCells([("measurement_point", Str(gk))], es, i)
  }

  function GroupRowsOf(gk: string, es: Entries, n: nat): (r: seq<Value>)
    ensures |r| == n
    ensures forall i :: 0 <= i < n ==> r[i] == Dict(DetailRowOf(gk, es, i))
  {
    if n == 0 then [] else GroupRowsOf(gk, es, n - 1) + [Dict(DetailRowOf(gk, es, n - 1))]
  }

  /** The rows of one detail group: as many as its longest list column when
      it is a dict with a list column, none otherwise. */
  function GroupRecordsOf(gk: string, v: Value): seq<Value> {
    if v.Dict? && AnyList(v.entries) then GroupRowsOf(gk, v.entries, MaxListLen(v.entries)) else []
  }

  function DetailGroups(gs: Entries): seq<Value>
    decreases |gs|
  {
    if gs == [] then []
    else DetailGroups(gs[..|gs| - 1]) + GroupRecordsOf(gs[|gs| - 1].0, gs[|gs| - 1].1)
  }

  /** The detail records: a dict of groups converted group by group, a list
      passed through, anything else none. */
  function DetailRecords(detail: Value): seq<Value> {
    if detail.Dict? then DetailGroups(detail.entries)
    else if detail.List? then detail.items
    else []
  }

  method DetailToRecords(detail: Value) returns (records: seq<Value>)
    ensures records == DetailRecords(detail)
  {
    if !detail.Dict? {
      if detail.List? {
        return detail.items;
      }
      return [];
    }
    var gs := detail.entries;
    records := [];
    var g := 0;
    while g < |gs|
      invariant 0 <= g <= |gs|
      invariant records == DetailGroups(gs[..g])
    {
      DetailGroupsPrefix(gs, g);
      var rows := GroupRecords(gs[g].0, gs[g].1);
      records := records + rows;
      g := g + 1;
    }
    assert gs[..|gs|] == gs;
  }

  lemma DetailGroupsPrefix(gs: Entries, g: nat)
    requires g < |gs|
    ensures DetailGroups(gs[..g + 1]) == DetailGroups(gs[..g]) + GroupRecordsOf(gs[g].0, gs[g].1)
  {
    assert gs[..g + 1][..g] == gs[..g];
  }

  method GroupRecords(pointKey: string, pointData: Value) returns (rows: seq<Value>)
    ensures rows == GroupRecordsOf(pointKey, pointData)
  {
    if pointData.Dict? && AnyList(pointData.entries) {
      rows := GroupRows(pointKey, pointData.entries, MaxListLen(pointData.entries));
    } else {
      rows := [];
    }
  }

  method GroupRows(gk: string, es: Entries, n: nat) returns (rows: seq<Value>)
    ensures rows == GroupRowsOf(gk, es, n)
  {
    rows := [];
    var i := 0;
    while i < n
      invariant 0 <= i <= n
      invariant rows == GroupRowsOf(gk, es, i)
    {
      var record := WriteRowCells([("measurement_point", Str(gk))], es, i);
      rows := rows + [Dict(record)];
      i := i + 1;
    }
  }

  /** A dict group with list columns emits as many rows as its LONGEST list
      column, each tagged with the group key (unless a list column of that
      name has a cell there) and holding every other list column's cell. */
  lemma GroupRowsLongest(gk: string, es: Entries, i: nat, k: string)
    requires AnyList(es) && i < MaxListLen(es)
    ensures |GroupRecordsOf(gk, Dict(es))| == MaxListLen(es)
    ensures exists j :: 0 <= j < |es| && es[j].1.List? && |es[j].1.items| == |GroupRecordsOf(gk, Dict(es))|
    ensures forall j :: 0 <= j < |es| && es[j].1.List? ==> |es[j].1.items| <= |GroupRecordsOf(gk, Dict(es))|
    ensures GroupRecordsOf(gk, Dict(es))[i] == Dict(DetailRowOf(gk, es, i))
    ensures k != "measurement_point" ==> Get(DetailRowOf(gk, es, i), k) == LastCell(es, k, i)
    ensures LastCell(es, "measurement_point", i).None? ==>
      Get(DetailRowOf(gk, es, i), "measurement_point") == Some(Str(gk))
  {
    var j := MaxListLenAttained(es);
    WriteCellsGet([("measurement_point", Str(gk))], es, i, k);
    WriteCellsGet([("measurement_point", Str(gk))], es, i, "measurement_point");
  }

  /** Groups that are not dicts, or hold no list, emit nothing. */
  lemma DetailSkips(gs: Entries, gk: string, v: Value)
    requires !(v.Dict? && AnyList(v.entries))
    ensures DetailGroups(gs + [(gk, v)]) == DetailGroups(gs)
  {
    assert (gs + [(gk, v)])[..|gs|] == gs;
    assert DetailGroups(gs) + [] == DetailGroups(gs);
  }

  // ---- available points -----------------------------------------------------

  /** What one summary record contributes to the set of sites: `None` when
      `'Site' in record` or `record.get('Site')` raises (a scalar record, or
      a list or string that holds the text `Site`) or the value cannot be
      hashed (a list or dict); `Some(None)` when the record has no `Site`;
      otherwise its `Site` value. */
  function SiteOf(record: Value): Option<Option<Value>> {
    match PyContains(record, "Site")
    case None => None
    case Some(false) => Some(None)
    case Some(true) =>
      if !record.Dict? then None
      else
        var v := Get(record.entries, "Site").value;
        if Unhashable(v) then None else Some(Some(v))
  }

  /** The `Site` values of the summary records, in record order, or `None`
      when one record raises. */
  function SiteValues(records: seq<Value>): (r: Option<seq<Value>>)
    decreases |records|
  {
    if records == [] then Some([])
    else
      var init := records[..|records| - 1];
      var last := records[|records| - 1];
      match SiteValues(init)
      case None => None
      case Some(vs) =>
        match SiteOf(last)
        case None => None
        case Some(None) => Some(vs)
        case Some(Some(v)) => Some(vs + [v])
  }

  /** `record` is a dict whose `Site` is `v`. */
  predicate HasSite(record: Value, v: Value) {
    record.Dict? && Get(record.entries, "Site") == Some(v)
  }

  /** A record that does not raise contributes its `Site` value if it is a
      dict that has one, and nothing otherwise. */
  lemma SiteOfValue(record: Value, v: Value)
    requires SiteOf(record).Some?
    ensures SiteOf(record).value == Some(v) <==> HasSite(record, v)
  {
  }

  /** Collecting the sites fails exactly when some record raises. */
  lemma {:induction false} SiteValuesRaises(records: seq<Value>)
    ensures SiteValues(records).Some? <==> forall i :: 0 <= i < |records| ==> SiteOf(records[i]).Some?
  {
    if records != [] {
      var init := records[..|records| - 1];
      assert forall i :: 0 <= i < |init| ==> init[i] == records[i];
      SiteValuesRaises(init);
    }
  }

  lemma SiteValuesSnoc(records: seq<Value>)
    requires records != [] && SiteValues(records).Some?
    ensures SiteValues(records[..|records| - 1]).Some? && SiteOf(records[|records| - 1]).Some?
    ensures var vs, c := SiteValues(records[..|records| - 1]).value, SiteOf(records[|records| - 1]).value;
      SiteValues(records).value == if c.Some? then vs + [c.value] else vs
  {
  }

  /** Every dict record's `Site` value is collected. */
  lemma {:induction false} SiteKept(records: seq<Value>, i: nat, v: Value)
    requires SiteValues(records).Some? && i < |records| && HasSite(records[i], v)
    ensures v in SiteValues(records).value
  {
    var init := records[..|records| - 1];
    SiteValuesSnoc(records);
    if i == |records| - 1 {
      SiteOfValue(records[i], v);
    } else {
      assert init[i] == records[i];
      SiteKept(init, i, v);
    }
  }

  /** Every collected value is the `Site` value of a dict record. */
  lemma {:induction false} SiteFound(records: seq<Value>, v: Value) returns (i: nat)
    requires SiteValues(records).Some? && v in SiteValues(records).value
    ensures i < |records| && HasSite(records[i], v)
  {
    var init := records[..|records| - 1];
    SiteValuesSnoc(records);
    if v in SiteValues(init).value {
      i := SiteFound(init, v);
      assert init[i] == records[i];
    } else {
      i := |records| - 1;
      SiteOfValue(records[i], v);
    }
  }

  /** The collected values are exactly the `Site` values of the dict records
      that have one. */
  lemma SiteValuesMeaning(records: seq<Value>)
    requires SiteValues(records).Some?
    ensures forall v :: v in SiteValues(records).value <==> exists i :: 0 <= i < |records| && HasSite(records[i], v)
  {
    forall v ensures v in SiteValues(records).value <==> exists i :: 0 <= i < |records| && HasSite(records[i], v) {
      if v in SiteValues(records).value {
        var i := SiteFound(records, v);
      }
      if exists i :: 0 <= i < |records| && HasSite(records[i], v) {
        var i :| 0 <= i < |records| && HasSite(records[i], v);
        SiteKept(records, i, v);
      }
    }
  }

  /** `available_points`: the sorted detail keys whenever the detail is a dict
      (even an empty one); otherwise the sorted distinct summary sites.
      `None` is a TypeError of collecting the sites or of `sorted` on
      values that cannot be compared. */
  function AvailablePoints(detail: Value, summary: seq<Value>): Option<seq<Value>> {
    if detail.Dict? then PySorted(Strs(Keys(detail.entries)))
    else if summary != [] then
      match SiteValues(summary)
      case None => None
      case Some(vs) => PySorted(Dedup(vs))
    else Some([])
  }

  /** The detail keys as string values. */
  function Strs(ks: seq<string>): (r: seq<Value>)
    ensures |r| == |ks|
    ensures forall i :: 0 <= i < |ks| ==> r[i] == Str(ks[i])
  {
    seq(|ks|, i requires 0 <= i < |ks| => Str(ks[i]))
  }

  /** The keys of a detail dict always sort: each point once per key, in
      string order. */
  lemma AvailableFromDetail(detail: Value, summary: seq<Value>)
    requires detail.Dict?
    ensures AvailablePoints(detail, summary).Some?
    ensures multiset(AvailablePoints(detail, summary).value) == multiset(Strs(Keys(detail.entries)))
    ensures forall i, j :: 0 <= i < j < |AvailablePoints(detail, summary).value| ==>
      PyLe(AvailablePoints(detail, summary).value[i], AvailablePoints(detail, summary).value[j])
  {
    var ks := Strs(Keys(detail.entries));
    forall v | v in ks ensures v.Str? {
      var i :| 0 <= i < |ks| && ks[i] == v;
    }
    PySortedMeaning(ks);
  }

  /** An empty detail dict hides the summary sites altogether. */
  lemma EmptyDetailHidesSites(summary: seq<Value>)
    ensures AvailablePoints(Dict([]), summary) == Some([])
  {
    assert Keys<Value>([]) == [];
    assert Strs([]) == [];
  }

  /** Without a detail dict the points are the distinct sites, sorted; the
      request fails when a record raises or the sites mix strings with
      numbers. */
  lemma AvailableFromSites(detail: Value, summary: seq<Value>)
    requires !detail.Dict? && summary != []
    ensures AvailablePoints(detail, summary).None? <==>
      SiteValues(summary).None? || !PySortable(Dedup(SiteValues(summary).value))
    ensures AvailablePoints(detail, summary).Some? ==>
      var r := AvailablePoints(detail, summary).value;
      NoDuplicates(r)
      && (forall i, j :: 0 <= i < j < |r| ==> PyLe(r[i], r[j]))
      && forall v :: v in r <==> v in SiteValues(summary).value
  {
    if SiteValues(summary).Some? {
      var d := Dedup(SiteValues(summary).value);
      PySortedMeaning(d);
      if PySorted(d).Some? {
        var r := PySorted(d).value;
        forall v ensures v in r <==> v in SiteValues(summary).value {
          assert v in r <==> v in multiset(d);
        }
        PermutationKeepsNoDuplicates(d, r);
      }
    }
  }

  // ---- the detail payload ---------------------------------------------------

  datatype FileDetail = FileDetail(
    information: Value,
    summary: seq<Value>,
    detail: seq<Value>,
    availablePoints: seq<Value>)

  function GetOr(d: Entries, k: string, default: Value): Value {
    if HasKey(d, k) then Get(d, k).value else default
  }

  /** The `data` of a successful `get_afm_file_detail` for a loaded pickle
      dict; `None` is the 500 response of a TypeError. */
  function AfmFileDetail(data: Entries): (r: Option<FileDetail>)
    ensures r.None? <==>
      SummaryRecords(GetOr(data, "summary", Dict([]))).None?
      || AvailablePoints(GetOr(data, "data", Dict([])), SummaryRecords(GetOr(data, "summary", Dict([]))).value).None?
    ensures r.Some? ==> Some(r.value.availablePoints) == AvailablePoints(GetOr(data, "data", Dict([])), r.value.summary)
  {
    var summary := SummaryRecords(GetOr(data, "summary", Dict([])));
    if summary.None? then None
    else
      var detail := GetOr(data, "data", Dict([]));
      match AvailablePoints(detail, summary.value)
      case None => None
      case Some(points) =>
        Some(FileDetail(GetOr(data, "info", Dict([])), summary.value, DetailRecords(detail), points))
  }

  /** A pickle without a `data` key has an empty detail dict, so it never
      lists any point. */
  lemma NoDetailNoPoints(data: Entries)
    requires !HasKey(data, "data") && AfmFileDetail(data).Some?
    ensures AfmFileDetail(data).value.detail == [] && AfmFileDetail(data).value.availablePoints == []
  {
    EmptyDetailHidesSites(AfmFileDetail(data).value.summary);
    assert DetailGroups([]) == [];
  }

  // ---- point_no -------------------------------------------------------------

  /** The `point_no` query value after coercion: absent stays None, the
      empty string (falsy) is left as it is, and anything else becomes its
      `int()` value or None. */
  function CoercePointNo(arg: Option<string>): (r: Value)
    ensures r.Null? || r.Int? || r == Str("")
    ensures r == Str("") <==> arg == Some("")
    ensures r.Int? <==> arg.Some? && arg.value != "" && PyInt(arg.value).Some?
    ensures r.Int? ==> PyInt(arg.value) == Some(r.i)
  {
    if arg.None? || arg.value == "" then (if arg.None? then Null else Str(""))
    else match PyInt(arg.value)
      case Some(n) => Int(n)
      case None => Null
  }

  /** A zero-padded point number coerces back to its value. */
  lemma CoercePadded(n: int)
    ensures CoercePointNo(Some(Pad4(n))) == Int(n)
  {
    PyIntPad4(n);
  }

  /** A site label such as `1_UL`, a digit first and a capital letter last,
      is not an integer: it becomes None. */
  lemma CoerceSiteLabel(site: string)
    requires |site| >= 2 && IsDigit(site[0]) && 'A' <= site[|site| - 1] <= 'Z'
    ensures CoercePointNo(Some(site)) == Null
  {
    PyIntRejectsLabel(site);
  }

  // ---- profile payload ------------------------------------------------------

  datatype ProfileResult = Points(points: seq<Value>) | BadRequest(error: string)

  /** Whether a key's ASCII lowercase form is `c`. */
  function LowerIs(c: string): string -> bool {
    (k: string) => Lower(k) == c
  }

  /** The last key whose ASCII lowercase form is `c`: every later key has
      another lowercase form. */
  function LastKeyLowered(keys: seq<string>, c: string): Option<string> {
    Last(keys, LowerIs(c))
  }

  /** The first `n` points zipped from the three coordinate columns. */
  function ZipXyz(xs: seq<Value>, ys: seq<Value>, zs: seq<Value>, n: nat): (r: seq<Value>)
    requires n <= |xs| && n <= |ys| && n <= |zs|
    ensures |r| == n
    ensures forall i :: 0 <= i < n ==> r[i] == Dict([("x", xs[i]), ("y", ys[i]), ("z", zs[i])])
  {
    if n == 0 then [] else ZipXyz(xs, ys, zs, n - 1) + [Dict([("x", xs[n - 1]), ("y", ys[n - 1]), ("z", zs[n - 1])])]
  }

  function Min3(a: nat, b: nat, c: nat): (r: nat)
    ensures r <= a && r <= b && r <= c
    ensures r == a || r == b || r == c
  {
    if a <= b && a <= c then a else if b <= c then b else c
  }

  /** A list under `data`, `profile` or `coordinates` (in that precedence),
      or a 400 when the value found there is not a list. */
  function ListAt(es: Entries, k: string): ProfileResult
    requires HasKey(es, k)
  {
    if Get(es, k).value.List? then Points(Get(es, k).value.items)
    else BadRequest("Failed to convert profile data to list")
  }

  datatype Columns = Columns(xs: seq<Value>, ys: seq<Value>, zs: seq<Value>)

  /** The x, y and z columns of a coordinate dict, found by the last key
      equal to `x`, `y` and `z` ignoring case (scalars become one-element
      lists); `None` when one of the keys is missing. */
  function CoordinateColumns(es: Entries): Option<Columns> {
    var xk, yk, zk := LastKeyLowered(Keys(es), "x"), LastKeyLowered(Keys(es), "y"), LastKeyLowered(Keys(es), "z");
    if xk.Some? && yk.Some? && zk.Some? then
      Some(Columns(AsList(Get(es, xk.value).value), AsList(Get(es, yk.value).value), AsList(Get(es, zk.value).value)))
    else None
  }

  /** The profile payload of `get_profile_data` for a loaded profile pickle. */
  function ProfilePayload(profile: Value): ProfileResult {
    if profile.List? then Points(profile.items)
    else if !profile.Dict? then BadRequest("Invalid profile data format")
    else
      var es := profile.entries;
      if HasKey(es, "data") then ListAt(es, "data")
      else if HasKey(es, "profile") then ListAt(es, "profile")
      else if HasKey(es, "coordinates") then ListAt(es, "coordinates")
      else CoordinatePayload(es)
  }

  /** A dict without `data`, `profile` or `coordinates` converted from its
      coordinate columns. */
  function CoordinatePayload(es: Entries): ProfileResult {
    match CoordinateColumns(es)
    case None => BadRequest("Unsupported profile data format")
    case Some(c) => Points(ZipXyz(c.xs, c.ys, c.zs, Min3(|c.xs|, |c.ys|, |c.zs|)))
  }

  method ConvertProfile(profile: Value) returns (r: ProfileResult)
    ensures r == ProfilePayload(profile)
  {
    if profile.List? {
      return Points(profile.items);
    }
    if !profile.Dict? {
      return BadRequest("Invalid profile data format");
    }
    var es := profile.entries;
    if HasKey(es, "data") {
      return ListAt(es, "data");
    } else if HasKey(es, "profile") {
      return ListAt(es, "profile");
    } else if HasKey(es, "coordinates") {
      return ListAt(es, "coordinates");
    }
    var xKey, yKey, zKey := FindCoordinateKeys(Keys(es));
    if xKey.None? || yKey.None? || zKey.None? {
      return BadRequest("Unsupported profile data format");
    }
    var xs, ys, zs := AsList(Get(es, xKey.value).value), AsList(Get(es, yKey.value).value), AsList(Get(es, zKey.value).value);
    assert CoordinateColumns(es) == Some(Columns(xs, ys, zs));
    assert ProfilePayload(profile) == CoordinatePayload(es);
    var n := Min3(|xs|, |ys|, |zs|);
    var points: seq<Value> := [];
    var i := 0;
    while i < n
      invariant 0 <= i <= n
      invariant points == ZipXyz(xs, ys, zs, i)
    {
      points := points + [Dict([("x", xs[i]), ("y", ys[i]), ("z", zs[i])])];
      i := i + 1;
    }
    return Points(points);
  }

  /** The key scan: each key whose lowercase form is `x`, `y` or `z`
      replaces the one found before it. */
  method FindCoordinateKeys(keys: seq<string>) returns (xKey: Option<string>, yKey: Option<string>, zKey: Option<string>)
    ensures xKey == LastKeyLowered(keys, "x")
    ensures yKey == LastKeyLowered(keys, "y")
    ensures zKey == LastKeyLowered(keys, "z")
  {
    xKey, yKey, zKey := None, None, None;
    var j := 0;
    while j < |keys|
      invariant 0 <= j <= |keys|
      invariant xKey == LastKeyLowered(keys[..j], "x")
      invariant yKey == LastKeyLowered(keys[..j], "y")
      invariant zKey == LastKeyLowered(keys[..j], "z")
    {
      LastStep(keys, j, LowerIs("x"));
      LastStep(keys, j, LowerIs("y"));
      LastStep(keys, j, LowerIs("z"));
      var key := keys[j];
      if Lower(key) == "x" {
        xKey := Some(key);
      } else if Lower(key) == "y" {
        yKey := Some(key);
      } else if Lower(key) == "z" {
        zKey := Some(key);
      }
      j := j + 1;
    }
    assert keys[..|keys|] == keys;
  }

  /** A coordinate dict yields as many points as its shortest column, scalar
      columns counting as one value, point `i` holding the `i`-th value of
      each; it fails with 400 exactly when one of the three keys is missing. */
  lemma CoordinatePoints(es: Entries, c: Columns, i: nat)
    requires !HasKey(es, "data") && !HasKey(es, "profile") && !HasKey(es, "coordinates")
    requires CoordinateColumns(es) == Some(c)
    ensures ProfilePayload(Dict(es)).Points?
    ensures |ProfilePayload(Dict(es)).points| == Min3(|c.xs|, |c.ys|, |c.zs|)
    ensures |c.xs| >= |ProfilePayload(Dict(es)).points| && |c.ys| >= |ProfilePayload(Dict(es)).points|
    ensures |c.zs| >= |ProfilePayload(Dict(es)).points|
    ensures i < Min3(|c.xs|, |c.ys|, |c.zs|) ==>
      ProfilePayload(Dict(es)).points[i] == Dict([("x", c.xs[i]), ("y", c.ys[i]), ("z", c.zs[i])])
  {
    assert ProfilePayload(Dict(es)) == CoordinatePayload(es);
  }

  lemma MissingCoordinate(es: Entries)
    requires !HasKey(es, "data") && !HasKey(es, "profile") && !HasKey(es, "coordinates")
    ensures ProfilePayload(Dict(es)).BadRequest? <==>
      LastKeyLowered(Keys(es), "x").None? || LastKeyLowered(Keys(es), "y").None? || LastKeyLowered(Keys(es), "z").None?
  {
    assert ProfilePayload(Dict(es)) == CoordinatePayload(es);
  }

  /** `data` takes precedence over `profile`, which takes precedence over
      `coordinates`; the rest of the dict is then ignored. */
  lemma ProfileKeyPrecedence(es: Entries, extra: Entries)
    requires HasKey(es, "data")
    ensures ProfilePayload(Dict(es + extra)) == ListAt(es, "data")
  {
    GetAppendFront(es, extra, "data");
  }
}
