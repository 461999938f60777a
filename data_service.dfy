/** The front-end's data service: the local search over measurements that
    are already loaded, and the remapping of a measurement-detail reply into
    the keys the charts and tables expect. */
module DataService {
  import opened Common
  import opened Text
  import opened Sorting
  import opened ExportUtils

  // ---------------------------------------------------------------------
  // Local search
  // ---------------------------------------------------------------------

  /** A query of fewer than two characters after trimming (or no query at
      all) does not filter. */
  predicate ShortQuery(query: Option<string>) {
    query.None? || query.value == "" || JsTrim(query.value) == "" || |JsTrim(query.value)| < 2
  }

  /** The query as it is matched: trimmed and lower-cased. */
  function NormalizedQuery(q: string): string {
    Lower(JsTrim(q))
  }

  /** The properties a measurement is searched by, in the order they are
      joined. */
  const SearchFields: seq<string> :=
    ["lot_id", "recipe_name", "date", "formatted_date", "slot_number", "measured_info"]

  /** Each searched property as the text `join` makes of it: empty when it is
      missing or `null`. */
  function FieldTexts(row: Value, num: real -> string): (r: seq<string>)
    ensures |r| == |SearchFields|
    ensures forall i :: 0 <= i < |SearchFields| ==> r[i] == CellText(Field(row, SearchFields[i]), num)
  {
    seq(|SearchFields|, i requires 0 <= i < |SearchFields| => CellText(Field(row, SearchFields[i]), num))
  }

  /** The searchable text of a measurement: its fields joined by spaces, in
      lower case. */
  function SearchText(row: Value, num: real -> string): string {
    Lower(Join(FieldTexts(row, num), " "))
  }

  /** The filter callback for a normalized query. */
  function Matches(nq: string, num: real -> string): Value -> bool {
    (row: Value) => Contains(SearchText(row, num), nq)
  }

  /** The date a measurement is ordered by: its `formatted_date` text, or the
      empty string when it has none. */
  function DateKey(row: Value): string {
    match Field(row, "formatted_date")
    case Some(Str(s)) => s
    case _ => ""
  }

  /** Latest first. */
  function NewestFirst(): (Value, Value) -> bool {
    DescByStr(DateKey)
  }

  /** `filterMeasurementsLocally(allData, query)`. A missing data list, or a
      `null` measurement that a property read or the comparator reaches,
      raises inside the `try`, and the `catch` returns the empty list. */
  function FilterMeasurementsLocally(allData: Option<seq<Value>>, query: Option<string>, num: real -> string): (r: seq<Value>)
    ensures allData.None? ==> r == []
    ensures allData.Some? && Null in allData.value && (|allData.value| >= 2 || !ShortQuery(query)) ==> r == []
    ensures allData.Some? ==> |r| <= |allData.value|
    ensures allData.Some? && ShortQuery(query) && Null !in allData.value ==> |r| == |allData.value|
  {
    if allData.None? then []
    else
      var data := allData.value;
      if ShortQuery(query) then
        if |data| >= 2 && Null in data then [] else Sort(data, NewestFirst())
      else if Null in data then []
      else Sort(Filter(data, Matches(NormalizedQuery(query.value), num)), NewestFirst())
  }

  /** Without a usable query every measurement comes back, latest first, and
      measurements of the same date keep their order. */
  lemma ShortQueryReturnsAll(data: seq<Value>, query: Option<string>, num: real -> string)
    requires ShortQuery(query)
    requires |data| < 2 || Null !in data
    ensures var r := FilterMeasurementsLocally(Some(data), query, num);
      multiset(r) == multiset(data) && Sorted(r, NewestFirst())
      && forall e :: Ties(r, NewestFirst(), e) == Ties(data, NewestFirst(), e)
  {
    DescByStrPreorder(DateKey);
    SortPermutes(data, NewestFirst());
    SortSorted(data, NewestFirst());
    forall e ensures Ties(Sort(data, NewestFirst()), NewestFirst(), e) == Ties(data, NewestFirst(), e) {
      SortStable(data, NewestFirst(), e);
    }
  }

  /** With a query the result is exactly the matching measurements, each as
      often as it was loaded, latest first and stable among equal dates. */
  lemma QueryReturnsMatches(data: seq<Value>, q: string, num: real -> string)
    requires !ShortQuery(Some(q))
    requires Null !in data
    ensures var r := FilterMeasurementsLocally(Some(data), Some(q), num);
      var hits := Filter(data, Matches(NormalizedQuery(q), num));
      multiset(r) == multiset(hits) && Sorted(r, NewestFirst())
      && (forall m :: m in r <==> m in data && Contains(SearchText(m, num), NormalizedQuery(q)))
      && forall e :: Ties(r, NewestFirst(), e) == Ties(hits, NewestFirst(), e)
  {
    var hits := Filter(data, Matches(NormalizedQuery(q), num));
    var r := Sort(hits, NewestFirst());
    DescByStrPreorder(DateKey);
    SortPermutes(hits, NewestFirst());
    SortSorted(hits, NewestFirst());
    forall e ensures Ties(r, NewestFirst(), e) == Ties(hits, NewestFirst(), e) {
      SortStable(hits, NewestFirst(), e);
    }
    forall m ensures m in r <==> m in data && Contains(SearchText(m, num), NormalizedQuery(q)) {
      assert m in r <==> m in multiset(hits);
      if m in data && Matches(NormalizedQuery(q), num)(m) {
        var i :| 0 <= i < |data| && data[i] == m;
      }
    }
  }

  /** Lower-casing never turns a character into white space or back. */
  lemma LowerKeepsSpace(c: char)
    ensures IsJsSpace(LowerChar(c)) == IsJsSpace(c)
  {
  }

  /** Normalizing twice is normalizing once: a trimmed, lower-cased query is
      already trimmed. */
  lemma {:induction false} NormalizedIdempotent(q: string)
    ensures NormalizedQuery(NormalizedQuery(q)) == NormalizedQuery(q)
    ensures |NormalizedQuery(q)| == |JsTrim(q)|
  {
    var t := JsTrim(q);
    var u := TrimStart(q, IsJsSpace);
    var l := Lower(t);
    if t != [] {
      assert t[0] == u[0];
      LowerKeepsSpace(t[0]);
      LowerKeepsSpace(t[|t| - 1]);
    }
    TrimNoSpace(l, IsJsSpace);
    LowerIdempotent(t);
  }

  /** Searching with the normalized query gives what the raw query gives. */
  lemma NormalizedSearch(data: seq<Value>, q: string, num: real -> string)
    requires !ShortQuery(Some(q))
    ensures !ShortQuery(Some(NormalizedQuery(q)))
    ensures FilterMeasurementsLocally(Some(data), Some(NormalizedQuery(q)), num)
         == FilterMeasurementsLocally(Some(data), Some(q), num)
  {
    NormalizedIdempotent(q);
    NormalizedIdempotent(NormalizedQuery(q));
  }

  /** A query that occurs in one searched field, ignoring case, matches. */
  lemma {:induction false} FieldMatches(row: Value, num: real -> string, i: nat, nq: string)
    requires i < |SearchFields|
    requires Contains(Lower(CellText(Field(row, SearchFields[i]), num)), nq)
    ensures Matches(nq, num)(row)
  {
    var parts := FieldTexts(row, num);
    LowerJoin(parts, " ");
    JoinContainsPart(LowerAll(parts), " ", i, nq);
  }

  /** A query without spaces matches exactly when it occurs in one of the
      searched fields, ignoring case; a query with spaces may also match
      across two neighbouring fields. */
  lemma {:induction false} WordMatchesField(row: Value, num: real -> string, nq: string)
    requires nq != [] && ' ' !in nq
    ensures Matches(nq, num)(row)
      <==> exists i :: 0 <= i < |SearchFields| && Contains(Lower(CellText(Field(row, SearchFields[i]), num)), nq)
  {
    var parts := FieldTexts(row, num);
    LowerJoin(parts, " ");
    var lowered := LowerAll(parts);
    if Matches(nq, num)(row) {
      ContainsJoin(lowered, ' ', nq);
      var i :| 0 <= i < |lowered| && Contains(lowered[i], nq);
      assert lowered[i] == Lower(CellText(Field(row, SearchFields[i]), num));
    }
    if exists i :: 0 <= i < |SearchFields| && Contains(Lower(CellText(Field(row, SearchFields[i]), num)), nq) {
      var i :| 0 <= i < |SearchFields| && Contains(Lower(CellText(Field(row, SearchFields[i]), num)), nq);
      FieldMatches(row, num, i, nq);
    }
  }

  function LowerAll(parts: seq<string>): (r: seq<string>)
    ensures |r| == |parts|
    ensures forall i :: 0 <= i < |parts| ==> r[i] == Lower(parts[i])
  {
    seq(|parts|, i requires 0 <= i < |parts| => Lower(parts[i]))
  }

  /** Lower-casing a joined text lower-cases each part; a space stays a
      space. */
  lemma {:induction false} LowerJoin(parts: seq<string>, sep: string)
    requires Lower(sep) == sep
    ensures Lower(Join(parts, sep)) == Join(LowerAll(parts), sep)
  {
    if |parts| > 1 {
      LowerJoin(parts[1..], sep);
      assert LowerAll(parts)[1..] == LowerAll(parts[1..]);
      LowerConcat(parts[0] + sep, Join(parts[1..], sep));
      LowerConcat(parts[0], sep);
    }
  }

  /** Every part of a joined text occurs in it. */
  lemma {:induction false} JoinContainsPart(parts: seq<string>, sep: string, i: nat, pat: string)
    requires i < |parts| && Contains(parts[i], pat)
    ensures Contains(Join(parts, sep), pat)
  {
    if |parts| > 1 {
      if i == 0 {
        ContainsLeft(parts[0] + sep, Join(parts[1..], sep), pat) by {
          ContainsLeft(parts[0], sep, pat);
        }
      } else {
        assert parts[1..][i - 1] == parts[i];
        JoinContainsPart(parts[1..], sep, i - 1, pat);
        ContainsRight(parts[0] + sep, Join(parts[1..], sep), pat);
      }
    }
  }

  // ---------------------------------------------------------------------
  // Measurement detail
  // ---------------------------------------------------------------------

  /** What the detail request gives back: the reply object, or the rejection
      with its message. */
  datatype Response = Returned(body: Entries) | Threw(message: string)

  /** `{success, data, error}`; `error` is `None` where the object has no
      such property or it is `undefined`. */
  datatype Loaded = Loaded(success: bool, data: Value, error: Option<Value>)

  /** A property read that finds nothing yields `undefined`; the model writes
      it as `null`. */
  function OrNull(v: Option<Value>): Value {
    if v.Some? then v.value else Null
  }

  /** The renamed keys next to the original ones. */
  const RemappedKeys: seq<string> := ["info", "summaryData", "profileData", "information", "summary", "data"]

  /** The values the object literal writes under `RemappedKeys`. */
  function RemappedValues(d: Value): (r: seq<Value>)
    ensures |r| == |RemappedKeys|
  {
    var info := OrNull(Field(d, "information"));
    var summary := OrNull(Field(d, "summary"));
    var profile := OrNull(Field(d, "data"));
    [info, summary, profile, info, summary, profile]
  }

  /** The object literal that spreads the reply data and then writes `info`,
      `summaryData`, `profileData`, `information`, `summary` and `data`. */
  function Transformed(d: Value): Entries {
    SetAll(if d.Dict? then d.entries else [], Zip(RemappedKeys, RemappedValues(d)))
  }

  /** Properties written one after another, as an object literal does. */
  function SetAll(d: Entries, kvs: seq<(string, Value)>): Entries
    decreases |kvs|
  {
    if kvs == [] then d else SetAll(Set(d, kvs[0].0, kvs[0].1), kvs[1..])
  }

  /** The value the last of `kvs` to write `k` gives it. */
  function Assigned(kvs: seq<(string, Value)>, k: string): (r: Option<Value>)
    ensures r.Some? <==> k in Keys(kvs)
    decreases |kvs|
  {
    if kvs == [] then None
    else
      assert Keys(kvs) == [kvs[0].0] + Keys(kvs[1..]);
      var later := Assigned(kvs[1..], k);
      if later.Some? then later else if kvs[0].0 == k then Some(kvs[0].1) else None
  }

  /** One assignment, with all that the later steps need about it. */
  lemma SetStep(d: Entries, k: string, v: Value)
    ensures Get(Set(d, k, v), k) == Some(v)
    ensures forall k' :: k' != k ==> Get(Set(d, k, v), k') == Get(d, k')
    ensures Keys(d) <= Keys(Set(d, k, v))
    ensures forall k' :: HasKey(Set(d, k, v), k') <==> k' == k || HasKey(d, k')
    ensures UniqueKeys(d) ==> UniqueKeys(Set(d, k, v))
  {
    GetSetSame(d, k, v);
    forall k' | k' != k ensures Get(Set(d, k, v), k') == Get(d, k') {
      GetSetOther(d, k, v, k');
    }
    KeysSet(d, k, v);
    if UniqueKeys(d) {
      SetKeepsUniqueKeys(d, k, v);
    }
  }

  /** A run of assignments: an assigned key holds its last value, every other
      key keeps its own. */
  lemma {:induction false} SetAllGet(d: Entries, kvs: seq<(string, Value)>, k: string)
    ensures Get(SetAll(d, kvs), k) == if k in Keys(kvs) then Assigned(kvs, k) else Get(d, k)
    decreases |kvs|
  {
    if kvs != [] {
      SetStep(d, kvs[0].0, kvs[0].1);
      SetAllGet(Set(d, kvs[0].0, kvs[0].1), kvs[1..], k);
      assert Keys(kvs) == [kvs[0].0] + Keys(kvs[1..]);
    }
  }

  /** The keys after a run of assignments: the old ones first and in order,
      then the new ones, none twice. */
  lemma {:induction false} SetAllKeys(d: Entries, kvs: seq<(string, Value)>)
    ensures forall k :: HasKey(SetAll(d, kvs), k) <==> k in Keys(kvs) || HasKey(d, k)
    ensures Keys(d) <= Keys(SetAll(d, kvs))
    ensures UniqueKeys(d) ==> UniqueKeys(SetAll(d, kvs))
    decreases |kvs|
  {
    if kvs != [] {
      SetStep(d, kvs[0].0, kvs[0].1);
      SetAllKeys(Set(d, kvs[0].0, kvs[0].1), kvs[1..]);
      assert Keys(kvs) == [kvs[0].0] + Keys(kvs[1..]);
    }
  }

  /** Six distinct properties written in turn: each holds its value, every
      other key keeps its own, the old keys stay first and in order, and no
      key is duplicated. */
  lemma SixAssignments(base: Entries, ks: seq<string>, vs: seq<Value>)
    requires |ks| == |vs| == 6 && NoDuplicates(ks)
    ensures var t := SetAll(base, Zip(ks, vs));
      (forall i :: 0 <= i < 6 ==> Get(t, ks[i]) == Some(vs[i]))
      && (forall k :: k !in ks ==> Get(t, k) == Get(base, k))
      && (forall k :: HasKey(t, k) <==> k in ks || HasKey(base, k))
      && Keys(base) <= Keys(t)
      && (UniqueKeys(base) ==> UniqueKeys(t))
  {
    var kvs := Zip(ks, vs);
    var t := SetAll(base, kvs);
    SetAllKeys(base, kvs);
    assert Keys(kvs) == ks;
    forall i | 0 <= i < 6 ensures Get(t, ks[i]) == Some(vs[i]) {
      SetAllGet(base, kvs, ks[i]);
      AssignedDistinct(kvs, i);
    }
    forall k | k !in ks ensures Get(t, k) == Get(base, k) {
      SetAllGet(base, kvs, k);
    }
  }

  /** With distinct keys, a key's value is the one written with it. */
  lemma {:induction false} AssignedDistinct(kvs: seq<(string, Value)>, i: nat)
    requires i < |kvs| && NoDuplicates(Keys(kvs))
    ensures Assigned(kvs, kvs[i].0) == Some(kvs[i].1)
    decreases |kvs|
  {
    assert Keys(kvs) == [kvs[0].0] + Keys(kvs[1..]);
    if i > 0 {
      assert Keys(kvs[1..])[i - 1] == Keys(kvs)[i];
      AssignedDistinct(kvs[1..], i - 1);
    } else {
      forall j | 0 <= j < |kvs| - 1 ensures Keys(kvs[1..])[j] != kvs[0].0 {
        assert Keys(kvs[1..])[j] == Keys(kvs)[j + 1];
      }
    }
  }

  lemma RemappedKeysDistinct()
    ensures NoDuplicates(RemappedKeys)
  {
  }

  /** The new keys hold the reply's `information`, `summary` and `data`;
      a read that finds nothing gives `null`. */
  lemma {:induction false} TransformedRenames(d: Value)
    ensures var t := Transformed(d);
      Get(t, "info") == Get(t, "information") == Some(OrNull(Field(d, "information")))
      && Get(t, "summaryData") == Get(t, "summary") == Some(OrNull(Field(d, "summary")))
      && Get(t, "profileData") == Get(t, "data") == Some(OrNull(Field(d, "data")))
  {
    var base := if d.Dict? then d.entries else [];
    var vs := RemappedValues(d);
    RemappedKeysDistinct();
    SixAssignments(base, RemappedKeys, vs);
    assert RemappedKeys[0] == "info" && RemappedKeys[3] == "information";
    assert RemappedKeys[1] == "summaryData" && RemappedKeys[4] == "summary";
    assert RemappedKeys[2] == "profileData" && RemappedKeys[5] == "data";
  }

  /** Every other property of the reply data is kept, the reply's keys stay
      first and in order, and no key is duplicated. */
  lemma {:induction false} TransformedKeeps(d: Value)
    ensures var t := Transformed(d);
      (forall k :: k !in RemappedKeys ==> Get(t, k) == Field(d, k))
      && (forall k :: HasKey(t, k) <==> k in RemappedKeys || Field(d, k).Some?)
      && (d.Dict? ==> Keys(d.entries) <= Keys(t))
      && (d.Dict? && UniqueKeys(d.entries) ==> UniqueKeys(t))
  {
    var base := if d.Dict? then d.entries else [];
    RemappedKeysDistinct();
    SixAssignments(base, RemappedKeys, RemappedValues(d));
    forall k ensures Get(base, k) == Field(d, k) && (HasKey(base, k) <==> Field(d, k).Some?) {
    }
  }

  /** `fetchMeasurementData`: a reply whose `success` and `data` are both
      truthy becomes `{success: true, data: transformed}`; any other reply is
      a failure carrying the reply's `error` and `null` data; a rejection is
      a failure carrying its message. */
  function FetchMeasurementData(response: Response): (r: Loaded)
    ensures r.success ==> response.Returned? && r.data.Dict? && r.error.None?
    ensures !r.success ==> r.data == Null
    ensures !r.success ==> r.error == if response.Threw? then Some(Str(response.message)) else Get(response.body, "error")
  {
    match response
    case Threw(message) => Loaded(false, Null, Some(Str(message)))
    case Returned(body) =>
      var success := Get(body, "success");
      var data := Get(body, "data");
      if success.Some? && JsTruthy(success.value) && data.Some? && JsTruthy(data.value) then
        Loaded(true, Dict(Transformed(data.value)), None)
      else
        Loaded(false, Null, Get(body, "error"))
  }

  /** The summary `fetchSummaryData` returns: `{success, data}`. */
  datatype SummaryReply = SummaryReply(success: bool, data: Value)

  /** `fetchSummaryData` on what `fetchMeasurementData` returned: the
      `summaryData` of a successful load when it is truthy, otherwise a
      failure with an empty list. */
  function FetchSummaryData(m: Loaded): (r: SummaryReply)
    ensures r.success ==> m.success && JsTruthy(r.data)
    ensures !r.success ==> r.data == List([])
  {
    var s := OrNull(Field(m.data, "summaryData"));
    if m.success && JsTruthy(s) then SummaryReply(true, s) else SummaryReply(false, List([]))
  }

  /** The two steps together: the summary succeeds exactly when the reply
      succeeded with truthy data whose `summary` is truthy, and it is then
      that `summary`. */
  lemma {:induction false} SummaryOfReply(response: Response)
    ensures var r := FetchSummaryData(FetchMeasurementData(response));
      r.success <==> (response.Returned?
        && Get(response.body, "success").Some? && JsTruthy(Get(response.body, "success").value)
        && Get(response.body, "data").Some? && JsTruthy(Get(response.body, "data").value)
        && JsTruthy(OrNull(Field(Get(response.body, "data").value, "summary"))))
    ensures var r := FetchSummaryData(FetchMeasurementData(response));
      r.success ==> r.data == OrNull(Field(Get(response.body, "data").value, "summary"))
  {
    if response.Returned? {
      var data := Get(response.body, "data");
      if data.Some? {
        TransformedRenames(data.value);
      }
    }
  }
}
