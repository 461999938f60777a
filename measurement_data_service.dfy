/** `api/measurement_data_service.py`: the `AFMDataService` that serves AFM
    measurement metadata from a five-minute cache, with an AND search,
    newest-first pagination, autocomplete suggestions, lookup by id and
    summary statistics.

    A record is a dict whose searched fields are strings. The clock, the
    parquet file and the dummy generator are parameters: `now` is a time in
    microseconds, `parquet` is what `_load_from_parquet` returns and `dummy`
    is what `_generate_dummy_data` returns. */
module MeasurementDataService {
  import opened Common
  import opened Text
  import opened Sorting

  type Record = map<string, string>

  /** `record.get(k, default)`. */
  function Field(r: Record, k: string, default: string): string {
    if k in r then r[k] else default
  }

  // ---------------------------------------------------------------------
  // The cache window
  // ---------------------------------------------------------------------

  const CacheDuration: int := 300
  const MicrosPerSecond: int := 1000000
  const SecondsPerDay: int := 86400

  /** `timedelta.seconds` of a difference of `micros` microseconds: the
      seconds part of the normalised timedelta, which leaves out the whole
      days (and the microseconds). */
  function DeltaSeconds(micros: int): (r: nat)
    ensures r < SecondsPerDay
  {
    (micros / MicrosPerSecond) % SecondsPerDay
  }

  /** `(datetime.now() - self.cache_timestamp).seconds < self.cache_duration`. */
  predicate Fresh(stamp: int, now: int) {
    DeltaSeconds(now - stamp) < CacheDuration
  }

  /** Within a day of the stamp the cache lasts exactly 300 seconds; because
      `.seconds` drops whole days, it is fresh again one day later, and a
      clock that went back makes it stale. */
  lemma FreshWindow(stamp: int, now: int)
    ensures 0 <= now - stamp < CacheDuration * MicrosPerSecond ==> Fresh(stamp, now)
    ensures CacheDuration * MicrosPerSecond <= now - stamp < SecondsPerDay * MicrosPerSecond ==> !Fresh(stamp, now)
    ensures Fresh(stamp, now) <==> Fresh(stamp, now + SecondsPerDay * MicrosPerSecond)
    ensures -MicrosPerSecond <= now - stamp < 0 ==> !Fresh(stamp, now)
  {
    var d := now - stamp;
    var day := SecondsPerDay * MicrosPerSecond;
    assert (d + day) / MicrosPerSecond == d / MicrosPerSecond + SecondsPerDay;
    if -MicrosPerSecond <= d < 0 {
      assert d / MicrosPerSecond == -1;
    }
  }

  /** Whether `get_measurement_data` may answer from the cache. */
  predicate Reused(cache: Option<seq<Record>>, stamp: Option<int>, force: bool, now: int) {
    !force && cache.Some? && stamp.Some? && Fresh(stamp.value, now)
  }

  /** What `get_measurement_data` answers: the cached list, else the parquet
      records when they load, else the generated dummy records. */
  function Loaded(cache: Option<seq<Record>>, stamp: Option<int>, force: bool, now: int,
                  parquet: Option<seq<Record>>, dummy: seq<Record>): seq<Record>
  {
    if Reused(cache, stamp, force, now) then cache.value
    else if parquet.Some? then parquet.value
    else dummy
  }

  // ---------------------------------------------------------------------
  // search_measurements
  // ---------------------------------------------------------------------

  /** The nine fields joined with spaces, lowercased. */
  function SearchText(r: Record): string {
    Lower(Join([Field(r, "lot_id", ""), Field(r, "fab_id", ""), Field(r, "tool_name", ""),
                Field(r, "recipe_name", ""), Field(r, "material", ""), Field(r, "process_step", ""),
                Field(r, "measurement_id", ""), Field(r, "wafer_id", ""), Field(r, "operator", "")], " "))
  }

  /** `query.strip().lower().split()`. */
  function Terms(query: string): seq<string> {
    PyWords(Lower(PyStrip(query)))
  }

  /** `query and query.strip()`: only such a query filters. */
  predicate Filters(query: string) {
    query != "" && PyStrip(query) != ""
  }

  predicate AllTermsIn(terms: seq<string>, text: string) {
    forall i :: 0 <= i < |terms| ==> Contains(text, terms[i])
  }

  /** AND semantics: every term occurs in the record's search text. */
  function MatchesAll(terms: seq<string>): Record -> bool {
    (r: Record) => AllTermsIn(terms, SearchText(r))
  }

  function Timestamp(r: Record): string {
    Field(r, "measurement_timestamp", "")
  }

  /** `sort(key=measurement_timestamp, reverse=True)`. */
  function NewestFirst(): (Record, Record) -> bool {
    DescByStr(Timestamp)
  }

  datatype Page = Page(data: seq<Record>, total: nat, limit: int, offset: int, query: string, hasMore: bool)

  /** The records `search_measurements` considers, newest first. */
  function Hits(data: seq<Record>, query: string): seq<Record> {
    Sort(if Filters(query) then Filter(data, MatchesAll(Terms(query))) else data, NewestFirst())
  }

  /** The page `search_measurements` returns for the loaded `data`. */
  function SearchPage(data: seq<Record>, query: string, limit: int, offset: int): Page {
    var hits := Hits(data, query);
    Page(SliceOf(hits, offset, offset + limit), |hits|, limit, offset, query, offset + limit < |hits|)
  }

  /** The hits are exactly the records containing every term, newest first,
      each as often as in the data; a query that is empty or blank filters
      nothing. */
  lemma HitsMeaning(data: seq<Record>, query: string)
    ensures Sorted(Hits(data, query), NewestFirst())
    ensures Filters(query) ==> multiset(Hits(data, query)) == multiset(Filter(data, MatchesAll(Terms(query))))
    ensures !Filters(query) ==> multiset(Hits(data, query)) == multiset(data)
    ensures forall r :: r in Hits(data, query) <==> r in data && (Filters(query) ==> AllTermsIn(Terms(query), SearchText(r)))
  {
    var sel := if Filters(query) then Filter(data, MatchesAll(Terms(query))) else data;
    DescByStrPreorder(Timestamp);
    SortSorted(sel, NewestFirst());
    SortPermutes(sel, NewestFirst());
    forall r ensures r in Hits(data, query) <==> r in sel {
      assert r in Hits(data, query) <==> r in multiset(Hits(data, query));
    }
  }

  /** `total` counts the hits before slicing, `data` is the window
      `[offset, offset + limit)` of them and `has_more` says whether hits lie
      past the window. */
  lemma PageMeaning(data: seq<Record>, query: string, limit: int, offset: int)
    requires 0 <= offset && 0 <= limit
    ensures SearchPage(data, query, limit, offset).total == |Hits(data, query)|
    ensures |SearchPage(data, query, limit, offset).data| <= limit
    ensures offset <= |Hits(data, query)| ==>
      SearchPage(data, query, limit, offset).data == Hits(data, query)[offset..Min(offset + limit, |Hits(data, query)|)]
    ensures offset >= |Hits(data, query)| ==> SearchPage(data, query, limit, offset).data == []
    ensures SearchPage(data, query, limit, offset).hasMore <==>
      offset + |SearchPage(data, query, limit, offset).data| < |Hits(data, query)|
  {
  }

  /** The record loop of `search_measurements`. */
  method FilterByTerms(data: seq<Record>, terms: seq<string>) returns (filtered: seq<Record>)
    ensures filtered == Filter(data, MatchesAll(terms))
  {
    filtered := [];
    for i := 0 to |data|
      invariant filtered == Filter(data[..i], MatchesAll(terms))
    {
      FilterSnoc(data, i, MatchesAll(terms));
      if AllTermsIn(terms, SearchText(data[i])) {
        filtered := filtered + [data[i]];
      }
    }
    assert data[..|data|] == data;
  }

  // ---------------------------------------------------------------------
  // get_quick_search_suggestions
  // ---------------------------------------------------------------------

  /** The six fields offered as suggestions. */
  function SuggestFields(r: Record): seq<string> {
    [Field(r, "lot_id", ""), Field(r, "fab_id", ""), Field(r, "tool_name", ""),
     Field(r, "recipe_name", ""), Field(r, "material", ""), Field(r, "process_step", "")]
  }

  /** `query_lower in field_str.lower()`. */
  predicate Suggests(query: string, f: string) {
    Contains(Lower(f), Lower(query))
  }

  /** `suggestions.add(x)` on a set kept as a duplicate-free list. */
  function AddTo(sugg: seq<string>, x: string): seq<string> {
    if x in sugg then sugg else sugg + [x]
  }

  /** The inner loop over one record's fields: each matching field is
      added and the scan stops once the set holds `limit` values. */
  function GatherFields(sugg: seq<string>, fs: seq<string>, query: string, limit: int): seq<string>
    decreases |fs|
  {
    if fs == [] then sugg
    else if Suggests(query, fs[0]) then
      var s := AddTo(sugg, fs[0]);
      if |s| >= limit then s else GatherFields(s, fs[1..], query, limit)
    else GatherFields(sugg, fs[1..], query, limit)
  }

  /** The outer loop over the records, with the same stop after each
      record. */
  function Gather(sugg: seq<string>, data: seq<Record>, query: string, limit: int): seq<string>
    decreases |data|
  {
    if data == [] then sugg
    else
      var s := GatherFields(sugg, SuggestFields(data[0]), query, limit);
      if |s| >= limit then s else Gather(s, data[1..], query, limit)
  }

  /** `get_quick_search_suggestions` on the loaded `data`. */
  function Suggestions(data: seq<Record>, query: string, limit: int): (r: seq<string>)
    ensures |query| < 2 ==> r == []
    ensures limit >= 0 ==> |r| <= limit
  {
    if query == "" || |query| < 2 then []
    else SliceOf(Sort(Gather([], data, query, limit), StrLe), 0, limit)
  }

  /** Some record offers `x` in one of its six fields. */
  ghost predicate Offered(data: seq<Record>, x: string) {
    exists i :: 0 <= i < |data| && x in SuggestFields(data[i])
  }

  /** One record's scan keeps what was gathered before, adds only its
      matching fields, keeps the set duplicate-free and stops at the cap. */
  lemma {:induction false} GatherFieldsSound(sugg: seq<string>, fs: seq<string>, query: string, limit: int)
    requires NoDuplicates(sugg)
    requires |sugg| < limit || sugg == []
    ensures var r := GatherFields(sugg, fs, query, limit);
      NoDuplicates(r) && |sugg| <= |r| && r[..|sugg|] == sugg && |r| <= Max(limit, 1) &&
      (forall x :: x in r ==> x in sugg || (x in fs && Suggests(query, x)))
    decreases |fs|
  {
    if fs != [] {
      var s := if Suggests(query, fs[0]) then AddTo(sugg, fs[0]) else sugg;
      if !(Suggests(query, fs[0]) && |s| >= limit) {
        GatherFieldsSound(s, fs[1..], query, limit);
        var r := GatherFields(s, fs[1..], query, limit);
        assert r[..|sugg|] == r[..|s|][..|sugg|];
        assert fs == [fs[0]] + fs[1..];
      }
    }
  }

  /** A record's scan that ends below the cap took every matching field. */
  lemma {:induction false} GatherFieldsComplete(sugg: seq<string>, fs: seq<string>, query: string, limit: int)
    ensures var r := GatherFields(sugg, fs, query, limit);
      |r| < limit ==> forall x :: (x in sugg || (x in fs && Suggests(query, x))) ==> x in r
    decreases |fs|
  {
    if fs != [] {
      var s := if Suggests(query, fs[0]) then AddTo(sugg, fs[0]) else sugg;
      if !(Suggests(query, fs[0]) && |s| >= limit) {
        GatherFieldsComplete(s, fs[1..], query, limit);
        assert fs == [fs[0]] + fs[1..];
      }
    }
  }

  /** The whole scan keeps the same shape over all records. */
  lemma {:induction false} GatherSound(sugg: seq<string>, data: seq<Record>, query: string, limit: int)
    requires NoDuplicates(sugg)
    requires |sugg| < limit || sugg == []
    ensures var r := Gather(sugg, data, query, limit);
      NoDuplicates(r) && |r| <= Max(limit, 1) &&
      (forall x :: x in r ==> x in sugg || (Offered(data, x) && Suggests(query, x)))
    decreases |data|
  {
    if data != [] {
      var fs := SuggestFields(data[0]);
      GatherFieldsSound(sugg, fs, query, limit);
      var s := GatherFields(sugg, fs, query, limit);
      forall x | x in s && x !in sugg ensures Offered(data, x) {
        assert x in SuggestFields(data[0]);
      }
      if |s| < limit {
        GatherSound(s, data[1..], query, limit);
        var r := Gather(s, data[1..], query, limit);
        forall x | x in r && x !in s ensures Offered(data, x) {
          var i :| 0 <= i < |data[1..]| && x in SuggestFields(data[1..][i]);
          assert data[i + 1] == data[1..][i];
        }
      }
    }
  }

  /** A scan that ends below the cap took every matching field of every
      record. */
  lemma {:induction false} GatherComplete(sugg: seq<string>, data: seq<Record>, query: string, limit: int)
    ensures var r := Gather(sugg, data, query, limit);
      |r| < limit ==>
        (forall x :: x in sugg ==> x in r) &&
        (forall i, x :: 0 <= i < |data| && x in SuggestFields(data[i]) && Suggests(query, x) ==> x in r)
    decreases |data|
  {
    if data != [] {
      var fs := SuggestFields(data[0]);
      GatherFieldsComplete(sugg, fs, query, limit);
      var s := GatherFields(sugg, fs, query, limit);
      if |s| < limit {
        GatherComplete(s, data[1..], query, limit);
        var r := Gather(s, data[1..], query, limit);
        if |r| < limit {
          forall i, x | 0 <= i < |data| && x in SuggestFields(data[i]) && Suggests(query, x) ensures x in r {
            if i > 0 {
              assert data[1..][i - 1] == data[i];
            }
          }
        }
      }
    }
  }

  /** Suggestions are sorted, distinct, capped at `limit`, each one a field
      value containing the query case-insensitively; when a query of two or
      more characters gets fewer than `limit` back, every matching field
      value is among them. */
  lemma SuggestionsMeaning(data: seq<Record>, query: string, limit: int)
    ensures query == "" || |query| < 2 ==> Suggestions(data, query, limit) == []
    ensures Sorted(Suggestions(data, query, limit), StrLe)
    ensures NoDuplicates(Suggestions(data, query, limit))
    ensures |Suggestions(data, query, limit)| <= Max(limit, 0)
    ensures forall x :: x in Suggestions(data, query, limit) ==> Offered(data, x) && Suggests(query, x)
    ensures |query| >= 2 && |Suggestions(data, query, limit)| < limit ==>
      forall i, x :: 0 <= i < |data| && x in SuggestFields(data[i]) && Suggests(query, x) ==> x in Suggestions(data, query, limit)
  {
    if !(query == "" || |query| < 2) {
      SuggestionsSound(data, query, limit);
      if |Suggestions(data, query, limit)| < limit {
        SuggestionsComplete(data, query, limit);
      }
    }
  }

  lemma SuggestionsSound(data: seq<Record>, query: string, limit: int)
    requires !(query == "" || |query| < 2)
    ensures Sorted(Suggestions(data, query, limit), StrLe)
    ensures NoDuplicates(Suggestions(data, query, limit))
    ensures |Suggestions(data, query, limit)| <= Max(limit, 0)
    ensures forall x :: x in Suggestions(data, query, limit) ==> Offered(data, x) && Suggests(query, x)
  {
    var g := Gather([], data, query, limit);
    GatherSound([], data, query, limit);
    var sorted := Sort(g, StrLe);
    StrLePreorder();
    SortSorted(g, StrLe);
    SortPermutes(g, StrLe);
    PermutationKeepsNoDuplicates(g, sorted);
    var r := Suggestions(data, query, limit);
    assert r == sorted[..|r|];
    forall x | x in r ensures x in g {
      assert x in multiset(sorted);
    }
  }

  lemma SuggestionsComplete(data: seq<Record>, query: string, limit: int)
    requires !(query == "" || |query| < 2)
    requires |Suggestions(data, query, limit)| < limit
    ensures forall i, x :: 0 <= i < |data| && x in SuggestFields(data[i]) && Suggests(query, x) ==> x in Suggestions(data, query, limit)
  {
    var g := Gather([], data, query, limit);
    GatherComplete([], data, query, limit);
    var sorted := Sort(g, StrLe);
    SortPermutes(g, StrLe);
    assert |g| < limit;
    assert Suggestions(data, query, limit) == sorted;
    forall x | x in g ensures x in sorted {
      assert x in multiset(g);
    }
  }

  /** The inner loop of `get_quick_search_suggestions` over one record, with
      its `break`. */
  method ScanFields(sugg0: seq<string>, fs: seq<string>, query: string, limit: int) returns (sugg: seq<string>)
    ensures sugg == GatherFields(sugg0, fs, query, limit)
  {
    sugg := sugg0;
    var queryLower := Lower(query);
    var j := 0;
    while j < |fs|
      invariant 0 <= j <= |fs|
      invariant GatherFields(sugg, fs[j..], query, limit) == GatherFields(sugg0, fs, query, limit)
      decreases |fs| - j
    {
      assert fs[j..][1..] == fs[j + 1..];
      if Contains(Lower(fs[j]), queryLower) {
        if fs[j] !in sugg {
          sugg := sugg + [fs[j]];
        }
        if |sugg| >= limit {
          return;
        }
      }
      j := j + 1;
    }
  }

  /** The record loop of `get_quick_search_suggestions`, then `sorted(...)[:limit]`. */
  method CollectSuggestions(data: seq<Record>, query: string, limit: int) returns (r: seq<string>)
    requires query != "" && |query| >= 2
    ensures r == Suggestions(data, query, limit)
  {
    var sugg: seq<string> := [];
    var i := 0;
    while i < |data|
      invariant 0 <= i <= |data|
      invariant Gather(sugg, data[i..], query, limit) == Gather([], data, query, limit)
      decreases |data| - i
    {
      assert data[i..][1..] == data[i + 1..];
      sugg := ScanFields(sugg, SuggestFields(data[i]), query, limit);
      if |sugg| >= limit {
        break;
      }
      i := i + 1;
    }
    r := SliceOf(Sort(sugg, StrLe), 0, limit);
  }

  // ---------------------------------------------------------------------
  // get_measurement_by_id
  // ---------------------------------------------------------------------

  /** `record.get('measurement_id') == measurement_id`: a record without the
      field never matches. */
  function IdIs(id: string): Record -> bool {
    (r: Record) => "measurement_id" in r && r["measurement_id"] == id
  }

  /** The scan loop of `get_measurement_by_id`. */
  method FindById(data: seq<Record>, id: string) returns (r: Option<Record>)
    ensures r == First(data, IdIs(id))
  {
    var i := 0;
    while i < |data|
      invariant 0 <= i <= |data|
      invariant First(data[i..], IdIs(id)) == First(data, IdIs(id))
      decreases |data| - i
    {
      FirstStep(data, i, IdIs(id));
      if "measurement_id" in data[i] && data[i]["measurement_id"] == id {
        return Some(data[i]);
      }
      i := i + 1;
    }
    return None;
  }

  // ---------------------------------------------------------------------
  // get_summary_stats
  // ---------------------------------------------------------------------

  /** The field values of the records, one per record. */
  function Column(data: seq<Record>, k: string, default: string): seq<string> {
    if data == [] then [] else Column(data[..|data| - 1], k, default) + [Field(data[|data| - 1], k, default)]
  }

  /** The distribution of field `k` after counting all of `data`. */
  function Tally(data: seq<Record>, k: string, default: string): Counts {
    if data == [] then [] else Bump(Tally(data[..|data| - 1], k, default), Field(data[|data| - 1], k, default))
  }

  /** Each distribution counts every record once, under its own value, and
      lists each value once, in order of first appearance. */
  lemma {:induction false} TallyMeaning(data: seq<Record>, k: string, default: string, v: string)
    ensures CountIn(Tally(data, k, default), v) == multiset(Column(data, k, default))[v]
    ensures Total(Tally(data, k, default)) == |data|
    ensures CountKeys(Tally(data, k, default)) == Dedup(Column(data, k, default))
  {
    if data != [] {
      var init := data[..|data| - 1];
      var x := Field(data[|data| - 1], k, default);
      TallyMeaning(init, k, default, v);
      BumpCounts(Tally(init, k, default), x, v);
      var col := Column(data, k, default);
      assert col[..|col| - 1] == Column(init, k, default);
    }
  }

  /** Python's `min` of a non-empty list of strings. */
  function MinStr(s: seq<string>): (r: string)
    requires s != []
    ensures r in s && forall x :: x in s ==> StrLe(r, x)
  {
    if |s| == 1 then
      StrLeRefl(s[0]);
      s[0]
    else
      var m := MinStr(s[1..]);
      StrLeTotal(s[0], m);
      StrLeRefl(s[0]);
      StrLeRefl(m);
      BelowAll(if StrLe(s[0], m) then s[0] else m, m, s[1..]);
      assert s == [s[0]] + s[1..];
      if StrLe(s[0], m) then s[0] else m
  }

  /** Python's `max` of a non-empty list of strings. */
  function MaxStr(s: seq<string>): (r: string)
    requires s != []
    ensures r in s && forall x :: x in s ==> StrLe(x, r)
  {
    if |s| == 1 then
      StrLeRefl(s[0]);
      s[0]
    else
      var m := MaxStr(s[1..]);
      StrLeTotal(s[0], m);
      StrLeRefl(s[0]);
      StrLeRefl(m);
      AboveAll(if StrLe(m, s[0]) then s[0] else m, m, s[1..]);
      assert s == [s[0]] + s[1..];
      if StrLe(m, s[0]) then s[0] else m
  }

  lemma BelowAll(a: string, m: string, s: seq<string>)
    requires StrLe(a, m) && forall x :: x in s ==> StrLe(m, x)
    ensures forall x :: x in s ==> StrLe(a, x)
  {
    forall x | x in s ensures StrLe(a, x) {
      StrLeTrans(a, m, x);
    }
  }

  lemma AboveAll(a: string, m: string, s: seq<string>)
    requires StrLe(m, a) && forall x :: x in s ==> StrLe(x, m)
    ensures forall x :: x in s ==> StrLe(x, a)
  {
    forall x | x in s ensures StrLe(x, a) {
      StrLeTrans(x, m, a);
    }
  }

  datatype Summary = Summary(
    total: nat,
    fabs: Counts, tools: Counts, recipes: Counts, statuses: Counts,
    earliest: string, latest: string)

  /** `get_summary_stats` on the loaded `data`: `None` is the `{}` of an
      empty list. */
  function SummaryOf(data: seq<Record>): (r: Option<Summary>)
    ensures r.None? <==> data == []
    ensures r.Some? ==> r.value.total == |data|
    ensures r.Some? ==> StrLe(r.value.earliest, r.value.latest)
  {
    if data == [] then None
    else Some(Summary(|data|,
      Tally(data, "fab_id", "Unknown"), Tally(data, "tool_name", "Unknown"),
      Tally(data, "recipe_name", "Unknown"), Tally(data, "status", "Unknown"),
      MinStr(Column(data, "measurement_timestamp", "")), MaxStr(Column(data, "measurement_timestamp", ""))))
  }

  /** Every distribution of the summary sums to the number of measurements,
      and the date range bounds every timestamp. */
  lemma SummaryMeaning(data: seq<Record>, k: string)
    requires data != []
    ensures SummaryOf(data).Some?
    ensures Total(SummaryOf(data).value.fabs) == SummaryOf(data).value.total
    ensures Total(SummaryOf(data).value.tools) == SummaryOf(data).value.total
    ensures Total(SummaryOf(data).value.recipes) == SummaryOf(data).value.total
    ensures Total(SummaryOf(data).value.statuses) == SummaryOf(data).value.total
    ensures forall i :: 0 <= i < |data| ==>
      StrLe(SummaryOf(data).value.earliest, Timestamp(data[i])) && StrLe(Timestamp(data[i]), SummaryOf(data).value.latest)
  {
    TallyMeaning(data, "fab_id", "Unknown", "");
    TallyMeaning(data, "tool_name", "Unknown", "");
    TallyMeaning(data, "recipe_name", "Unknown", "");
    TallyMeaning(data, "status", "Unknown", "");
    forall i | 0 <= i < |data| ensures Timestamp(data[i]) in Column(data, "measurement_timestamp", "") {
      ColumnHas(data, "measurement_timestamp", "", i);
    }
  }

  lemma {:induction false} ColumnLength(data: seq<Record>, k: string, default: string)
    ensures |Column(data, k, default)| == |data|
  {
    if data != [] {
      ColumnLength(data[..|data| - 1], k, default);
    }
  }

  lemma {:induction false} ColumnHas(data: seq<Record>, k: string, default: string, i: nat)
    requires i < |data|
    ensures |Column(data, k, default)| == |data|
    ensures Column(data, k, default)[i] == Field(data[i], k, default)
  {
    ColumnLength(data, k, default);
    if i < |data| - 1 {
      ColumnHas(data[..|data| - 1], k, default, i);
      assert data[..|data| - 1][i] == data[i];
    }
  }

  /** The counting loop of `get_summary_stats`. */
  method CountAll(data: seq<Record>) returns (fabs: Counts, tools: Counts, recipes: Counts, statuses: Counts)
    ensures fabs == Tally(data, "fab_id", "Unknown")
    ensures tools == Tally(data, "tool_name", "Unknown")
    ensures recipes == Tally(data, "recipe_name", "Unknown")
    ensures statuses == Tally(data, "status", "Unknown")
  {
    fabs, tools, recipes, statuses := [], [], [], [];
    for i := 0 to |data|
      invariant fabs == Tally(data[..i], "fab_id", "Unknown")
      invariant tools == Tally(data[..i], "tool_name", "Unknown")
      invariant recipes == Tally(data[..i], "recipe_name", "Unknown")
      invariant statuses == Tally(data[..i], "status", "Unknown")
    {
      assert data[..i + 1][..i] == data[..i];
      assert data[..i + 1][i] == data[i];
      var r := data[i];
      fabs := Bump(fabs, Field(r, "fab_id", "Unknown"));
      tools := Bump(tools, Field(r, "tool_name", "Unknown"));
      recipes := Bump(recipes, Field(r, "recipe_name", "Unknown"));
      statuses := Bump(statuses, Field(r, "status", "Unknown"));
    }
    assert data[..|data|] == data;
  }

  // ---------------------------------------------------------------------
  // The service object
  // ---------------------------------------------------------------------

  class AFMDataService {
    var cache: Option<seq<Record>>
    var stamp: Option<int>

    constructor()
      ensures cache == None && stamp == None
    {
      cache := None;
      stamp := None;
    }

    /** `get_measurement_data`: the cached list while it is fresh and no
        refresh is forced, else a reload that becomes the new cache. */
    method GetMeasurementData(force: bool, now: int, parquet: Option<seq<Record>>, dummy: seq<Record>)
      returns (data: seq<Record>)
      modifies this
      ensures data == Loaded(old(cache), old(stamp), force, now, parquet, dummy)
      ensures cache == Some(data)
      ensures stamp == if Reused(old(cache), old(stamp), force, now) then old(stamp) else Some(now)
    {
      if !force && cache.Some? && stamp.Some? {
        if DeltaSeconds(now - stamp.value) < CacheDuration {
          return cache.value;
        }
      }
      data := if parquet.Some? then parquet.value else dummy;
      cache := Some(data);
      stamp := Some(now);
    }

    /** `search_measurements`. With no filtering query the list sorted in
        place is the cached list itself, so the cache comes back sorted. */
    method SearchMeasurements(query: string, limit: int, offset: int, now: int, parquet: Option<seq<Record>>, dummy: seq<Record>)
      returns (page: Page)
      modifies this
      ensures page == SearchPage(Loaded(old(cache), old(stamp), false, now, parquet, dummy), query, limit, offset)
      ensures cache == Some(if Filters(query) then Loaded(old(cache), old(stamp), false, now, parquet, dummy)
                            else Hits(Loaded(old(cache), old(stamp), false, now, parquet, dummy), query))
      ensures stamp == if Reused(old(cache), old(stamp), false, now) then old(stamp) else Some(now)
    {
      var data := GetMeasurementData(false, now, parquet, dummy);
      var filtered := data;
      if query != "" && PyStrip(query) != "" {
        filtered := FilterByTerms(data, Terms(query));
      }
      filtered := Sort(filtered, NewestFirst());
      if !Filters(query) {
        cache := Some(filtered);
      }
      var total := |filtered|;
      page := Page(SliceOf(filtered, offset, offset + limit), total, limit, offset, query, offset + limit < total);
    }

    /** `get_quick_search_suggestions`: a query shorter than two characters
        answers `[]` without touching the cache. */
    method QuickSearchSuggestions(query: string, limit: int, now: int, parquet: Option<seq<Record>>, dummy: seq<Record>)
      returns (r: seq<string>)
      modifies this
      ensures r == Suggestions(Loaded(old(cache), old(stamp), false, now, parquet, dummy), query, limit)
      ensures query == "" || |query| < 2 ==> cache == old(cache) && stamp == old(stamp)
      ensures query != "" && |query| >= 2 ==>
        cache == Some(Loaded(old(cache), old(stamp), false, now, parquet, dummy))
        && stamp == if Reused(old(cache), old(stamp), false, now) then old(stamp) else Some(now)
    {
      if query == "" || |query| < 2 {
        return [];
      }
      var data := GetMeasurementData(false, now, parquet, dummy);
      r := CollectSuggestions(data, query, limit);
    }

    /** `get_measurement_by_id`: the first loaded record with that id. */
    method MeasurementById(id: string, now: int, parquet: Option<seq<Record>>, dummy: seq<Record>)
      returns (r: Option<Record>)
      modifies this
      ensures r == First(Loaded(old(cache), old(stamp), false, now, parquet, dummy), IdIs(id))
      ensures cache == Some(Loaded(old(cache), old(stamp), false, now, parquet, dummy))
      ensures stamp == if Reused(old(cache), old(stamp), false, now) then old(stamp) else Some(now)
    {
      var data := GetMeasurementData(false, now, parquet, dummy);
      r := FindById(data, id);
    }

    /** `get_summary_stats`. */
    method SummaryStats(now: int, parquet: Option<seq<Record>>, dummy: seq<Record>)
      returns (r: Option<Summary>)
      modifies this
      ensures r == SummaryOf(Loaded(old(cache), old(stamp), false, now, parquet, dummy))
      ensures cache == Some(Loaded(old(cache), old(stamp), false, now, parquet, dummy))
      ensures stamp == if Reused(old(cache), old(stamp), false, now) then old(stamp) else Some(now)
    {
      var data := GetMeasurementData(false, now, parquet, dummy);
      if data == [] {
        return None;
      }
      var fabs, tools, recipes, statuses := CountAll(data);
      var times := Column(data, "measurement_timestamp", "");
      ColumnHas(data, "measurement_timestamp", "", 0);
      r := Some(Summary(|data|, fabs, tools, recipes, statuses, MinStr(times), MaxStr(times)));
    }
  }
}
