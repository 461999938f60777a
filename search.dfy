/** The debounced search composable: the loaded file list, the bounded cache
    of search results keyed by normalized query, and the result list shown. */
module Search {
  import opened Common
  import opened DataService
  import opened ExportUtils

  /** The cache is trimmed when it holds more than this many queries. */
  const CacheLimit: nat := 50

  /** A JavaScript `Map` from normalized query to results, in insertion
      order. */
  type Cache = seq<(string, seq<Value>)>

  /** `searchCache.get(k)` when `searchCache.has(k)`. */
  function Lookup<T(==)>(cache: seq<(string, T)>, k: string): (r: Option<T>)
    ensures r.Some? <==> k in Keys(cache)
    ensures r.Some? ==> exists i :: 0 <= i < |cache| && cache[i] == (k, r.value)
  {
    if cache == [] then None
    else if cache[0].0 == k then Some(cache[0].1)
    else
      var r := Lookup(cache[1..], k);
      assert Keys(cache) == [cache[0].0] + Keys(cache[1..]);
      if r.Some? then
        var i :| 0 <= i < |cache[1..]| && cache[1..][i] == (k, r.value);
        assert cache[i + 1] == (k, r.value);
        r
      else r
  }

  /** A cache `performLocalSearch` can produce: each query once, at most one
      more than `CacheLimit` of them. */
  predicate CacheOk<T>(cache: seq<(string, T)>) {
    |cache| <= CacheLimit + 1 && NoDuplicates(Keys(cache))
  }

  /** The cache before an insertion: the oldest query goes when there are
      more than `CacheLimit`. */
  function Evicted<T>(cache: seq<(string, T)>): seq<(string, T)> {
    if |cache| > CacheLimit then cache[1..] else cache
  }

  /** The results shown and the cache after one search. */
  datatype Step<T> = Step(results: T, cache: seq<(string, T)>)

  /** The cache logic of `performLocalSearch(query)`, given what filtering
      shows for no query (`all`) and for the normalized query (`filtered`): a
      short query shows `all`, a cached query its cached results, and any
      other query shows `filtered` and inserts it. */
  function CacheStep<T(==)>(cache: seq<(string, T)>, query: string, all: T, filtered: T): Step<T> {
    if ShortQuery(Some(query)) then Step(all, cache)
    else
      var nq := NormalizedQuery(query);
      match Lookup(cache, nq)
      case Some(hit) => Step(hit, cache)
      case None => Step(filtered, Evicted(cache) + [(nq, filtered)])
  }

  /** `performLocalSearch(query)` over the loaded `data`. */
  function SearchStep(cache: Cache, data: seq<Value>, query: string, num: real -> string): (r: Step<seq<Value>>)
    ensures r == CacheStep(cache, query, FilterMeasurementsLocally(Some(data), Some(""), num),
      FilterMeasurementsLocally(Some(data), Some(NormalizedQuery(query)), num))
  {
    if ShortQuery(Some(query)) then Step(FilterMeasurementsLocally(Some(data), Some(""), num), cache)
    else
      var nq := NormalizedQuery(query);
      match Lookup(cache, nq)
      case Some(hit) => Step(hit, cache)
      case None =>
        var r := FilterMeasurementsLocally(Some(data), Some(nq), num);
        Step(r, Evicted(cache) + [(nq, r)])
  }

  /** The cache is never larger than `CacheLimit + 1` and never holds a query
      twice. */
  lemma {:induction false} CacheStepKeepsCacheOk<T>(cache: seq<(string, T)>, query: string, all: T, filtered: T)
    requires CacheOk(cache)
    ensures CacheOk(CacheStep(cache, query, all, filtered).cache)
  {
    if !ShortQuery(Some(query)) {
      var nq := NormalizedQuery(query);
      if Lookup(cache, nq).None? {
        var e := Evicted(cache);
        var r := e + [(nq, filtered)];
        assert Keys(r) == Keys(e) + [nq];
        assert Keys(e) == if |cache| > CacheLimit then Keys(cache)[1..] else Keys(cache);
        forall i, j | 0 <= i < j < |r| ensures Keys(r)[i] != Keys(r)[j] {
          if j == |r| - 1 {
            assert Keys(e)[i] in Keys(cache);
          }
        }
      }
    }
  }

  lemma SearchStepKeepsCacheOk(cache: Cache, data: seq<Value>, query: string, num: real -> string)
    requires CacheOk(cache)
    ensures CacheOk(SearchStep(cache, data, query, num).cache)
  {
    CacheStepKeepsCacheOk(cache, query, FilterMeasurementsLocally(Some(data), Some(""), num),
      FilterMeasurementsLocally(Some(data), Some(NormalizedQuery(query)), num));
  }

  /** Every cached value is what `f` gives for its query. */
  predicate FreshFor<T(==)>(cache: seq<(string, T)>, f: string -> T) {
    forall i :: 0 <= i < |cache| ==> cache[i].1 == f(cache[i].0)
  }

  /** A cache consistent with `f` stays consistent, and a long query shows
      `f` of its normalized form whether it hits or misses. */
  lemma {:induction false} CacheStepFresh<T>(cache: seq<(string, T)>, query: string, all: T, f: string -> T)
    requires FreshFor(cache, f)
    ensures var st := CacheStep(cache, query, all, f(NormalizedQuery(query)));
      FreshFor(st.cache, f)
      && st.results == if ShortQuery(Some(query)) then all else f(NormalizedQuery(query))
  {
    if !ShortQuery(Some(query)) {
      var nq := NormalizedQuery(query);
      var hit := Lookup(cache, nq);
      if hit.Some? {
        var i :| 0 <= i < |cache| && cache[i] == (nq, hit.value);
      }
    }
  }

  /** Filtering the loaded data, as a function of the query. */
  function Searcher(data: seq<Value>, num: real -> string): string -> seq<Value> {
    (q: string) => FilterMeasurementsLocally(Some(data), Some(q), num)
  }

  /** Every cached list is what filtering `data` with its query gives. */
  predicate Fresh(cache: Cache, data: seq<Value>, num: real -> string) {
    FreshFor(cache, Searcher(data, num))
  }

  /** The cache is transparent: with a cache consistent with the loaded data,
      every search shows exactly what filtering the data with the raw query
      shows, and the cache stays consistent. */
  lemma {:induction false} SearchStepFresh(cache: Cache, data: seq<Value>, query: string, num: real -> string)
    requires Fresh(cache, data, num)
    ensures SearchStep(cache, data, query, num).results == FilterMeasurementsLocally(Some(data), Some(query), num)
    ensures Fresh(SearchStep(cache, data, query, num).cache, data, num)
  {
    var f := Searcher(data, num);
    var all := FilterMeasurementsLocally(Some(data), Some(""), num);
    assert f(NormalizedQuery(query)) == FilterMeasurementsLocally(Some(data), Some(NormalizedQuery(query)), num);
    CacheStepFresh(cache, query, all, f);
    if ShortQuery(Some(query)) {
      ShortQueriesAgree(data, query, num);
    } else {
      NormalizedSearch(data, query, num);
    }
  }

  /** Every short query filters like the empty one. */
  lemma ShortQueriesAgree(data: seq<Value>, query: string, num: real -> string)
    requires ShortQuery(Some(query))
    ensures FilterMeasurementsLocally(Some(data), Some(query), num) == FilterMeasurementsLocally(Some(data), Some(""), num)
  {
  }

  /** A query that misses when the cache is full displaces the oldest query
      and nothing else; the new query is the latest entry. */
  lemma {:induction false} MissEvictsOldest<T>(cache: seq<(string, T)>, query: string, all: T, filtered: T)
    requires !ShortQuery(Some(query)) && NormalizedQuery(query) !in Keys(cache)
    ensures var c := CacheStep(cache, query, all, filtered).cache;
      c[..|c| - 1] == (if |cache| > CacheLimit then cache[1..] else cache)
      && c[|c| - 1] == (NormalizedQuery(query), filtered)
  {
    var e := Evicted(cache);
    assert (e + [(NormalizedQuery(query), filtered)])[..|e|] == e;
  }

  /** A short query and a cache hit leave the cache as it was. */
  lemma ShortOrHitKeepsCache<T>(cache: seq<(string, T)>, query: string, all: T, filtered: T)
    requires ShortQuery(Some(query)) || NormalizedQuery(query) in Keys(cache)
    ensures CacheStep(cache, query, all, filtered).cache == cache
  {
  }

  // ---------------------------------------------------------------------
  // Loading the file list
  // ---------------------------------------------------------------------

  /** The properties of a simplified measurement, in order: the
      identification fields copied as they are, then `tool_name`, then the
      file-availability lists. */
  const FileKeys: seq<string> :=
    ["unique_key", "filename", "date", "formatted_date", "recipe_name", "lot_id", "slot_number", "time",
     "measured_info", "tool_name", "profile_dir_list", "data_dir_list", "tiff_dir_list", "align_dir_list",
     "tip_dir_list"]

  /** The position of `tool_name` in `FileKeys`. */
  const ToolIndex: nat := 9

  /** The identification fields copied as they are. */
  const CopiedKeys: seq<string> := FileKeys[..ToolIndex]

  /** The file-availability lists, which default to `["no_files"]`. */
  const DirListKeys: seq<string> := FileKeys[ToolIndex + 1..]

  /** `a || b`. */
  function OrDefault(v: Option<Value>, b: Value): Value {
    if v.Some? && JsTruthy(v.value) then v.value else b
  }

  /** The property at position `i` of the simplified measurement. */
  function FileValue(m: Value, toolName: string, i: nat): Value
    requires i < |FileKeys|
  {
    if i < ToolIndex then OrNull(Field(m, FileKeys[i]))
    else if i == ToolIndex then OrDefault(Field(m, FileKeys[i]), Str(toolName))
    else OrDefault(Field(m, FileKeys[i]), List([Str("no_files")]))
  }

  function FileValues(m: Value, toolName: string): (r: seq<Value>)
    ensures |r| == |FileKeys|
    ensures forall i :: 0 <= i < |FileKeys| ==> r[i] == FileValue(m, toolName, i)
  {
    seq(|FileKeys|, i requires 0 <= i < |FileKeys| => FileValue(m, toolName, i))
  }

  /** The object `loadAllFiles` keeps for one listed measurement. */
  function FileEntry(m: Value, toolName: string): Entries {
    Zip(FileKeys, FileValues(m, toolName))
  }

  lemma FileKeysDistinct()
    ensures NoDuplicates(FileKeys)
  {
  }

  /** Zipping distinct keys: each key reads back its own value. */
  lemma ZipDistinct(ks: seq<string>, vs: seq<Value>)
    requires |ks| == |vs| && NoDuplicates(ks)
    ensures Keys(Zip(ks, vs)) == ks && UniqueKeys(Zip(ks, vs))
    ensures forall i :: 0 <= i < |ks| ==> Get(Zip(ks, vs), ks[i]) == Some(vs[i])
  {
    forall i | 0 <= i < |ks| ensures Get(Zip(ks, vs), ks[i]) == Some(vs[i]) {
      assert ks[i] !in ks[..i];
      GetZip(ks, vs, i);
    }
  }

  /** Each property reads back its own value. */
  lemma FileEntryGet(m: Value, toolName: string, i: nat)
    requires i < |FileKeys|
    ensures Get(FileEntry(m, toolName), FileKeys[i]) == Some(FileValue(m, toolName, i))
  {
    FileKeysDistinct();
    ZipDistinct(FileKeys, FileValues(m, toolName));
  }

  /** The simplified measurement has exactly the listed properties, once
      each, and the identification fields are copied as they are. */
  lemma FileEntryCopies(m: Value, toolName: string)
    ensures var e := FileEntry(m, toolName);
      Keys(e) == FileKeys && UniqueKeys(e)
      && forall j :: 0 <= j < |CopiedKeys| ==> Get(e, CopiedKeys[j]) == Some(OrNull(Field(m, CopiedKeys[j])))
  {
    FileKeysDistinct();
    ZipDistinct(FileKeys, FileValues(m, toolName));
  }

  /** `tool_name` defaults to the requested tool when the listed value is
      missing or falsy. */
  lemma FileEntryTool(m: Value, toolName: string)
    ensures Get(FileEntry(m, toolName), "tool_name") == Some(OrDefault(Field(m, "tool_name"), Str(toolName)))
  {
    FileEntryGet(m, toolName, ToolIndex);
    assert FileKeys[ToolIndex] == "tool_name";
  }

  /** Each directory list defaults to `["no_files"]` when the listed value
      is missing or falsy. */
  lemma FileEntryDirLists(m: Value, toolName: string)
    ensures forall j :: 0 <= j < |DirListKeys| ==>
      Get(FileEntry(m, toolName), DirListKeys[j]) == Some(OrDefault(Field(m, DirListKeys[j]), List([Str("no_files")])))
  {
    forall j | 0 <= j < |DirListKeys|
      ensures Get(FileEntry(m, toolName), DirListKeys[j]) == Some(OrDefault(Field(m, DirListKeys[j]), List([Str("no_files")])))
    {
      var i := ToolIndex + 1 + j;
      assert DirListKeys[j] == FileKeys[i];
      FileEntryGet(m, toolName, i);
    }
  }

  /** What the file-list request gives back. */
  datatype FilesResponse = FilesReturned(body: Entries) | FilesThrew

  /** The simplified list on success; `None` when the reply is not a success,
      or its `data` is not a list, or one of its entries is `null` (the
      property reads then throw). */
  function LoadedFiles(response: FilesResponse, toolName: string): (r: Option<seq<Value>>)
    ensures r.Some? ==> response.FilesReturned?
  {
    match response
    case FilesThrew => None
    case FilesReturned(body) =>
      var success := Get(body, "success");
      var data := Get(body, "data");
      if !(success.Some? && JsTruthy(success.value)) then None
      else if !(data.Some? && data.value.List? && Null !in data.value.items) then None
      else
        var items := data.value.items;
        Some(seq(|items|, i requires 0 <= i < |items| => Dict(FileEntry(items[i], toolName))))
  }

  /** One simplified entry per listed measurement, in order. */
  lemma LoadedFilesMeaning(response: FilesResponse, toolName: string)
    requires LoadedFiles(response, toolName).Some?
    ensures var items := Get(response.body, "data").value.items;
      var files := LoadedFiles(response, toolName).value;
      |files| == |items| && (forall i :: 0 <= i < |items| ==> files[i] == Dict(FileEntry(items[i], toolName)))
      && Null !in files
  {
  }

  /** The search `loadAllFiles` runs on freshly loaded files with an empty
      cache. */
  function AfterLoad(files: seq<Value>, query: string, num: real -> string): Step<seq<Value>> {
    if query != "" then SearchStep([], files, query, num)
    else Step(FilterMeasurementsLocally(Some(files), Some(""), num), [])
  }

  /** After a load the results are those of filtering the new files with the
      current query, and the cache is consistent with the new files. */
  lemma AfterLoadMeaning(files: seq<Value>, query: string, num: real -> string)
    ensures AfterLoad(files, query, num).results == FilterMeasurementsLocally(Some(files), Some(query), num)
    ensures Fresh(AfterLoad(files, query, num).cache, files, num)
    ensures CacheOk(AfterLoad(files, query, num).cache)
  {
    SearchStepFresh([], files, query, num);
    SearchStepKeepsCacheOk([], files, query, num);
  }

  // ---------------------------------------------------------------------
  // The composable's state
  // ---------------------------------------------------------------------

  class DebounceSearch {
    /** How non-integral numbers print. */
    const num: real -> string
    var searchQuery: string
    var searchResults: seq<Value>
    var isSearching: bool
    var allFileData: seq<Value>
    var searchCache: Cache

    predicate Valid()
      reads this
    {
      CacheOk(searchCache)
    }

    /** The query starts as the store's query when that is a string. */
    constructor(initialQuery: Value, num: real -> string)
      ensures Valid()
      ensures searchQuery == (if initialQuery.Str? then initialQuery.s else "")
      ensures searchResults == [] && !isSearching && allFileData == [] && searchCache == []
      ensures this.num == num
    {
      this.num := num;
      searchQuery := if initialQuery.Str? then initialQuery.s else "";
      searchResults := [];
      isSearching := false;
      allFileData := [];
      searchCache := [];
    }

    /** `performLocalSearch(query)`. */
    method PerformLocalSearch(query: string)
      requires Valid()
      modifies this
      ensures Valid()
      ensures Step(searchResults, searchCache) == SearchStep(old(searchCache), allFileData, query, num)
      ensures unchanged(this`allFileData, this`searchQuery, this`isSearching)
    {
      SearchStepKeepsCacheOk(searchCache, allFileData, query, num);
      ghost var step := SearchStep(searchCache, allFileData, query, num);
      if ShortQuery(Some(query)) {
        searchResults := FilterMeasurementsLocally(Some(allFileData), Some(""), num);
        assert step == Step(searchResults, searchCache);
        return;
      }
      var normalizedQuery := NormalizedQuery(query);
      var cached := Lookup(searchCache, normalizedQuery);
      if cached.Some? {
        searchResults := cached.value;
        assert step == Step(searchResults, searchCache);
        return;
      }
      FilterAndCache(normalizedQuery);
      assert step == Step(searchResults, searchCache);
    }

    /** A query that is not in the cache: filter, show, and insert the
        results after trimming the oldest query when the cache is full. */
    method FilterAndCache(normalizedQuery: string)
      modifies this
      ensures searchResults == FilterMeasurementsLocally(Some(allFileData), Some(normalizedQuery), num)
      ensures searchCache == Evicted(old(searchCache)) + [(normalizedQuery, searchResults)]
      ensures allFileData == old(allFileData) && searchQuery == old(searchQuery) && isSearching == old(isSearching)
    {
      var filteredData := FilterMeasurementsLocally(Some(allFileData), Some(normalizedQuery), num);
      searchResults := filteredData;
      if |searchCache| > CacheLimit {
        searchCache := searchCache[1..];
      }
      searchCache := searchCache + [(normalizedQuery, filteredData)];
    }

    /** `loadAllFiles(toolName)` given what the request returned. A failed
        or throwing load empties the files and the results but keeps the
        cache. */
    method LoadAllFiles(toolName: string, response: FilesResponse)
      requires Valid()
      modifies this
      ensures Valid()
      ensures LoadedFiles(response, toolName).None? ==>
        allFileData == [] && searchResults == [] && searchCache == old(searchCache)
      ensures LoadedFiles(response, toolName).Some? ==>
        allFileData == LoadedFiles(response, toolName).value
        && Step(searchResults, searchCache) == AfterLoad(allFileData, old(searchQuery), num)
      ensures unchanged(this`searchQuery) && !isSearching
    {
      isSearching := true;
      var files := LoadedFiles(response, toolName);
      if files.Some? {
        Reload(files.value);
      } else {
        allFileData := [];
        searchResults := [];
      }
      isSearching := false;
    }

    /** The successful branch of `loadAllFiles`: keep the files, empty the
        cache and show the current query's results over the new files. */
    method Reload(files: seq<Value>)
      modifies this
      ensures Valid()
      ensures allFileData == files
      ensures Step(searchResults, searchCache) == AfterLoad(files, old(searchQuery), num)
      ensures unchanged(this`searchQuery, this`isSearching)
    {
      allFileData := files;
      searchCache := [];
      if searchQuery != "" {
        PerformLocalSearch(searchQuery);
      } else {
        searchResults := FilterMeasurementsLocally(Some(allFileData), Some(""), num);
      }
    }

    /** `triggerSearch(query)`: set the query and search at once. */
    method TriggerSearch(query: string)
      requires Valid()
      modifies this
      ensures Valid()
      ensures searchQuery == query
      ensures Step(searchResults, searchCache) == SearchStep(old(searchCache), allFileData, query, num)
      ensures unchanged(this`allFileData, this`isSearching)
    {
      searchQuery := query;
      PerformLocalSearch(query);
    }

    /** `clearCache()`. */
    method ClearCache()
      modifies this
      ensures Valid() && searchCache == []
      ensures Fresh(searchCache, allFileData, num)
      ensures searchQuery == old(searchQuery) && searchResults == old(searchResults)
      ensures allFileData == old(allFileData) && isSearching == old(isSearching)
    {
      searchCache := [];
    }

    /** `getCacheInfo().searchCacheSize`. */
    method CacheSize() returns (size: nat)
      requires Valid()
      ensures size == |searchCache| && size <= CacheLimit + 1
    {
      size := |searchCache|;
    }
  }
}
