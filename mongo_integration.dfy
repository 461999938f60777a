/** The file-system fallbacks of `api/utils/mongo_integration.py`: every
    query first asks MongoDB (when it is enabled) and, when that yields
    nothing, works on the measurement list loaded from the file system.
    What MongoDB returns is a parameter; measurements are dicts. */
module MongoIntegration {
  import opened Common
  import opened Text
  import opened Sorting

  /** `is_mongodb_enabled`: a non-empty connection string and `USE_MONGODB`
      (default `false`) equal to `true` ignoring case. */
  function MongoEnabled(connection: Option<string>, useMongo: Option<string>): bool {
    connection.Some? && connection.value != "" &&
    Lower(if useMongo.Some? then useMongo.value else "false") == "true"
  }

  lemma MongoEnabledCases(connection: Option<string>, useMongo: Option<string>)
    ensures connection.None? || connection == Some("") ==> !MongoEnabled(connection, useMongo)
    ensures useMongo.None? ==> !MongoEnabled(connection, useMongo)
    ensures connection.Some? && connection.value != "" && useMongo == Some("TRUE") ==> MongoEnabled(connection, useMongo)
  {
    if useMongo.None? {
      assert Lower("false")[0] == 'f';
    }
    if useMongo == Some("TRUE") {
      assert Lower("TRUE") == "true";
    }
  }

  /** `get_afm_measurements_with_fallback`: a non-empty MongoDB answer, or
      else the file-system list. */
  function Measurements(enabled: bool, remote: seq<Entries>, local: seq<Entries>): (r: seq<Entries>)
    ensures r == remote || r == local
    ensures !enabled || remote == [] ==> r == local
  {
    if enabled && remote != [] then remote else local
  }

  /** `s[:limit] if limit else s`, with Python's clamping and negative
      slice ends. */
  function Head<T>(s: seq<T>, limit: int): (r: seq<T>)
    ensures limit == 0 ==> r == s
    ensures limit > 0 ==> |r| == Min(limit, |s|) && r == s[..|r|]
    ensures limit < 0 ==> |r| == Max(|s| + limit, 0) && r == s[..|r|]
  {
    if limit == 0 then s
    else if limit > 0 then s[..Min(limit, |s|)]
    else s[..Max(|s| + limit, 0)]
  }

  /** `m.get(k, '')` used as a string: `None` when the value is present but
      is not a string, where `.lower()` or a comparison would raise. */
  function StrField(m: Entries, k: string): (r: Option<string>)
    ensures !HasKey(m, k) ==> r == Some("")
    ensures HasKey(m, k) ==> (r.Some? <==> Get(m, k).value.Str?)
  {
    match Get(m, k)
    case None => Some("")
    case Some(Str(s)) => Some(s)
    case Some(_) => None
  }

  /** A list comprehension whose condition may raise: the kept elements in
      order, or `None` when evaluating the condition raised. */
  function TryFilter<T>(s: seq<T>, p: T -> Option<bool>): (r: Option<seq<T>>)
    ensures r.Some? ==> |r.value| <= |s| && forall i :: 0 <= i < |r.value| ==> r.value[i] in s
  {
    if s == [] then Some([])
    else match p(s[0])
      case None => None
      case Some(keep) =>
        match TryFilter(s[1..], p)
        case None => None
        case Some(rest) => Some((if keep then [s[0]] else []) + rest)
  }

  /** The elements a condition that did not raise keeps. */
  function Kept<T>(p: T -> Option<bool>): T -> bool {
    x => p(x) == Some(true)
  }

  /** When the condition never raises, the comprehension is the plain
      filter: the same elements in the same order. */
  lemma {:induction false} TryFilterTotal<T>(s: seq<T>, p: T -> Option<bool>)
    requires forall i :: 0 <= i < |s| ==> p(s[i]).Some?
    ensures TryFilter(s, p) == Some(Filter(s, Kept(p)))
  {
    if s != [] {
      TryFilterTotal(s[1..], p);
    }
  }

  /** A raising condition on any element makes the comprehension raise. */
  lemma {:induction false} TryFilterRaises<T>(s: seq<T>, p: T -> Option<bool>, i: nat)
    requires i < |s| && p(s[i]).None?
    ensures TryFilter(s, p).None?
  {
    if i > 0 {
      TryFilterRaises(s[1..], p, i - 1);
    }
  }

  // ---- search ---------------------------------------------------------------

  /** The condition of the local search, evaluated left to right with `or`
      stopping at the first hit. */
  function SearchHit(q: string): Entries -> Option<bool> {
    (m: Entries) =>
      match StrField(m, "filename")
      case None => None
      case Some(f) =>
        if Contains(Lower(f), q) then Some(true)
        else match StrField(m, "recipe_name")
          case None => None
          case Some(r) =>
            if Contains(Lower(r), q) then Some(true)
            else match StrField(m, "lot_id")
              case None => None
              case Some(l) => Some(Contains(Lower(l), q))
  }

  /** `search_measurements_with_fallback`. MongoDB is asked only for a
      non-empty query; `remoteHits` is its answer and `measurements` the
      list the fallback loads. `None` is an exception from a field that is
      not a string. */
  function SearchWithFallback(enabled: bool, remoteHits: seq<Entries>, measurements: seq<Entries>, query: string, limit: int)
    : (r: Option<seq<Entries>>)
    ensures enabled && query != "" && remoteHits != [] ==> r == Some(remoteHits)
    ensures query == "" ==> r.Some?
    ensures !(enabled && query != "" && remoteHits != []) && r.Some? ==>
      forall i :: 0 <= i < |r.value| ==> r.value[i] in measurements
    ensures !(enabled && query != "" && remoteHits != []) && r.Some? && limit > 0 ==> |r.value| <= limit
  {
    if enabled && query != "" && remoteHits != [] then Some(remoteHits)
    else if query == "" then Some(Head(measurements, limit))
    else match TryFilter(measurements, SearchHit(Lower(query)))
      case None => None
      case Some(hits) => Some(Head(hits, limit))
  }

  /** The local search keeps exactly the measurements whose file name,
      recipe or lot contains the lowercased query, in input order, cut to
      `limit`. */
  lemma LocalSearchMeaning(measurements: seq<Entries>, query: string, limit: int)
    requires query != ""
    requires forall i :: 0 <= i < |measurements| ==> SearchHit(Lower(query))(measurements[i]).Some?
    ensures SearchWithFallback(false, [], measurements, query, limit) ==
      Some(Head(Filter(measurements, Kept(SearchHit(Lower(query)))), limit))
  {
    var q := Lower(query);
    TryFilterTotal(measurements, SearchHit(q));
    assert TryFilter(measurements, SearchHit(q)) == Some(Filter(measurements, Kept(SearchHit(q))));
  }

  /** A hit is a measurement one of whose three fields contains the query. */
  lemma SearchHitMeaning(q: string, m: Entries)
    requires StrField(m, "filename").Some? && StrField(m, "recipe_name").Some? && StrField(m, "lot_id").Some?
    ensures SearchHit(q)(m) == Some(Contains(Lower(StrField(m, "filename").value), q) ||
      Contains(Lower(StrField(m, "recipe_name").value), q) || Contains(Lower(StrField(m, "lot_id").value), q))
  {
  }

  /** An empty query returns the first `limit` measurements, or all of them
      when `limit` is 0, without asking MongoDB. */
  lemma EmptyQuery(enabled: bool, remoteHits: seq<Entries>, measurements: seq<Entries>, limit: int)
    ensures SearchWithFallback(enabled, remoteHits, measurements, "", limit) == Some(Head(measurements, limit))
    ensures limit == 0 ==> SearchWithFallback(enabled, remoteHits, measurements, "", limit) == Some(measurements)
  {
  }

  // ---- date range -----------------------------------------------------------

  /** `start_date <= m.get('date', '') <= end_date`, a string comparison. */
  function InRange(start: string, end: string): Entries -> Option<bool> {
    (m: Entries) =>
      match StrField(m, "date")
      case None => None
      case Some(d) => Some(StrLe(start, d) && StrLe(d, end))
  }

  /** The fallback of `get_measurements_by_date_range`. */
  function DateRange(enabled: bool, remote: seq<Entries>, measurements: seq<Entries>, start: string, end: string)
    : Option<seq<Entries>>
  {
    if enabled && remote != [] then Some(remote)
    else TryFilter(measurements, InRange(start, end))
  }

  /** The range is inclusive at both ends: a measurement dated exactly
      `start` or `end` is kept, one dated before `start` is not. */
  lemma DateRangeInclusive(start: string, end: string, m: Entries)
    requires StrField(m, "date").Some?
    ensures StrField(m, "date") == Some(start) && StrLe(start, end) ==> InRange(start, end)(m) == Some(true)
    ensures StrField(m, "date") == Some(end) && StrLe(start, end) ==> InRange(start, end)(m) == Some(true)
    ensures !StrLe(start, StrField(m, "date").value) ==> InRange(start, end)(m) == Some(false)
  {
    StrLeRefl(start);
    StrLeRefl(end);
  }

  /** With string dates throughout, the fallback keeps exactly the
      measurements dated within the range, in order. */
  lemma DateRangeMeaning(measurements: seq<Entries>, start: string, end: string)
    requires forall i :: 0 <= i < |measurements| ==> StrField(measurements[i], "date").Some?
    ensures DateRange(false, [], measurements, start, end) ==
      Some(Filter(measurements, Kept(InRange(start, end))))
  {
    TryFilterTotal(measurements, InRange(start, end));
  }

  // ---- unique key -----------------------------------------------------------

  function KeyIs(key: string): Entries -> bool {
    (m: Entries) => Get(m, "unique_key") == Some(Str(key))
  }

  /** `get_measurement_by_unique_key`: a non-empty MongoDB document, or else
      the first loaded measurement with that `unique_key`. */
  method MeasurementByUniqueKey(enabled: bool, remote: Option<Entries>, measurements: seq<Entries>, key: string)
    returns (r: Option<Entries>)
    ensures enabled && remote.Some? && remote.value != [] ==> r == remote
    ensures !(enabled && remote.Some? && remote.value != []) ==> r == First(measurements, KeyIs(key))
  {
    if enabled && remote.Some? && remote.value != [] {
      return remote;
    }
    for i := 0 to |measurements|
      invariant First(measurements[..i], KeyIs(key)).None?
    {
      FirstSnoc(measurements, i, KeyIs(key));
      if Get(measurements[i], "unique_key") == Some(Str(key)) {
        FirstSplit(measurements, i + 1, KeyIs(key));
        return Some(measurements[i]);
      }
    }
    FirstSplit(measurements, |measurements|, KeyIs(key));
    assert measurements[..|measurements|] == measurements;
    return None;
  }

  /** The first hit of a prefix that has one is the first hit overall. */
  lemma {:induction false} FirstSplit<T>(s: seq<T>, i: nat, p: T -> bool)
    requires i <= |s|
    ensures First(s[..i], p).Some? ==> First(s, p) == First(s[..i], p)
  {
    if i > 0 && !p(s[0]) {
      FirstSplit(s[1..], i - 1, p);
      assert s[1..][..i - 1] == s[..i][1..];
    }
  }

  // ---- recipe statistics ----------------------------------------------------

  /** The recipe a measurement is counted under: its `recipe_name` when
      truthy. */
  function RecipeOf(m: Entries): Option<Value> {
    match Get(m, "recipe_name")
    case Some(v) => if PyTruthy(v) then Some(v) else None
    case None => None
  }

  /** No counted recipe is a list or a dict, on which `recipe_stats[recipe]`
      raises `TypeError`. */
  predicate HashableRecipes(ms: seq<Entries>) {
    ms == [] || (HashableRecipes(ms[..|ms| - 1]) && HashableRecipe(ms[|ms| - 1]))
  }

  predicate HashableRecipe(m: Entries) {
    RecipeOf(m).None? || !Unhashable(RecipeOf(m).value)
  }

  /** One list or dict recipe anywhere makes the grouping raise. */
  lemma {:induction false} UnhashableAt(ms: seq<Entries>, i: nat)
    requires i < |ms| && !HashableRecipe(ms[i])
    ensures !HashableRecipes(ms)
  {
    if i < |ms| - 1 {
      assert ms[..|ms| - 1][i] == ms[i];
      UnhashableAt(ms[..|ms| - 1], i);
    }
  }

  /** `m.get('date', '')`. */
  function DateOf(m: Entries): Value {
    match Get(m, "date")
    case Some(v) => v
    case None => Str("")
  }

  /** The counted recipes in order of first appearance: the key order of
      the defaultdict. */
  function RecipeOrder(ms: seq<Entries>): seq<Value> {
    if ms == [] then []
    else
      var init := RecipeOrder(ms[..|ms| - 1]);
      match RecipeOf(ms[|ms| - 1])
      case Some(r) => if r in init then init else init + [r]
      case None => init
  }

  /** How many measurements are counted under recipe `v`. */
  function CountFor(ms: seq<Entries>, v: Value): nat {
    if ms == [] then 0
    else CountFor(ms[..|ms| - 1], v) + (if RecipeOf(ms[|ms| - 1]) == Some(v) then 1 else 0)
  }

  /** The dates of the measurements counted under `v`, in order. */
  function DatesFor(ms: seq<Entries>, v: Value): seq<Value> {
    if ms == [] then []
    else DatesFor(ms[..|ms| - 1], v) + (if RecipeOf(ms[|ms| - 1]) == Some(v) then [DateOf(ms[|ms| - 1])] else [])
  }

  lemma {:induction false} DatesForCount(ms: seq<Entries>, v: Value)
    ensures |DatesFor(ms, v)| == CountFor(ms, v)
  {
    if ms != [] {
      DatesForCount(ms[..|ms| - 1], v);
    }
  }

  /** The date of every measurement counted under `v` is among its dates. */
  lemma {:induction false} DatesForHas(ms: seq<Entries>, v: Value, i: nat)
    requires i < |ms| && RecipeOf(ms[i]) == Some(v)
    ensures DateOf(ms[i]) in DatesFor(ms, v)
  {
    if i < |ms| - 1 {
      assert ms[..|ms| - 1][i] == ms[i];
      DatesForHas(ms[..|ms| - 1], v, i);
    }
  }

  /** The recipe order lists each counted recipe once, and nothing else. */
  lemma {:induction false} RecipeOrderMembers(ms: seq<Entries>, v: Value)
    ensures CountFor(ms, v) > 0 <==> v in RecipeOrder(ms)
  {
    if ms != [] {
      RecipeOrderMembers(ms[..|ms| - 1], v);
    }
  }

  lemma {:induction false} RecipeOrderDistinct(ms: seq<Entries>)
    ensures NoDuplicates(RecipeOrder(ms))
  {
    if ms != [] {
      RecipeOrderDistinct(ms[..|ms| - 1]);
    }
  }

  datatype RecipeStat = RecipeStat(recipe: Value, count: nat, earliest: Option<Value>, latest: Option<Value>)

  /** One row of the statistics: `None` when `sorted` raises on the
      recipe's dates. */
  function StatOf(ms: seq<Entries>, r: Value): Option<RecipeStat> {
    StatFrom(r, CountFor(ms, r), DatesFor(ms, r))
  }

  /** The row of a recipe with `count` measurements and these dates. */
  function StatFrom(r: Value, count: nat, dates: seq<Value>): Option<RecipeStat> {
    match PySorted(dates)
    case None => None
    case Some(sorted) => Some(Row(r, count, sorted))
  }

  /** A row from a count and the recipe's sorted dates. */
  function Row(r: Value, count: nat, sorted: seq<Value>): RecipeStat {
    RecipeStat(r, count,
      if sorted == [] then None else Some(sorted[0]),
      if sorted == [] then None else Some(sorted[|sorted| - 1]))
  }

  /** A row is missing exactly when its recipe's dates cannot be sorted. */
  lemma StatOfRaises(ms: seq<Entries>, r: Value)
    ensures StatOf(ms, r).None? <==> !PySortable(DatesFor(ms, r))
  {
    PySortedMeaning(DatesFor(ms, r));
  }

  /** A recipe measured once gets a row whose earliest and latest date are
      that measurement's date, whatever its type. */
  lemma OneDateRow(ms: seq<Entries>, r: Value, i: nat)
    requires CountFor(ms, r) == 1 && i < |ms| && RecipeOf(ms[i]) == Some(r)
    ensures StatOf(ms, r).Some?
    ensures StatOf(ms, r).value.earliest == Some(DateOf(ms[i]))
    ensures StatOf(ms, r).value.latest == Some(DateOf(ms[i]))
  {
    DatesForCount(ms, r);
    DatesForHas(ms, r, i);
  }

  /** Each row names its recipe and counts its measurements. */
  lemma StatOfCount(ms: seq<Entries>, r: Value)
    requires StatOf(ms, r).Some?
    ensures StatOf(ms, r).value.recipe == r
    ensures StatOf(ms, r).value.count == CountFor(ms, r)
  {
  }

  /** The earliest and latest dates of a row are dates of its recipe, and
      bound the date of every measurement of the recipe. */
  lemma StatOfBounds(ms: seq<Entries>, r: Value, i: nat)
    requires StatOf(ms, r).Some?
    requires i < |ms| && RecipeOf(ms[i]) == Some(r)
    ensures StatOf(ms, r).value.earliest.Some? && StatOf(ms, r).value.latest.Some?
    ensures StatOf(ms, r).value.earliest.value in DatesFor(ms, r)
    ensures StatOf(ms, r).value.latest.value in DatesFor(ms, r)
    ensures PyLe(StatOf(ms, r).value.earliest.value, DateOf(ms[i]))
    ensures PyLe(DateOf(ms[i]), StatOf(ms, r).value.latest.value)
  {
    var all := DatesFor(ms, r);
    PySortedMeaning(all);
    DatesForHas(ms, r, i);
    var sorted := PySorted(all).value;
    assert DateOf(ms[i]) in multiset(sorted);
    assert sorted[0] in multiset(all) && sorted[|sorted| - 1] in multiset(all);
    SortedBounds(sorted, DateOf(ms[i]));
  }

  /** The ends of a sorted list bound its elements. */
  lemma SortedBounds(sorted: seq<Value>, d: Value)
    requires forall i, j :: 0 <= i < j < |sorted| ==> PyLe(sorted[i], sorted[j])
    requires d in sorted
    ensures PyLe(sorted[0], d) && PyLe(d, sorted[|sorted| - 1])
  {
    var j :| 0 <= j < |sorted| && sorted[j] == d;
    PyLeRefl(d);
    if j > 0 {
      assert PyLe(sorted[0], sorted[j]);
    }
    if j < |sorted| - 1 {
      assert PyLe(sorted[j], sorted[|sorted| - 1]);
    }
  }

  function StatsOf(ms: seq<Entries>, rs: seq<Value>): Option<seq<RecipeStat>> {
    if rs == [] then Some([])
    else match (StatsOf(ms, rs[..|rs| - 1]), StatOf(ms, rs[|rs| - 1]))
      case (Some(init), Some(st)) => Some(init + [st])
      case _ => None
  }

  function CountKey(s: RecipeStat): int { s.count }

  function ByCount(): (RecipeStat, RecipeStat) -> bool { DescByInt(CountKey) }

  /** The fallback of `get_recipe_statistics`: one row per counted recipe in
      order of first appearance, then a stable sort by count, largest
      first. `None` when the grouping or a row raises. */
  function RecipeStatistics(ms: seq<Entries>): (r: Option<seq<RecipeStat>>)
    ensures !HashableRecipes(ms) ==> r.None?
    ensures r.Some? ==> |r.value| == |RecipeOrder(ms)|
    ensures r.Some? ==> Sorted(r.value, ByCount())
  {
    if !HashableRecipes(ms) then None
    else match StatsOf(ms, RecipeOrder(ms))
    case None => None
    case Some(stats) =>
      DescByIntPreorder(CountKey);
      SortSorted(stats, ByCount());
      StatsOfMeaning(ms, RecipeOrder(ms));
      Some(Sort(stats, ByCount()))
  }

  /** The rows follow the recipe list, one each. */
  lemma {:induction false} StatsOfMeaning(ms: seq<Entries>, rs: seq<Value>)
    requires StatsOf(ms, rs).Some?
    ensures |StatsOf(ms, rs).value| == |rs|
    ensures forall i :: 0 <= i < |rs| ==> StatOf(ms, rs[i]) == Some(StatsOf(ms, rs).value[i])
  {
    if rs != [] {
      StatsOfMeaning(ms, rs[..|rs| - 1]);
    }
  }

  /** The statistics have one row per distinct counted recipe, each with a
      positive count of its measurements, sorted by count with the largest
      first; rows with equal counts keep the order in which their recipes
      first appear. */
  lemma RecipeStatisticsMeaning(ms: seq<Entries>)
    requires RecipeStatistics(ms).Some?
    ensures Sorted(RecipeStatistics(ms).value, ByCount())
    ensures multiset(RecipeStatistics(ms).value) == multiset(StatsOf(ms, RecipeOrder(ms)).value)
    ensures forall e :: Ties(RecipeStatistics(ms).value, ByCount(), e) == Ties(StatsOf(ms, RecipeOrder(ms)).value, ByCount(), e)
    ensures forall i :: 0 <= i < |RecipeStatistics(ms).value| ==>
      RecipeStatistics(ms).value[i].count == CountFor(ms, RecipeStatistics(ms).value[i].recipe) > 0
  {
    var rs := RecipeOrder(ms);
    var stats := StatsOf(ms, rs).value;
    var sorted := Sort(stats, ByCount());
    DescByIntPreorder(CountKey);
    SortSorted(stats, ByCount());
    SortPermutes(stats, ByCount());
    forall e ensures Ties(sorted, ByCount(), e) == Ties(stats, ByCount(), e) {
      SortStable(stats, ByCount(), e);
    }
    StatsOfMeaning(ms, rs);
    forall i | 0 <= i < |sorted|
      ensures sorted[i].count == CountFor(ms, sorted[i].recipe) > 0
    {
      assert sorted[i] in multiset(stats);
      var k :| 0 <= k < |stats| && stats[k] == sorted[i];
      StatOfCount(ms, rs[k]);
      RecipeOrderMembers(ms, rs[k]);
    }
  }

  /** `get_recipe_statistics`: a non-empty MongoDB aggregation, or else the
      local grouping of the measurements, one row per recipe, sorted in
      place by count. `None` is the local calculation raising. */
  method GetRecipeStatistics(enabled: bool, remote: seq<RecipeStat>, ms: seq<Entries>) returns (r: Option<seq<RecipeStat>>)
    ensures enabled && remote != [] ==> r == Some(remote)
    ensures !(enabled && remote != []) ==> r == RecipeStatistics(ms)
  {
    if enabled && remote != [] {
      return Some(remote);
    }
    var recipes, groups, raised := GroupByRecipe(ms);
    if raised {
      return None;
    }
    var stats := FormatStats(ms, recipes, groups);
    if stats.None? {
      return None;
    }
    r := Some(Sort(stats.value, ByCount()));
  }

  /** The `{'count': ..., 'dates': [...]}` record the defaultdict holds per
      recipe. */
  datatype Group = Group(count: nat, dates: seq<Value>)

  /** The defaultdict after the measurements `ms`: `recipe_stats[recipe]`
      creates an empty record on first use, then the count and the dates
      grow. */
  function Grouping(ms: seq<Entries>): map<Value, Group> {
    if ms == [] then map[] else AddTo(Grouping(ms[..|ms| - 1]), ms[|ms| - 1])
  }

  /** One measurement's update of the defaultdict. */
  function AddTo(g: map<Value, Group>, m: Entries): map<Value, Group> {
    match RecipeOf(m)
    case None => g
    case Some(r) =>
      var e := if r in g then g[r] else Group(0, []);
      g[r := Group(e.count + 1, e.dates + [DateOf(m)])]
  }

  /** The defaultdict holds a record exactly for the counted recipes, and
      that record is the recipe's count and its dates in order. */
  lemma {:induction false} GroupingMeaning(ms: seq<Entries>, v: Value)
    ensures v in Grouping(ms) <==> v in RecipeOrder(ms)
    ensures v in Grouping(ms) ==> Grouping(ms)[v] == Group(CountFor(ms, v), DatesFor(ms, v))
  {
    if ms != [] {
      var init := ms[..|ms| - 1];
      GroupingMeaning(init, v);
      if v !in Grouping(init) {
        RecipeOrderMembers(init, v);
        DatesForCount(init, v);
      }
    }
  }

  /** The grouping loop over the measurements; `raised` is the `TypeError`
      of a list or dict recipe, which ends the loop. */
  method GroupByRecipe(ms: seq<Entries>) returns (recipes: seq<Value>, groups: map<Value, Group>, raised: bool)
    ensures raised <==> !HashableRecipes(ms)
    ensures !raised ==> recipes == RecipeOrder(ms)
    ensures !raised ==> groups == Grouping(ms)
  {
    recipes, groups, raised := [], map[], false;
    for i := 0 to |ms|
      invariant HashableRecipes(ms[..i])
      invariant recipes == RecipeOrder(ms[..i])
      invariant groups == Grouping(ms[..i])
    {
      assert ms[..i + 1][..i] == ms[..i];
      assert ms[..i + 1][i] == ms[i];
      var recipe := RecipeOf(ms[i]);
      if recipe.Some? && Unhashable(recipe.value) {
        UnhashableAt(ms, i);
        return [], map[], true;
      }
      recipes, groups := AddRecipe(ms[..i], ms[i], recipes, groups);
    }
    assert ms[..|ms|] == ms;
  }

  /** One pass of the grouping loop: `recipe_stats[recipe]` counts the
      measurement and appends its date. */
  method AddRecipe(ghost init: seq<Entries>, m: Entries, recipes: seq<Value>, groups: map<Value, Group>)
    returns (recipes': seq<Value>, groups': map<Value, Group>)
    requires recipes == RecipeOrder(init) && groups == Grouping(init)
    ensures recipes' == RecipeOrder(init + [m]) && groups' == Grouping(init + [m])
  {
    assert (init + [m])[..|init|] == init;
    recipes', groups' := recipes, groups;
    var recipe := RecipeOf(m);
    if recipe.Some? {
      var key := recipe.value;
      GroupingMeaning(init, key);
      var entry := if key in groups then groups[key] else Group(0, []);
      if key !in groups {
        recipes' := recipes + [key];
      }
      groups' := groups[key := Group(entry.count + 1, entry.dates + [DateOf(m)])];
    }
    assert groups' == AddTo(groups, m);
  }

  /** The formatting loop over the grouped recipes. */
  method FormatStats(ms: seq<Entries>, recipes: seq<Value>, groups: map<Value, Group>)
    returns (r: Option<seq<RecipeStat>>)
    requires recipes == RecipeOrder(ms) && groups == Grouping(ms)
    ensures r == StatsOf(ms, recipes)
  {
    var stats: seq<RecipeStat> := [];
    for j := 0 to |recipes|
      invariant StatsOf(ms, recipes[..j]) == Some(stats)
    {
      assert recipes[..j + 1][..j] == recipes[..j];
      var v := recipes[j];
      GroupingMeaning(ms, v);
      var row := FormatRow(v, groups[v]);
      if row.None? {
        StatsOfNone(ms, recipes, j);
        return None;
      }
      stats := stats + [row.value];
    }
    assert recipes[..|recipes|] == recipes;
    r := Some(stats);
  }

  /** One row: the recipe's dates sorted, the first and the last of them. */
  method FormatRow(v: Value, entry: Group) returns (row: Option<RecipeStat>)
    ensures row == StatFrom(v, entry.count, entry.dates)
  {
    var dates := PySorted(entry.dates);
    if dates.None? {
      return None;
    }
    var sorted := dates.value;
    var earliest := if sorted == [] then None else Some(sorted[0]);
    var latest := if sorted == [] then None else Some(sorted[|sorted| - 1]);
    row := Some(RecipeStat(v, entry.count, earliest, latest));
  }

  /** Once one row fails to format, the whole statistics fail. */
  lemma {:induction false} StatsOfNone(ms: seq<Entries>, rs: seq<Value>, j: nat)
    requires j < |rs| && StatOf(ms, rs[j]).None?
    ensures StatsOf(ms, rs).None?
    decreases |rs|
  {
    if j < |rs| - 1 {
      assert rs[..|rs| - 1][j] == rs[j];
      StatsOfNone(ms, rs[..|rs| - 1], j);
    }
  }
}
