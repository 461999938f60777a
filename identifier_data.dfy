/** The front-end's dummy measurement history: the keys each row is filed
    under, the newest-first dataset, and the first-page search over it. The
    random generator itself is an input: the model takes the generated rows
    as given. */
module IdentifierData {
  import opened Common
  import opened Text
  import opened Sorting
  import opened ExportUtils

  /** One generated row. `event_time` is the millisecond timestamp that the
      row's ISO string stands for. */
  datatype Measurement = Measurement(
    fab: string, lot_id: string, wf_id: int, lot_wf: string, group_key: string,
    point: int, x_axis: string, y_axis: string, parameter: string, value: real,
    event_time: int, rcp_id: string)

  /** The most rows a search returns. */
  const PageSize: nat := 20

  /** `${lot_id}_${wf_id}` */
  function LotWf(lot_id: string, wf_id: int): string {
    lot_id + "_" + IntString(wf_id)
  }

  /** `${fab}_${lot_id}_${wf_id}` */
  function GroupKey(fab: string, lot_id: string, wf_id: int): string {
    fab + "_" + lot_id + "_" + IntString(wf_id)
  }

  lemma IntStringNoUnderscore(i: int)
    ensures '_' !in IntString(i)
  {
  }

  /** Different integers print differently. */
  lemma IntStringInjective(a: int, b: int)
    requires IntString(a) == IntString(b)
    ensures a == b
  {
    if a < 0 && b < 0 {
      assert NatToString(-a) == IntString(a)[1..] == IntString(b)[1..] == NatToString(-b);
    }
  }

  /** For a fab and a lot id without `_`, the group key splits back into
      its three parts and extends the lot/wafer key. */
  lemma GroupKeyParts(fab: string, lot_id: string, wf_id: int)
    requires '_' !in fab && '_' !in lot_id
    ensures Split(GroupKey(fab, lot_id, wf_id), '_') == [fab, lot_id, IntString(wf_id)]
    ensures GroupKey(fab, lot_id, wf_id) == fab + "_" + LotWf(lot_id, wf_id)
  {
    var w := IntString(wf_id);
    IntStringNoUnderscore(wf_id);
    assert GroupKey(fab, lot_id, wf_id) == fab + ['_'] + (lot_id + ['_'] + w);
    SplitAtFirst(fab, '_', lot_id + ['_'] + w);
    SplitAtFirst(lot_id, '_', w);
    SplitNone(w, '_');
  }

  /** Such a group key determines the fab, the lot and the wafer. */
  lemma GroupKeyInjective(fab: string, lot_id: string, wf_id: int, fab': string, lot_id': string, wf_id': int)
    requires '_' !in fab && '_' !in lot_id && '_' !in fab' && '_' !in lot_id'
    requires GroupKey(fab, lot_id, wf_id) == GroupKey(fab', lot_id', wf_id')
    ensures fab == fab' && lot_id == lot_id' && wf_id == wf_id'
  {
    GroupKeyParts(fab, lot_id, wf_id);
    GroupKeyParts(fab', lot_id', wf_id');
    IntStringInjective(wf_id, wf_id');
  }

  /** `(a, b) => new Date(b.event_time) - new Date(a.event_time)` */
  function NewestFirst(): (Measurement, Measurement) -> bool {
    DescByInt((m: Measurement) => m.event_time)
  }

  /** The dataset: the generated rows, newest first. */
  function Dataset(generated: seq<Measurement>): seq<Measurement> {
    Sort(generated, NewestFirst())
  }

  /** The dataset holds exactly the generated rows, newest first. */
  lemma DatasetOrdered(generated: seq<Measurement>)
    ensures multiset(Dataset(generated)) == multiset(generated)
    ensures Sorted(Dataset(generated), NewestFirst())
  {
    SortPermutes(generated, NewestFirst());
    DescByIntPreorder((m: Measurement) => m.event_time);
    SortSorted(generated, NewestFirst());
  }

  /** The row's fab, lot id, group key, recipe or parameter contains the
      lower-cased query, compared in lower case. */
  predicate Hit(m: Measurement, lowerQuery: string) {
    Contains(Lower(m.fab), lowerQuery) || Contains(Lower(m.lot_id), lowerQuery)
    || Contains(Lower(m.group_key), lowerQuery) || Contains(Lower(m.rcp_id), lowerQuery)
    || Contains(Lower(m.parameter), lowerQuery)
  }

  function Hits(lowerQuery: string): Measurement -> bool {
    m => Hit(m, lowerQuery)
  }

  /** `.slice(0, 20)` */
  function Page<T>(s: seq<T>): seq<T> {
    s[..Min(PageSize, |s|)]
  }

  /** `searchMeasurementHistory(query)`; `None` is `undefined` or `null`. */
  function SearchMeasurementHistory(data: seq<Measurement>, query: Option<string>): (r: seq<Measurement>)
    ensures |r| <= PageSize
    ensures forall i :: 0 <= i < |r| ==> r[i] in data
    ensures query.None? || query.value == "" ==> |r| == Min(PageSize, |data|)
    ensures query.None? || query.value == "" ==> forall i :: 0 <= i < |r| ==> r[i] == data[i]
  {
    if query.None? || query.value == "" then Page(data)
    else Page(Filter(data, Hits(Lower(query.value))))
  }

  /** With a query the search returns the first twenty matching rows in
      dataset order: every row returned matches, and while there are at most
      twenty matches each matching row is returned. */
  lemma {:induction false} QueryFirstMatches(data: seq<Measurement>, q: string, m: Measurement)
    requires q != ""
    ensures var r := SearchMeasurementHistory(data, Some(q));
      |r| == Min(PageSize, |Filter(data, Hits(Lower(q)))|)
      && r == Filter(data, Hits(Lower(q)))[..|r|]
      && (m in r ==> m in data && Hit(m, Lower(q)))
      && (|Filter(data, Hits(Lower(q)))| <= PageSize ==> (m in r <==> m in data && Hit(m, Lower(q))))
  {
    var f := Filter(data, Hits(Lower(q)));
    var r := SearchMeasurementHistory(data, Some(q));
    if m in r {
      var i :| 0 <= i < |r| && r[i] == m;
      assert f[i] == m;
    }
    if |f| <= PageSize {
      assert r == f;
      if m in data && Hit(m, Lower(q)) {
        var i :| 0 <= i < |data| && data[i] == m;
        assert Hits(Lower(q))(data[i]);
      }
    }
  }

  lemma {:induction false} FilterSorted<T>(s: seq<T>, p: T -> bool, le: (T, T) -> bool)
    requires Sorted(s, le)
    ensures Sorted(Filter(s, p), le)
  {
    if s != [] {
      FilterSorted(s[1..], p, le);
      var t := Filter(s[1..], p);
      forall j | 0 <= j < |t| ensures le(s[0], t[j]) {
        var k :| 0 <= k < |s[1..]| && s[1..][k] == t[j];
        assert s[k + 1] == t[j];
      }
    }
  }

  /** Searching the dataset keeps it newest first. */
  lemma SearchNewestFirst(generated: seq<Measurement>, query: Option<string>)
    ensures Sorted(SearchMeasurementHistory(Dataset(generated), query), NewestFirst())
  {
    DatasetOrdered(generated);
    var data := Dataset(generated);
    if !(query.None? || query.value == "") {
      FilterSorted(data, Hits(Lower(query.value)), NewestFirst());
    }
  }
}
