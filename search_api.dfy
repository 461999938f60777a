/** The front-end's dummy grouped search: the rows the history search
    returns, folded into one group per `group_key` and sorted newest first. */
module SearchApi {
  import opened Common
  import opened Sorting
  import opened IdentifierData

  /** One measured point of a group. */
  datatype Point = Point(point: int, x_axis: string, y_axis: string, parameter: string, value: real)

  /** One wafer's group: the fields of its first row, the latest time of any
      of its rows, and the points of all of them. */
  datatype Group = Group(
    fab: string, lot_id: string, wf_id: int, lot_wf: string, group_key: string,
    rcp_id: string, event_time: int, points: seq<Point>)

  function PointOf(m: Measurement): Point {
    Point(m.point, m.x_axis, m.y_axis, m.parameter, m.value)
  }

  /** The group `acc.push` starts for a row with a new key. */
  function NewGroup(m: Measurement): Group {
    Group(m.fab, m.lot_id, m.wf_id, m.lot_wf, m.group_key, m.rcp_id, m.event_time, [PointOf(m)])
  }

  /** A row added to its existing group: its point is pushed, and its time
      replaces the group's when it is later. */
  function Absorb(g: Group, m: Measurement): Group {
    g.(points := g.points + [PointOf(m)],
       event_time := if m.event_time > g.event_time then m.event_time else g.event_time)
  }

  /** `acc.find(item => item.group_key === key)`, as a position. */
  function FindGroup(acc: seq<Group>, key: string): (r: Option<nat>)
    ensures r.None? <==> forall j :: 0 <= j < |acc| ==> acc[j].group_key != key
    ensures r.Some? ==> r.value < |acc| && acc[r.value].group_key == key
  {
    if acc == [] then None
    else if acc[0].group_key == key then Some(0)
    else
      var r := FindGroup(acc[1..], key);
      if r.Some? then Some(r.value + 1) else None
  }

  // Reference definition of the grouping.

  function GroupKeys(rs: seq<Measurement>): (r: seq<string>)
    ensures |r| == |rs|
    ensures forall i :: 0 <= i < |rs| ==> r[i] == rs[i].group_key
  {
    seq(|rs|, i requires 0 <= i < |rs| => rs[i].group_key)
  }

  function WithKey(key: string): Measurement -> bool {
    (m: Measurement) => m.group_key == key
  }

  /** The rows filed under `key`, in input order. */
  function Members(rs: seq<Measurement>, key: string): seq<Measurement> {
    Filter(rs, WithKey(key))
  }

  function PointList(ms: seq<Measurement>): (r: seq<Point>)
    ensures |r| == |ms|
  {
    seq(|ms|, i requires 0 <= i < |ms| => PointOf(ms[i]))
  }

  /** The latest time among the rows. */
  function Latest(ms: seq<Measurement>): int
    requires ms != []
  {
    if |ms| == 1 then ms[0].event_time else Max(Latest(ms[..|ms| - 1]), ms[|ms| - 1].event_time)
  }

  lemma KeyHasMembers(rs: seq<Measurement>, key: string)
    requires key in GroupKeys(rs)
    ensures Members(rs, key) != []
  {
    var i :| 0 <= i < |rs| && GroupKeys(rs)[i] == key;
    assert WithKey(key)(rs[i]);
  }

  lemma NoMembers(rs: seq<Measurement>, key: string)
    requires key !in GroupKeys(rs)
    ensures Members(rs, key) == []
  {
    assert forall i :: 0 <= i < |rs| ==> !WithKey(key)(rs[i]);
    FilterNone(rs, WithKey(key));
  }

  /** The group that rows `ms`, all filed under `key`, make. */
  function GroupOf(ms: seq<Measurement>, key: string): Group
    requires ms != []
  {
    var f := ms[0];
    Group(f.fab, f.lot_id, f.wf_id, f.lot_wf, key, f.rcp_id, Latest(ms), PointList(ms))
  }

  /** The group a key's rows make. */
  function Expected(rs: seq<Measurement>, key: string): Group
    requires key in GroupKeys(rs)
  {
    KeyHasMembers(rs, key);
    GroupOf(Members(rs, key), key)
  }

  /** The groups of the keys `ks`, in that order. */
  function GroupsFor(rs: seq<Measurement>, ks: seq<string>): (r: seq<Group>)
    requires forall k :: k in ks ==> k in GroupKeys(rs)
    ensures |r| == |ks|
  {
    seq(|ks|, j requires 0 <= j < |ks| => Expected(rs, ks[j]))
  }

  /** One group per distinct key, in order of first appearance. */
  function Grouping(rs: seq<Measurement>): (r: seq<Group>)
    ensures |r| == |Dedup(GroupKeys(rs))|
  {
    GroupsFor(rs, Dedup(GroupKeys(rs)))
  }

  // The reduce.

  /** The reduce callback: the row joins the group of its key, or starts
      one at the end. */
  function Step(acc: seq<Group>, m: Measurement): seq<Group> {
    var found := FindGroup(acc, m.group_key);
    if found.Some? then acc[found.value := Absorb(acc[found.value], m)] else acc + [NewGroup(m)]
  }

  /** The reduce's value on a prefix of the rows. */
  function Reduce(rs: seq<Measurement>): seq<Group> {
    if rs == [] then [] else Step(Reduce(rs[..|rs| - 1]), rs[|rs| - 1])
  }

  /** `results.reduce(...)`: each row joins the group of its key, or starts
      one. */
  method GroupResults(results: seq<Measurement>) returns (acc: seq<Group>)
    ensures acc == Grouping(results)
  {
    acc := [];
    var i := 0;
    while i < |results|
      invariant 0 <= i <= |results|
      invariant acc == Reduce(results[..i])
    {
      var m := results[i];
      var existing := FindGroup(acc, m.group_key);
      if existing.Some? {
        var j := existing.value;
        acc := acc[j := Absorb(acc[j], m)];
      } else {
        acc := acc + [NewGroup(m)];
      }
      assert results[..i + 1][..i] == results[..i];
      i := i + 1;
    }
    assert results[..|results|] == results;
    ReduceIsGrouping(results);
  }

  lemma MembersSnoc(rs: seq<Measurement>, m: Measurement, key: string)
    ensures Members(rs + [m], key) == Members(rs, key) + (if m.group_key == key then [m] else [])
  {
    FilterAppend(rs, [m], WithKey(key));
    FilterSingle(m, WithKey(key));
  }

  lemma GroupKeysSnoc(rs: seq<Measurement>, m: Measurement)
    ensures GroupKeys(rs + [m]) == GroupKeys(rs) + [m.group_key]
  {
  }

  lemma LatestSnoc(ms: seq<Measurement>, m: Measurement)
    requires ms != []
    ensures Latest(ms + [m]) == Max(Latest(ms), m.event_time)
  {
    assert (ms + [m])[..|ms|] == ms;
  }

  lemma PointListSnoc(ms: seq<Measurement>, m: Measurement)
    ensures PointList(ms + [m]) == PointList(ms) + [PointOf(m)]
  {
  }

  /** A key other than the new row's keeps its group. */
  lemma ExpectedOther(rs: seq<Measurement>, m: Measurement, key: string)
    requires key in GroupKeys(rs) && key != m.group_key
    ensures key in GroupKeys(rs + [m])
    ensures Expected(rs + [m], key) == Expected(rs, key)
  {
    GroupKeysSnoc(rs, m);
    MembersSnoc(rs, m, key);
    var ms := Members(rs, key);
    assert Members(rs + [m], key) == ms + [] == ms;
    KeyHasMembers(rs, key);
    assert Expected(rs + [m], key) == GroupOf(ms, key);
  }

  /** The new row's key, when it has a group, absorbs the row. */
  lemma ExpectedAbsorb(rs: seq<Measurement>, m: Measurement)
    requires m.group_key in GroupKeys(rs)
    ensures m.group_key in GroupKeys(rs + [m])
    ensures Expected(rs + [m], m.group_key) == Absorb(Expected(rs, m.group_key), m)
  {
    var key := m.group_key;
    GroupKeysSnoc(rs, m);
    MembersSnoc(rs, m, key);
    KeyHasMembers(rs, key);
    var ms := Members(rs, key);
    LatestSnoc(ms, m);
    PointListSnoc(ms, m);
    assert (ms + [m])[0] == ms[0];
    assert Expected(rs + [m], key) == GroupOf(ms + [m], key);
  }

  /** A new key starts the row's own group. */
  lemma ExpectedNew(rs: seq<Measurement>, m: Measurement)
    requires m.group_key !in GroupKeys(rs)
    ensures m.group_key in GroupKeys(rs + [m])
    ensures Expected(rs + [m], m.group_key) == NewGroup(m)
  {
    var key := m.group_key;
    GroupKeysSnoc(rs, m);
    MembersSnoc(rs, m, key);
    NoMembers(rs, key);
    assert Members(rs + [m], key) == [m];
    assert Expected(rs + [m], key) == GroupOf([m], key);
  }

  /** Every group carries the key it was made for. */
  lemma GroupingKeys(rs: seq<Measurement>)
    ensures forall j :: 0 <= j < |Grouping(rs)| ==> Grouping(rs)[j].group_key == Dedup(GroupKeys(rs))[j]
  {
  }

  /** The groups of keys other than the new row's stay as they were. */
  lemma GroupsForOther(rs: seq<Measurement>, m: Measurement, ks: seq<string>)
    requires forall k :: k in ks ==> k in GroupKeys(rs)
    requires m.group_key !in ks
    ensures forall k :: k in ks ==> k in GroupKeys(rs + [m])
    ensures GroupsFor(rs + [m], ks) == GroupsFor(rs, ks)
  {
    GroupKeysSnoc(rs, m);
    forall j | 0 <= j < |ks| ensures GroupsFor(rs + [m], ks)[j] == GroupsFor(rs, ks)[j] {
      ExpectedOther(rs, m, ks[j]);
    }
  }

  /** Among distinct keys, only the new row's group changes: it absorbs the
      row. */
  lemma GroupsForAbsorb(rs: seq<Measurement>, m: Measurement, ks: seq<string>, j: nat)
    requires forall k :: k in ks ==> k in GroupKeys(rs)
    requires NoDuplicates(ks) && j < |ks| && ks[j] == m.group_key
    ensures forall k :: k in ks ==> k in GroupKeys(rs + [m])
    ensures GroupsFor(rs + [m], ks) == GroupsFor(rs, ks)[j := Absorb(GroupsFor(rs, ks)[j], m)]
  {
    GroupKeysSnoc(rs, m);
    var acc := GroupsFor(rs, ks);
    forall k | 0 <= k < |ks| ensures GroupsFor(rs + [m], ks)[k] == acc[j := Absorb(acc[j], m)][k] {
      if k == j {
        ExpectedAbsorb(rs, m);
      } else {
        ExpectedOther(rs, m, ks[k]);
      }
    }
  }

  lemma GroupsForSnoc(rs: seq<Measurement>, ks: seq<string>, k: string)
    requires forall k' :: k' in ks + [k] ==> k' in GroupKeys(rs)
    ensures GroupsFor(rs, ks + [k]) == GroupsFor(rs, ks) + [Expected(rs, k)]
  {
  }

  /** A row whose key already has a group makes that group absorb it. */
  lemma GroupingStepFound(rs: seq<Measurement>, m: Measurement, j: nat)
    requires j < |Grouping(rs)| && Grouping(rs)[j].group_key == m.group_key
    ensures Grouping(rs + [m]) == Grouping(rs)[j := Absorb(Grouping(rs)[j], m)]
  {
    var ks := Dedup(GroupKeys(rs));
    GroupingKeys(rs);
    assert ks[j] == m.group_key;
    GroupKeysSnoc(rs, m);
    DedupSnoc(GroupKeys(rs), m.group_key);
    GroupsForAbsorb(rs, m, ks, j);
  }

  /** A key no group carries is not among the rows' keys. */
  lemma UngroupedKey(rs: seq<Measurement>, key: string)
    requires forall j :: 0 <= j < |Grouping(rs)| ==> Grouping(rs)[j].group_key != key
    ensures key !in Dedup(GroupKeys(rs))
  {
    var ks := Dedup(GroupKeys(rs));
    GroupingKeys(rs);
    forall k | 0 <= k < |ks| ensures ks[k] != key {
      assert Grouping(rs)[k].group_key == ks[k];
    }
  }

  /** A row with a new key adds its own group at the end. */
  lemma GroupingStepNew(rs: seq<Measurement>, m: Measurement)
    requires forall j :: 0 <= j < |Grouping(rs)| ==> Grouping(rs)[j].group_key != m.group_key
    ensures Grouping(rs + [m]) == Grouping(rs) + [NewGroup(m)]
  {
    var ks := Dedup(GroupKeys(rs));
    UngroupedKey(rs, m.group_key);
    GroupKeysSnoc(rs, m);
    DedupSnoc(GroupKeys(rs), m.group_key);
    GroupsForOther(rs, m, ks);
    GroupsForSnoc(rs + [m], ks, m.group_key);
    ExpectedNew(rs, m);
  }

  /** One more row changes the grouping as one step of the reduce does. */
  lemma GroupingStep(rs: seq<Measurement>, m: Measurement)
    ensures Grouping(rs + [m]) == Step(Grouping(rs), m)
  {
    var found := FindGroup(Grouping(rs), m.group_key);
    if found.Some? {
      GroupingStepFound(rs, m, found.value);
    } else {
      GroupingStepNew(rs, m);
    }
  }

  /** The reduce builds exactly the reference grouping. */
  lemma {:induction false} ReduceIsGrouping(rs: seq<Measurement>)
    ensures Reduce(rs) == Grouping(rs)
    decreases |rs|
  {
    if rs == [] {
      assert Dedup(GroupKeys(rs)) == [];
    } else {
      var init := rs[..|rs| - 1];
      assert rs == init + [rs[|rs| - 1]];
      ReduceIsGrouping(init);
      GroupingStep(init, rs[|rs| - 1]);
    }
  }

  // What the grouping promises.

  /** The number of points over all groups. */
  function PointCount(gs: seq<Group>): nat {
    if gs == [] then 0 else PointCount(gs[..|gs| - 1]) + |gs[|gs| - 1].points|
  }

  lemma {:induction false} PointCountUpdate(gs: seq<Group>, j: nat, g: Group)
    requires j < |gs|
    ensures PointCount(gs[j := g]) + |gs[j].points| == PointCount(gs) + |g.points|
    decreases |gs|
  {
    var n := |gs| - 1;
    if j < n {
      PointCountUpdate(gs[..n], j, g);
      assert gs[j := g][..n] == gs[..n][j := g];
    } else {
      assert gs[j := g][..n] == gs[..n];
    }
  }

  lemma PointCountSnoc(gs: seq<Group>, g: Group)
    ensures PointCount(gs + [g]) == PointCount(gs) + |g.points|
  {
    assert (gs + [g])[..|gs|] == gs;
  }

  lemma {:induction false} PointCountAppend(a: seq<Group>, b: seq<Group>)
    ensures PointCount(a + b) == PointCount(a) + PointCount(b)
    decreases |b|
  {
    if b == [] {
      assert a + b == a;
    } else {
      var n := |b| - 1;
      assert (a + b)[..|a + b| - 1] == a + b[..n];
      PointCountAppend(a, b[..n]);
    }
  }

  lemma {:induction false} PointCountInsert(g: Group, gs: seq<Group>, le: (Group, Group) -> bool)
    ensures PointCount(Insert(g, gs, le)) == PointCount(gs) + |g.points|
  {
    if gs == [] {
      assert PointCount([g]) == PointCount([]) + |g.points|;
    } else {
      assert gs == [gs[0]] + gs[1..];
      PointCountAppend([gs[0]], gs[1..]);
      PointCountSnoc([], g);
      if le(gs[0], g) {
        PointCountInsert(g, gs[1..], le);
        PointCountAppend([gs[0]], Insert(g, gs[1..], le));
      } else {
        PointCountAppend([g], gs);
      }
    }
  }

  /** Reordering the groups keeps the number of points. */
  lemma {:induction false} PointCountSort(gs: seq<Group>, le: (Group, Group) -> bool)
    ensures PointCount(Sort(gs, le)) == PointCount(gs)
    decreases |gs|
  {
    if gs != [] {
      var n := |gs| - 1;
      PointCountSort(gs[..n], le);
      PointCountInsert(gs[n], Sort(gs[..n], le), le);
    }
  }

  /** Every row ends up as exactly one point: the groups hold as many points
      as there were rows. */
  lemma {:induction false} PointsPartitionRows(rs: seq<Measurement>)
    ensures PointCount(Grouping(rs)) == |rs|
    decreases |rs|
  {
    if rs != [] {
      var init := rs[..|rs| - 1];
      var m := rs[|rs| - 1];
      assert rs == init + [m];
      PointsPartitionRows(init);
      GroupingStep(init, m);
      var acc := Grouping(init);
      var found := FindGroup(acc, m.group_key);
      if found.Some? {
        PointCountUpdate(acc, found.value, Absorb(acc[found.value], m));
      } else {
        PointCountSnoc(acc, NewGroup(m));
      }
    }
  }

  /** There is one group per distinct key of the rows. */
  lemma OneGroupPerKey(rs: seq<Measurement>, key: string)
    ensures (exists j :: 0 <= j < |Grouping(rs)| && Grouping(rs)[j].group_key == key) <==> key in GroupKeys(rs)
    ensures forall i, j :: 0 <= i < j < |Grouping(rs)| ==> Grouping(rs)[i].group_key != Grouping(rs)[j].group_key
  {
    GroupingKeys(rs);
    var ks := Dedup(GroupKeys(rs));
    if key in GroupKeys(rs) {
      var j :| 0 <= j < |ks| && ks[j] == key;
      assert Grouping(rs)[j].group_key == key;
    }
  }

  lemma {:induction false} LatestIsMax(ms: seq<Measurement>)
    requires ms != []
    ensures forall i :: 0 <= i < |ms| ==> ms[i].event_time <= Latest(ms)
    ensures exists i :: 0 <= i < |ms| && ms[i].event_time == Latest(ms)
  {
    if |ms| > 1 {
      var init := ms[..|ms| - 1];
      LatestIsMax(init);
      var n := |ms| - 1;
      assert Latest(ms) == Max(Latest(init), ms[n].event_time);
      forall i | 0 <= i < n ensures ms[i].event_time <= Latest(ms) {
        assert ms[i] == init[i];
      }
      if Latest(init) >= ms[n].event_time {
        var k :| 0 <= k < |init| && init[k].event_time == Latest(init);
        assert ms[k] == init[k];
      } else {
        assert ms[n].event_time == Latest(ms);
      }
    } else {
      assert ms[0].event_time == Latest(ms);
    }
  }

  /** A group lists the points of its rows in input order, and its time is
      the latest of their times. */
  lemma GroupMembers(rs: seq<Measurement>, j: nat)
    requires j < |Grouping(rs)|
    ensures var g := Grouping(rs)[j];
      var ms := Members(rs, g.group_key);
      g.points == PointList(ms)
      && (forall i :: 0 <= i < |ms| ==> ms[i].event_time <= g.event_time)
      && (exists i :: 0 <= i < |ms| && ms[i].event_time == g.event_time)
  {
    GroupingKeys(rs);
    var key := Dedup(GroupKeys(rs))[j];
    KeyHasMembers(rs, key);
    LatestIsMax(Members(rs, key));
  }

  // The async search.

  /** `(a, b) => new Date(b.event_time) - new Date(a.event_time)` */
  function LatestFirst(): (Group, Group) -> bool {
    DescByInt((g: Group) => g.event_time)
  }

  datatype Reply = Reply(success: bool, data: seq<Group>, total: nat, query: Option<string>)

  /** `searchMeasurementsAsync(query)` once its timer fires: the grouped
      search results, newest group first, with their count. */
  method SearchMeasurementsAsync(dataset: seq<Measurement>, query: Option<string>) returns (r: Reply)
    ensures r.success && r.query == query
    ensures r.data == Sort(Grouping(SearchMeasurementHistory(dataset, query)), LatestFirst())
    ensures r.total == |r.data|
  {
    var results := SearchMeasurementHistory(dataset, query);
    var groupedResults := GroupResults(results);
    var sorted := Sort(groupedResults, LatestFirst());
    r := Reply(true, sorted, |sorted|, query);
  }

  /** The reply holds the groups of the search results, newest first. */
  lemma ReplyOrdered(dataset: seq<Measurement>, query: Option<string>)
    ensures var gs := Grouping(SearchMeasurementHistory(dataset, query));
      multiset(Sort(gs, LatestFirst())) == multiset(gs) && Sorted(Sort(gs, LatestFirst()), LatestFirst())
  {
    var gs := Grouping(SearchMeasurementHistory(dataset, query));
    SortPermutes(gs, LatestFirst());
    DescByIntPreorder((g: Group) => g.event_time);
    SortSorted(gs, LatestFirst());
  }

  /** The reply's groups hold as many points as the search returned rows. */
  lemma ReplyPoints(dataset: seq<Measurement>, query: Option<string>)
    ensures var rows := SearchMeasurementHistory(dataset, query);
      PointCount(Sort(Grouping(rows), LatestFirst())) == |rows|
  {
    var rows := SearchMeasurementHistory(dataset, query);
    var gs := Grouping(rows);
    PointsPartitionRows(rows);
    PointCountSort(gs, LatestFirst());
  }

  /** The reply has a group for a key exactly when some result row has that
      key. */
  lemma ReplyKeys(dataset: seq<Measurement>, query: Option<string>, key: string)
    ensures var rows := SearchMeasurementHistory(dataset, query);
      (exists g :: g in Sort(Grouping(rows), LatestFirst()) && g.group_key == key) <==> key in GroupKeys(rows)
  {
    var rows := SearchMeasurementHistory(dataset, query);
    SortKeepsKeys(Grouping(rows), key);
    OneGroupPerKey(rows, key);
  }

  lemma SortKeepsKeys(gs: seq<Group>, key: string)
    ensures (exists g :: g in Sort(gs, LatestFirst()) && g.group_key == key)
      <==> (exists j :: 0 <= j < |gs| && gs[j].group_key == key)
  {
    var data := Sort(gs, LatestFirst());
    SortPermutes(gs, LatestFirst());
    SameMembers(gs, data);
    if exists j :: 0 <= j < |gs| && gs[j].group_key == key {
      var j :| 0 <= j < |gs| && gs[j].group_key == key;
      assert gs[j] in data;
    }
    if exists g :: g in data && g.group_key == key {
      var g :| g in data && g.group_key == key;
      var j :| 0 <= j < |gs| && gs[j] == g;
    }
  }

  /** Groups with the same latest time keep their order of first
      appearance. */
  lemma ReplyStable(dataset: seq<Measurement>, query: Option<string>, e: Group)
    ensures var gs := Grouping(SearchMeasurementHistory(dataset, query));
      Ties(Sort(gs, LatestFirst()), LatestFirst(), e) == Ties(gs, LatestFirst(), e)
  {
    DescByIntPreorder((g: Group) => g.event_time);
    SortStable(Grouping(SearchMeasurementHistory(dataset, query)), LatestFirst(), e);
  }
}
