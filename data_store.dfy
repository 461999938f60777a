/** The front-end's data store (`front-end/src/stores/dataStore.js`): the
    most-recently-viewed history, the working group of measurements, and
    saved snapshots of that group. Every list is kept as a sequence that the
    actions reassign; measurements are the plain objects the pages pass in.
    The clock and `Date.now()` are parameters, and the copies kept in local
    storage are not modelled. */
module DataStore {
  import opened Common
  import opened Text

  /** A measurement object. */
  type Item = Entries

  /** `maxHistoryItems` */
  const MaxHistoryItems: nat := 10

  /** `item.group_key`; `None` is `undefined`. */
  function GroupKey(item: Item): Option<Value> {
    Get(item, "group_key")
  }

  /** `{ ...item, [key]: stamp }`: the stamp replaces an existing value in
      place or is added last. */
  function Stamped(item: Item, key: string, stamp: string): Item {
    Set(item, key, Str(stamp))
  }

  lemma StampKeepsGroupKey(item: Item, key: string, stamp: string)
    requires key != "group_key"
    ensures GroupKey(Stamped(item, key, stamp)) == GroupKey(item)
  {
    GetSetOther(item, key, Str(stamp), "group_key");
  }

  function OtherKey(k: Option<Value>): Item -> bool {
    item => GroupKey(item) != k
  }

  /** `items.filter(item => item.group_key !== k)` */
  function Without(items: seq<Item>, k: Option<Value>): seq<Item> {
    Filter(items, OtherKey(k))
  }

  /** `s.length > n ? s.slice(0, n) : s` */
  function Take<T>(s: seq<T>, n: nat): (r: seq<T>)
    ensures |r| == Min(|s|, n) && r == s[..|r|]
  {
    if |s| > n then s[..n] else s
  }

  /** `a` is `b` with some elements deleted. */
  predicate Subsequence<T(==)>(a: seq<T>, b: seq<T>)
    decreases |b|
  {
    a == [] || (b != [] && ((a[0] == b[0] && Subsequence(a[1..], b[1..])) || Subsequence(a, b[1..])))
  }

  lemma {:induction false} FilterSubsequence<T>(s: seq<T>, p: T -> bool)
    ensures Subsequence(Filter(s, p), s)
    decreases |s|
  {
    if s != [] {
      FilterSubsequence(s[1..], p);
      SubsequenceStep(s[0], Filter(s[1..], p), s[1..], Filter(s, p), s);
    }
  }

  /** Prefixing `b` with `x` keeps `a` a subsequence, whether or not `x` is
      kept in front of `a`. */
  lemma SubsequenceStep<T>(x: T, a: seq<T>, b: seq<T>, xa: seq<T>, xb: seq<T>)
    requires Subsequence(a, b) && xb == [x] + b
    requires xa == [x] + a || xa == a
    ensures Subsequence(xa, xb)
  {
    assert xb[1..] == b;
    if xa == [x] + a {
      assert xa[1..] == a;
    }
  }

  /** No two items share a group key. */
  predicate UniqueGroupKeys(items: seq<Item>) {
    forall i, j :: 0 <= i < j < |items| ==> GroupKey(items[i]) != GroupKey(items[j])
  }

  /** `isInGroup(k)`: some item has group key `k`. */
  predicate InGroup(items: seq<Item>, k: Option<Value>) {
    exists i :: 0 <= i < |items| && GroupKey(items[i]) == k
  }

  // ---------- view history ----------

  /** The history after `addToHistory(m)` at time `now`. */
  function AddedToHistory(history: seq<Item>, m: Item, now: string): seq<Item> {
    Take([Stamped(m, "viewedAt", now)] + Without(history, GroupKey(m)), MaxHistoryItems)
  }

  /** The viewed measurement comes first, its group key occurs nowhere else,
      at most ten entries are kept, and the others are the earliest of the
      previous entries with another key, in their previous order. */
  lemma HistoryAdded(history: seq<Item>, m: Item, now: string)
    ensures var r := AddedToHistory(history, m, now);
      && 1 <= |r| <= MaxHistoryItems
      && r[0] == Stamped(m, "viewedAt", now) && GroupKey(r[0]) == GroupKey(m)
      && (forall i :: 1 <= i < |r| ==> GroupKey(r[i]) != GroupKey(m))
      && r[1..] == Take(Without(history, GroupKey(m)), MaxHistoryItems - 1)
      && Subsequence(Without(history, GroupKey(m)), history)
  {
    var k := GroupKey(m);
    var w := Without(history, k);
    var r := AddedToHistory(history, m, now);
    TakeCons(Stamped(m, "viewedAt", now), w, MaxHistoryItems, r);
    StampKeepsGroupKey(m, "viewedAt", now);
    forall i | 1 <= i < |r| ensures GroupKey(r[i]) != k {
      assert r[i] == w[i - 1];
      assert OtherKey(k)(w[i - 1]);
    }
    FilterSubsequence(history, OtherKey(k));
  }

  lemma TakeCons<T>(x: T, w: seq<T>, n: nat, r: seq<T>)
    requires 1 <= n && r == Take([x] + w, n)
    ensures 1 <= |r| <= n && r[0] == x && r[1..] == Take(w, n - 1)
    ensures forall i :: 1 <= i < |r| ==> r[i] == w[i - 1]
  {
    assert r[1..] == w[..|r| - 1];
  }

  /** Unique group keys in the history stay unique. */
  lemma HistoryStaysUnique(history: seq<Item>, m: Item, now: string)
    requires UniqueGroupKeys(history)
    ensures UniqueGroupKeys(AddedToHistory(history, m, now))
  {
    var w := Without(history, GroupKey(m));
    FilterUnique(history, OtherKey(GroupKey(m)));
    HistoryAdded(history, m, now);
    var r := AddedToHistory(history, m, now);
    TakeCons(Stamped(m, "viewedAt", now), w, MaxHistoryItems, r);
  }

  lemma {:induction false} FilterUnique(s: seq<Item>, p: Item -> bool)
    requires UniqueGroupKeys(s)
    ensures UniqueGroupKeys(Filter(s, p))
    decreases |s|
  {
    if s != [] {
      var t := s[1..];
      assert UniqueGroupKeys(t) by {
        forall i, j | 0 <= i < j < |t| ensures GroupKey(t[i]) != GroupKey(t[j]) {
          assert t[i] == s[i + 1] && t[j] == s[j + 1];
        }
      }
      FilterUnique(t, p);
      if p(s[0]) {
        var f := Filter(t, p);
        forall k | 0 <= k < |f| ensures GroupKey(f[k]) != GroupKey(s[0]) {
          assert f[k] in t;
          var m :| 0 <= m < |t| && t[m] == f[k];
          assert s[m + 1] == f[k];
        }
        ConsUnique(s[0], f);
      }
    }
  }

  lemma ConsUnique(x: Item, f: seq<Item>)
    requires UniqueGroupKeys(f)
    requires forall k :: 0 <= k < |f| ==> GroupKey(f[k]) != GroupKey(x)
    ensures UniqueGroupKeys([x] + f)
  {
    ConsIndex(x, f);
  }

  lemma ConsIndex<T>(x: T, f: seq<T>)
    ensures ([x] + f)[0] == x
    ensures forall j :: 1 <= j <= |f| ==> ([x] + f)[j] == f[j - 1]
  {
  }

  // ---------- the working group ----------

  /** The group after `addToGroup(m)` at time `now`. */
  function AddedToGroup(group: seq<Item>, m: Item, now: string): seq<Item> {
    if InGroup(group, GroupKey(m)) then group else group + [Stamped(m, "addedAt", now)]
  }

  /** Adding is a no-op exactly when the group key is present already;
      otherwise the stamped measurement goes last. Group keys stay unique. */
  lemma GroupAdded(group: seq<Item>, m: Item, now: string)
    ensures InGroup(group, GroupKey(m)) ==> AddedToGroup(group, m, now) == group
    ensures !InGroup(group, GroupKey(m)) ==> AddedToGroup(group, m, now) == group + [Stamped(m, "addedAt", now)]
    ensures InGroup(AddedToGroup(group, m, now), GroupKey(m))
    ensures UniqueGroupKeys(group) ==> UniqueGroupKeys(AddedToGroup(group, m, now))
  {
    var r := AddedToGroup(group, m, now);
    StampKeepsGroupKey(m, "addedAt", now);
    if !InGroup(group, GroupKey(m)) {
      assert GroupKey(r[|group|]) == GroupKey(m);
      if UniqueGroupKeys(group) {
        forall i, j | 0 <= i < j < |r| ensures GroupKey(r[i]) != GroupKey(r[j]) {
          if j == |group| {
            assert r[i] == group[i];
          }
        }
      }
    }
  }

  /** `removeFromGroup(k)`: every item with that key goes, every other one
      stays. */
  lemma GroupRemoved(group: seq<Item>, k: Option<Value>)
    ensures !InGroup(Without(group, k), k)
    ensures forall i :: 0 <= i < |group| && GroupKey(group[i]) != k ==> group[i] in Without(group, k)
    ensures Subsequence(Without(group, k), group)
  {
    var r := Without(group, k);
    forall i | 0 <= i < |r| ensures GroupKey(r[i]) != k {
      assert OtherKey(k)(r[i]);
    }
    forall i | 0 <= i < |group| && GroupKey(group[i]) != k ensures group[i] in r {
      assert OtherKey(k)(group[i]);
    }
    FilterSubsequence(group, OtherKey(k));
  }

  /** Removing a measurement just added to a group that did not hold its
      key gives back the group. */
  lemma RemoveUndoesAdd(group: seq<Item>, m: Item, now: string)
    requires !InGroup(group, GroupKey(m))
    ensures Without(AddedToGroup(group, m, now), GroupKey(m)) == group
  {
    var p := OtherKey(GroupKey(m));
    StampKeepsGroupKey(m, "addedAt", now);
    FilterAppend(group, [Stamped(m, "addedAt", now)], p);
    assert Filter([Stamped(m, "addedAt", now)], p) == [];
    forall i | 0 <= i < |group| ensures p(group[i]) {
      assert GroupKey(group[i]) != GroupKey(m);
    }
    FilterAll(group, p);
  }

  // ---------- saved groups ----------

  /** A saved group: one entry of `groupHistory`. */
  datatype Snapshot = Snapshot(
    id: string,
    name: string,
    description: string,
    items: seq<Item>,
    createdAt: string,
    itemCount: nat)

  /** The snapshot `saveCurrentGroupAsHistory(name, description)` makes from
      the trimmed description `trimmed`: an empty name is replaced by
      `defaultName` (the dated default), and the item count is the group's
      length. */
  function SnapshotOf(group: seq<Item>, name: string, defaultName: string, trimmed: string, id: string, now: string): Snapshot {
    Snapshot(id, if name != "" then name else defaultName, trimmed, group, now, |group|)
  }

  function OtherName(name: string): Snapshot -> bool {
    (s: Snapshot) => s.name != name
  }

  function OtherId(id: string): Snapshot -> bool {
    (s: Snapshot) => s.id != id
  }

  function HasId(id: string): Snapshot -> bool {
    (s: Snapshot) => s.id == id
  }

  /** The saved groups after `saveCurrentGroupAsHistory`. */
  function SavedAsHistory(saved: seq<Snapshot>, group: seq<Item>, name: string, defaultName: string,
                          trimmed: string, id: string, now: string): seq<Snapshot>
  {
    if group == [] then saved
    else
      var snap := SnapshotOf(group, name, defaultName, trimmed, id, now);
      Take([snap] + Filter(saved, OtherName(snap.name)), MaxHistoryItems)
  }

  /** An empty group saves nothing; otherwise the new snapshot comes first
      holding the whole group and its size, no other snapshot has its name,
      and at most ten are kept. */
  lemma HistorySaved(saved: seq<Snapshot>, group: seq<Item>, name: string, defaultName: string,
                     trimmed: string, id: string, now: string)
    ensures group == [] ==> SavedAsHistory(saved, group, name, defaultName, trimmed, id, now) == saved
    ensures group != [] ==>
      var r := SavedAsHistory(saved, group, name, defaultName, trimmed, id, now);
      && 1 <= |r| <= MaxHistoryItems
      && r[0].items == group && r[0].itemCount == |group| && r[0].id == id
      && r[0].name == (if name != "" then name else defaultName)
      && forall i :: 1 <= i < |r| ==> r[i].name != r[0].name
  {
    if group != [] {
      var snap := SnapshotOf(group, name, defaultName, trimmed, id, now);
      var f := Filter(saved, OtherName(snap.name));
      var r := SavedAsHistory(saved, group, name, defaultName, trimmed, id, now);
      forall i | 1 <= i < |r| ensures r[i].name != r[0].name {
        assert r[i] == f[i - 1];
        assert OtherName(snap.name)(f[i - 1]);
      }
    }
  }

  /** The group after `loadGroupFromHistory(id)`: the items of the first
      snapshot with that id, or the group unchanged. */
  function LoadedFromHistory(saved: seq<Snapshot>, group: seq<Item>, id: string): seq<Item> {
    match First(saved, HasId(id))
    case Some(s) => s.items
    case None => group
  }

  /** An unknown id leaves the group alone. */
  lemma LoadUnknown(saved: seq<Snapshot>, group: seq<Item>, id: string)
    requires forall i :: 0 <= i < |saved| ==> saved[i].id != id
    ensures LoadedFromHistory(saved, group, id) == group
  {
    assert First(saved, HasId(id)).None? by {
      forall i | 0 <= i < |saved| ensures !HasId(id)(saved[i]) { }
    }
  }

  /** Loading the snapshot just saved restores the group that was saved. */
  lemma SaveThenLoad(saved: seq<Snapshot>, group: seq<Item>, name: string, defaultName: string,
                     trimmed: string, id: string, now: string, current: seq<Item>)
    requires group != []
    ensures LoadedFromHistory(SavedAsHistory(saved, group, name, defaultName, trimmed, id, now), current, id) == group
  {
    var r := SavedAsHistory(saved, group, name, defaultName, trimmed, id, now);
    HistorySaved(saved, group, name, defaultName, trimmed, id, now);
    assert HasId(id)(r[0]);
  }

  /** `removeFromGroupHistory(id)` */
  function RemovedFromGroupHistory(saved: seq<Snapshot>, id: string): seq<Snapshot> {
    Filter(saved, OtherId(id))
  }

  /** After removing a snapshot, loading its id changes nothing, and every
      snapshot with another id is kept. */
  lemma RemoveThenLoad(saved: seq<Snapshot>, id: string, group: seq<Item>)
    ensures LoadedFromHistory(RemovedFromGroupHistory(saved, id), group, id) == group
    ensures forall i :: 0 <= i < |saved| && saved[i].id != id ==> saved[i] in RemovedFromGroupHistory(saved, id)
  {
    var r := RemovedFromGroupHistory(saved, id);
    forall i | 0 <= i < |r| ensures r[i].id != id {
      assert OtherId(id)(r[i]);
    }
    LoadUnknown(r, group, id);
    forall i | 0 <= i < |saved| && saved[i].id != id ensures saved[i] in r {
      assert OtherId(id)(saved[i]);
    }
  }

  /** The store. Its three lists start from what local storage held, or
      empty when nothing (or nothing readable) was stored. */
  class Store {
    var viewHistory: seq<Item>
    var groupedData: seq<Item>
    var groupHistory: seq<Snapshot>

    constructor (storedHistory: Option<seq<Item>>, storedGroup: Option<seq<Item>>, storedSaved: Option<seq<Snapshot>>)
      ensures viewHistory == (if storedHistory.Some? then storedHistory.value else [])
      ensures groupedData == (if storedGroup.Some? then storedGroup.value else [])
      ensures groupHistory == (if storedSaved.Some? then storedSaved.value else [])
    {
      viewHistory := if storedHistory.Some? then storedHistory.value else [];
      groupedData := if storedGroup.Some? then storedGroup.value else [];
      groupHistory := if storedSaved.Some? then storedSaved.value else [];
    }

    function HistoryCount(): (r: nat)
      reads this
      ensures r == |viewHistory|
    {
      |viewHistory|
    }

    function GroupedCount(): (r: nat)
      reads this
      ensures r == |groupedData|
    {
      |groupedData|
    }

    function GroupHistoryCount(): (r: nat)
      reads this
      ensures r == |groupHistory|
    {
      |groupHistory|
    }

    /** `isInGroup(k)` */
    predicate IsInGroup(k: Option<Value>)
      reads this
    {
      InGroup(groupedData, k)
    }

    method AddToHistory(m: Item, now: string)
      modifies this
      ensures viewHistory == AddedToHistory(old(viewHistory), m, now)
      ensures groupedData == old(groupedData) && groupHistory == old(groupHistory)
    {
      viewHistory := Without(viewHistory, GroupKey(m));
      viewHistory := [Stamped(m, "viewedAt", now)] + viewHistory;
      if |viewHistory| > MaxHistoryItems {
        viewHistory := viewHistory[..MaxHistoryItems];
      }
    }

    method ClearHistory()
      modifies this
      ensures viewHistory == []
      ensures groupedData == old(groupedData) && groupHistory == old(groupHistory)
    {
      viewHistory := [];
    }

    method AddToGroup(m: Item, now: string)
      modifies this
      ensures groupedData == AddedToGroup(old(groupedData), m, now)
      ensures viewHistory == old(viewHistory) && groupHistory == old(groupHistory)
    {
      if !IsInGroup(GroupKey(m)) {
        groupedData := groupedData + [Stamped(m, "addedAt", now)];
      }
    }

    method RemoveFromGroup(k: Option<Value>)
      modifies this
      ensures groupedData == Without(old(groupedData), k)
      ensures viewHistory == old(viewHistory) && groupHistory == old(groupHistory)
    {
      groupedData := Without(groupedData, k);
    }

    method ClearGroup()
      modifies this
      ensures groupedData == []
      ensures viewHistory == old(viewHistory) && groupHistory == old(groupHistory)
    {
      groupedData := [];
    }

    /** The description's `trim()`, computed apart so that saving the
        group reasons about the trimmed text only through this equation. */
    static method TrimDescription(d: string) returns (t: string)
      ensures t == JsTrim(d)
    {
      t := JsTrim(d);
    }

    method SaveCurrentGroupAsHistory(name: string, defaultName: string, description: string, id: string, now: string)
      modifies this
      ensures groupHistory == SavedAsHistory(old(groupHistory), old(groupedData), name, defaultName, JsTrim(description), id, now)
      ensures viewHistory == old(viewHistory) && groupedData == old(groupedData)
    {
      if |groupedData| == 0 {
        return;
      }
      var trimmed := TrimDescription(description);
      var snap := SnapshotOf(groupedData, name, defaultName, trimmed, id, now);
      var next := Filter(groupHistory, OtherName(snap.name));
      next := [snap] + next;
      if |next| > MaxHistoryItems {
        next := next[..MaxHistoryItems];
      }
      assert next == SavedAsHistory(groupHistory, groupedData, name, defaultName, trimmed, id, now);
      groupHistory := next;
    }

    method LoadGroupFromHistory(id: string)
      modifies this
      ensures groupedData == LoadedFromHistory(old(groupHistory), old(groupedData), id)
      ensures viewHistory == old(viewHistory) && groupHistory == old(groupHistory)
    {
      var found := First(groupHistory, HasId(id));
      if found.Some? {
        groupedData := found.value.items;
      }
    }

    method RemoveFromGroupHistory(id: string)
      modifies this
      ensures groupHistory == RemovedFromGroupHistory(old(groupHistory), id)
      ensures viewHistory == old(viewHistory) && groupedData == old(groupedData)
    {
      groupHistory := Filter(groupHistory, OtherId(id));
    }

    method ClearGroupHistory()
      modifies this
      ensures groupHistory == []
      ensures viewHistory == old(viewHistory) && groupedData == old(groupedData)
    {
      groupHistory := [];
    }
  }
}
