/** The column ordering of the results page
    (`front-end/src/composables/useKeyOrdering.js`): the keys the loaded
    measurements offer, the user's order over them, and the reordering of
    each measurement object for display. A measurement is an object, so its
    entries have distinct keys and the value listed under a key is the one
    `measurement[key]` reads. */
module KeyOrdering {
  import opened Common
  import opened Sorting

  /** `defaultKeyOrder` */
  const DefaultKeyOrder: seq<string> :=
    ["filename", "recipe_name", "lot_id", "slot_number", "measured_info", "formatted_date", "tool_name"]

  /** `typeof v !== 'object' || v === null`: arrays and objects are left
      out, `null` is kept. */
  predicate Displayable(v: Value) {
    !(v.List? || v.Dict?)
  }

  /** The keys of one measurement whose values are displayable, in order. */
  function DisplayKeys(row: Entries): (r: seq<string>)
    ensures forall k :: k in r <==> exists j :: 0 <= j < |row| && row[j].0 == k && Displayable(row[j].1)
  {
    if row == [] then []
    else
      var r := DisplayKeys(row[..|row| - 1]);
      assert forall j :: 0 <= j < |row| - 1 ==> row[..|row| - 1][j] == row[j];
      r + (if Displayable(row[|row| - 1].1) then [row[|row| - 1].0] else [])
  }

  /** The displayable keys of every measurement, row after row. */
  function AllDisplayKeys(rows: seq<Entries>): (r: seq<string>)
    ensures forall k :: k in r <==> exists i, j :: 0 <= i < |rows| && 0 <= j < |rows[i]| && rows[i][j].0 == k && Displayable(rows[i][j].1)
  {
    if rows == [] then []
    else
      var r := AllDisplayKeys(rows[..|rows| - 1]);
      assert forall i :: 0 <= i < |rows| - 1 ==> rows[..|rows| - 1][i] == rows[i];
      r + DisplayKeys(rows[|rows| - 1])
  }

  lemma TakeAll<T>(s: seq<T>)
    ensures s[..|s|] == s
  {
  }

  lemma AppendAssoc<T>(a: seq<T>, b: seq<T>, c: seq<T>)
    ensures (a + b) + c == a + (b + c)
  {
  }

  lemma TakeOfTake<T>(s: seq<T>, j: nat)
    requires j < |s|
    ensures s[..j + 1][..j] == s[..j]
  {
  }

  lemma DisplayKeysSnoc(row: Entries, j: nat)
    requires j < |row|
    ensures DisplayKeys(row[..j + 1]) == DisplayKeys(row[..j]) + (if Displayable(row[j].1) then [row[j].0] else [])
  {
    TakeOfTake(row, j);
  }

  lemma AllDisplayKeysSnoc(rows: seq<Entries>, i: nat)
    requires i < |rows|
    ensures AllDisplayKeys(rows[..i + 1]) == AllDisplayKeys(rows[..i]) + DisplayKeys(rows[i])
  {
    TakeOfTake(rows, i);
  }

  /** `Array.from(keySet).sort()`: the key set fills in insertion order and is
      then sorted by character code. */
  function AvailableKeys(rows: seq<Entries>): (r: seq<string>)
    ensures Sorted(r, StrLe)
    ensures multiset(r) == multiset(Dedup(AllDisplayKeys(rows)))
  {
    StrLePreorder();
    SortSorted(Dedup(AllDisplayKeys(rows)), StrLe);
    SortPermutes(Dedup(AllDisplayKeys(rows)), StrLe);
    Sort(Dedup(AllDisplayKeys(rows)), StrLe)
  }

  /** The available keys are sorted, have no duplicates, and are exactly the
      keys that some measurement holds with a displayable value. */
  lemma AvailableKeysMeaning(rows: seq<Entries>)
    ensures var r := AvailableKeys(rows);
      && Sorted(r, StrLe) && NoDuplicates(r)
      && forall k :: k in r <==> exists i, j :: 0 <= i < |rows| && 0 <= j < |rows[i]| && rows[i][j].0 == k && Displayable(rows[i][j].1)
  {
    var d := Dedup(AllDisplayKeys(rows));
    var r := AvailableKeys(rows);
    StrLePreorder();
    SortSorted(d, StrLe);
    SortPermutes(d, StrLe);
    PermutationKeepsNoDuplicates(d, r);
    var all := AllDisplayKeys(rows);
    forall k ensures k in r <==> k in all {
      assert k in r <==> k in multiset(r);
      assert k in d <==> k in multiset(d);
      if k in d {
        var i :| 0 <= i < |d| && d[i] == k;
        assert d[i] in all;
      }
      if k in all {
        var i :| 0 <= i < |all| && all[i] == k;
        assert all[i] in d;
      }
    }
  }

  function Absent(order: seq<string>): string -> bool {
    k => k !in order
  }

  /** `[...order, ...keys.filter(key => !order.includes(key))]` */
  function Extended(order: seq<string>, keys: seq<string>): seq<string> {
    order + Filter(keys, Absent(order))
  }

  /** Extending an order keeps it as a prefix, loses nothing, adds every
      key, and adds no duplicate. */
  lemma ExtendedMeaning(order: seq<string>, keys: seq<string>)
    ensures var r := Extended(order, keys);
      && r[..|order|] == order
      && (forall k :: k in r <==> k in order || k in keys)
      && (NoDuplicates(order) && NoDuplicates(keys) ==> NoDuplicates(r))
  {
    var f := Filter(keys, Absent(order));
    var r := Extended(order, keys);
    assert r[..|order|] == order;
    forall k | k in keys && k !in order ensures k in f {
      var i :| 0 <= i < |keys| && keys[i] == k;
      assert Absent(order)(keys[i]);
    }
    if NoDuplicates(order) && NoDuplicates(keys) {
      FilterKeepsNoDuplicates(keys, Absent(order));
      forall i, j | 0 <= i < j < |r| ensures r[i] != r[j] {
        if i < |order| <= j {
          assert r[j] == f[j - |order|];
          assert Absent(order)(f[j - |order|]);
        } else if |order| <= i {
          assert r[i] == f[i - |order|] && r[j] == f[j - |order|];
        }
      }
    }
  }

  lemma {:induction false} FilterKeepsNoDuplicates<T>(s: seq<T>, p: T -> bool)
    requires NoDuplicates(s)
    ensures NoDuplicates(Filter(s, p))
    decreases |s|
  {
    if s != [] {
      var t := s[1..];
      assert NoDuplicates(t) by {
        forall i, j | 0 <= i < j < |t| ensures t[i] != t[j] {
          assert t[i] == s[i + 1] && t[j] == s[j + 1];
        }
      }
      FilterKeepsNoDuplicates(t, p);
      if p(s[0]) {
        var f := Filter(t, p);
        assert s[0] !in t by {
          forall i | 0 <= i < |t| ensures t[i] != s[0] {
            assert t[i] == s[i + 1];
          }
        }
        assert s[0] !in f;
        assert Filter(s, p) == [s[0]] + f;
      } else {
        assert Filter(s, p) == [] + Filter(t, p);
      }
    }
  }

  // ---------- reordering a measurement ----------

  /** The first `forEach` of `applyKeyOrdering`: the custom-order keys the
      measurement has, copied in that order. */
  function Picked(order: seq<string>, row: Entries): Entries {
    if order == [] then []
    else
      var p := Picked(order[..|order| - 1], row);
      var k := order[|order| - 1];
      match Get(row, k)
      case Some(v) => Set(p, k, v)
      case None => p
  }

  /** The second `forEach`: each listed key not copied yet is copied. */
  function Completed(acc: Entries, keys: seq<string>, row: Entries): Entries {
    if keys == [] then acc
    else
      var c := Completed(acc, keys[..|keys| - 1], row);
      var k := keys[|keys| - 1];
      if HasKey(c, k) then c
      else match Get(row, k)
        case Some(v) => Set(c, k, v)
        case None => c
  }

  /** The object `applyKeyOrdering` builds for one measurement. */
  function OrderedRow(order: seq<string>, row: Entries): Entries {
    Completed(Picked(order, row), Keys(row), row)
  }

  lemma {:induction false} PickedGet(order: seq<string>, row: Entries, k: string)
    ensures Get(Picked(order, row), k) == if k in order then Get(row, k) else None
  {
    if order != [] {
      var init := order[..|order| - 1];
      var last := order[|order| - 1];
      PickedGet(init, row, k);
      assert order == init + [last];
      var p := Picked(init, row);
      match Get(row, last)
      case Some(v) =>
        if k == last {
          GetSetSame(p, last, v);
        } else {
          GetSetOther(p, last, v, k);
        }
      case None =>
    }
  }

  lemma {:induction false} PickedKeys(order: seq<string>, row: Entries)
    ensures Keys(Picked(order, row)) == Dedup(Filter(order, InRow(row)))
  {
    if order != [] {
      var init := order[..|order| - 1];
      var last := order[|order| - 1];
      PickedKeys(init, row);
      var p := Picked(init, row);
      var f := Filter(init, InRow(row));
      FilterLast(order, InRow(row));
      match Get(row, last)
      case Some(v) =>
        assert Keys(Picked(order, row)) == if last in Keys(p) then Keys(p) else Keys(p) + [last] by {
          KeysSet(p, last, v);
        }
        DedupStep(Keys(p), f, last, Keys(Picked(order, row)), Filter(order, InRow(row)));
      case None =>
        DedupSkip(Keys(p), f, Keys(Picked(order, row)), Filter(order, InRow(row)));
    }
  }

  lemma FilterLast<T>(s: seq<T>, p: T -> bool)
    requires s != []
    ensures Filter(s, p) == Filter(s[..|s| - 1], p) + (if p(s[|s| - 1]) then [s[|s| - 1]] else [])
  {
    FilterSnoc(s, |s| - 1, p);
    assert s[..|s|] == s;
  }

  /** One more element `x` after `f`: the distinct elements gain `x` unless
      they have it. */
  lemma DedupStep<T>(d: seq<T>, f: seq<T>, x: T, d': seq<T>, f': seq<T>)
    requires d == Dedup(f) && f' == f + [x]
    requires d' == if x in d then d else d + [x]
    ensures d' == Dedup(f')
  {
    assert f'[..|f|] == f;
  }

  lemma DedupSkip<T>(d: seq<T>, f: seq<T>, d': seq<T>, f': seq<T>)
    requires d == Dedup(f) && f' == f + [] && d' == d
    ensures d' == Dedup(f')
  {
    assert f' == f;
  }

  function InRow(row: Entries): string -> bool {
    k => HasKey(row, k)
  }

  lemma {:induction false} CompletedGet(acc: Entries, keys: seq<string>, row: Entries, k: string)
    ensures Get(Completed(acc, keys, row), k) == if HasKey(acc, k) then Get(acc, k) else if k in keys then Get(row, k) else None
  {
    if keys != [] {
      var init := keys[..|keys| - 1];
      var last := keys[|keys| - 1];
      CompletedGet(acc, init, row, k);
      assert keys == init + [last];
      var c := Completed(acc, init, row);
      if !HasKey(c, last) {
        match Get(row, last)
        case Some(v) =>
          if k == last {
            GetSetSame(c, last, v);
          } else {
            GetSetOther(c, last, v, k);
          }
        case None =>
      }
    }
  }

  lemma {:induction false} CompletedKeys(acc: Entries, keys: seq<string>, row: Entries)
    requires forall i :: 0 <= i < |keys| ==> HasKey(row, keys[i])
    ensures Keys(Completed(acc, keys, row)) == Keys(acc) + Dedup(Filter(keys, Absent(Keys(acc))))
  {
    if keys != [] {
      var init := keys[..|keys| - 1];
      var last := keys[|keys| - 1];
      var a := Keys(acc);
      CompletedKeys(acc, init, row);
      var c := Completed(acc, init, row);
      FilterLast(keys, Absent(a));
      assert Keys(Completed(acc, keys, row)) == if last in Keys(c) then Keys(c) else Keys(c) + [last] by {
        if !HasKey(c, last) {
          KeysSet(c, last, Get(row, last).value);
        }
      }
      AppendDedupStep(a, Filter(init, Absent(a)), last, Keys(c), Keys(Completed(acc, keys, row)), Filter(keys, Absent(a)));
    }
  }

  /** One more element `x` after `f`, kept only when `a` lacks it: `a`
      followed by the distinct kept elements gains `x` unless it has it. */
  lemma AppendDedupStep<T>(a: seq<T>, f: seq<T>, x: T, kc: seq<T>, kn: seq<T>, f': seq<T>)
    requires kc == a + Dedup(f)
    requires f' == f + (if x !in a then [x] else [])
    requires kn == if x in kc then kc else kc + [x]
    ensures kn == a + Dedup(f')
  {
    if x in a {
      assert f' == f;
    } else if x in Dedup(f) {
      DedupSnocPresent(f, x, f');
    } else {
      DedupSnocAbsent(f, x, f');
      AppendAssoc(a, Dedup(f), [x]);
    }
  }

  lemma DedupSnocPresent<T>(f: seq<T>, x: T, f': seq<T>)
    requires f' == f + [x] && x in Dedup(f)
    ensures Dedup(f') == Dedup(f)
  {
    DedupSnoc(f, x);
  }

  lemma DedupSnocAbsent<T>(f: seq<T>, x: T, f': seq<T>)
    requires f' == f + [x] && x !in Dedup(f)
    ensures Dedup(f') == Dedup(f) + [x]
  {
    DedupSnoc(f, x);
  }

  /** Reordering keeps every key-to-value pair of the measurement and adds
      none. */
  lemma OrderedRowKeepsPairs(order: seq<string>, row: Entries, k: string)
    ensures Get(OrderedRow(order, row), k) == Get(row, k)
  {
    var p := Picked(order, row);
    CompletedGet(p, Keys(row), row, k);
    PickedGet(order, row, k);
  }

  /** The custom-order keys the measurement has come first, in that order;
      its other keys follow in their original order. */
  lemma OrderedRowKeys(order: seq<string>, row: Entries)
    ensures Keys(OrderedRow(order, row)) == Dedup(Filter(order, InRow(row))) + Dedup(Filter(Keys(row), Absent(order)))
  {
    var p := Picked(order, row);
    PickedKeys(order, row);
    CompletedKeys(p, Keys(row), row);
    forall i | 0 <= i < |Keys(row)| ensures Absent(Keys(p))(Keys(row)[i]) == Absent(order)(Keys(row)[i]) {
      var k := Keys(row)[i];
      assert HasKey(row, k);
      assert k in Keys(p) <==> Get(p, k).Some?;
      PickedGet(order, row, k);
    }
    FilterSame(Keys(row), Absent(Keys(p)), Absent(order));
  }

  lemma {:induction false} FilterSame<T>(s: seq<T>, p: T -> bool, q: T -> bool)
    requires forall i :: 0 <= i < |s| ==> p(s[i]) == q(s[i])
    ensures Filter(s, p) == Filter(s, q)
  {
    if s != [] {
      FilterSame(s[1..], p, q);
    }
  }

  /** `applyKeyOrdering` over all measurements. */
  function Applied(order: seq<string>, data: Option<seq<Entries>>): (r: seq<Entries>)
    ensures data.None? ==> r == []
    ensures data.Some? ==> |r| == |data.value| && forall i :: 0 <= i < |r| ==> r[i] == OrderedRow(order, data.value[i])
  {
    if data.None? then [] else OrderedAll(order, data.value)
  }

  function OrderedAll(order: seq<string>, rows: seq<Entries>): (r: seq<Entries>)
    ensures |r| == |rows| && forall i :: 0 <= i < |r| ==> r[i] == OrderedRow(order, rows[i])
  {
    if rows == [] then [] else [OrderedRow(order, rows[0])] + OrderedAll(order, rows[1..])
  }

  // ---------- moving one key ----------

  /** `order.indexOf(key)`: the first position of `key`, or -1. */
  function IndexOf<T(==)>(order: seq<T>, key: T): (r: int)
    ensures -1 <= r < |order|
    ensures r == -1 <==> key !in order
    ensures 0 <= r ==> order[r] == key && key !in order[..r]
  {
    if order == [] then -1
    else if order[0] == key then 0
    else
      var r := IndexOf(order[1..], key);
      if r == -1 then -1
      else
        assert order[..r + 1] == [order[0]] + order[1..][..r];
        r + 1
  }

  lemma {:induction false} IndexOfAt<T>(order: seq<T>, key: T, i: nat)
    requires i < |order| && order[i] == key && key !in order[..i]
    ensures IndexOf(order, key) == i
  {
    if i > 0 {
      assert order[0] == order[..i][0];
      var t := order[1..];
      assert t[..i - 1] == order[..i][1..];
      IndexOfAt(t, key, i - 1);
    }
  }

  /** The positions `i` and `j` exchanged. */
  function Swap<T>(s: seq<T>, i: nat, j: nat): (r: seq<T>)
    requires i < |s| && j < |s|
    ensures |r| == |s| && r[i] == s[j] && r[j] == s[i]
    ensures forall k :: 0 <= k < |s| && k != i && k != j ==> r[k] == s[k]
  {
    s[i := s[j]][j := s[i]]
  }

  /** The order after `moveKeyUp(key)`. */
  function MovedUp<T(==)>(order: seq<T>, key: T): (r: seq<T>)
    ensures |r| == |order|
    ensures key !in order ==> r == order
    ensures key in order ==> IndexOf(r, key) == if IndexOf(order, key) > 0 then IndexOf(order, key) - 1 else 0
  {
    var i := IndexOf(order, key);
    if i > 0 then Swap(order, i - 1, i) else order
  }

  /** The order after `moveKeyDown(key)`. */
  function MovedDown<T(==)>(order: seq<T>, key: T): (r: seq<T>)
    ensures |r| == |order|
    ensures key !in order ==> r == order
    ensures key in order ==> r[if IndexOf(order, key) < |order| - 1 then IndexOf(order, key) + 1 else IndexOf(order, key)] == key
  {
    var i := IndexOf(order, key);
    if 0 <= i < |order| - 1 then Swap(order, i, i + 1) else order
  }

  /** Moving up exchanges the key with its predecessor and nothing else,
      is a permutation, and does nothing for an absent key or the first. */
  lemma MovedUpMeaning<T>(order: seq<T>, key: T)
    ensures multiset(MovedUp(order, key)) == multiset(order)
    ensures key !in order || order[0] == key ==> MovedUp(order, key) == order
    ensures key in order && order[0] != key ==>
      var i := IndexOf(order, key);
      var r := MovedUp(order, key);
      && |r| == |order| && r[i - 1] == key && r[i] == order[i - 1]
      && forall k :: 0 <= k < |order| && k != i - 1 && k != i ==> r[k] == order[k]
  {
    var i := IndexOf(order, key);
    if i > 0 {
      SwapPermutes(order, i - 1, i);
      assert MovedUp(order, key) == Swap(order, i - 1, i);
    } else {
      assert MovedUp(order, key) == order;
    }
  }

  /** Moving down exchanges the key with its successor and nothing else, is
      a permutation, and does nothing for an absent key or the last. */
  lemma MovedDownMeaning<T>(order: seq<T>, key: T)
    ensures multiset(MovedDown(order, key)) == multiset(order)
    ensures key !in order || IndexOf(order, key) == |order| - 1 ==> MovedDown(order, key) == order
    ensures key in order && IndexOf(order, key) < |order| - 1 ==>
      var i := IndexOf(order, key);
      var r := MovedDown(order, key);
      && |r| == |order| && r[i + 1] == key && r[i] == order[i + 1]
      && forall k :: 0 <= k < |order| && k != i && k != i + 1 ==> r[k] == order[k]
  {
    var i := IndexOf(order, key);
    if 0 <= i < |order| - 1 {
      SwapPermutes(order, i, i + 1);
      assert MovedDown(order, key) == Swap(order, i, i + 1);
    } else {
      assert MovedDown(order, key) == order;
    }
  }

  lemma SwapPermutes<T>(s: seq<T>, i: nat, j: nat)
    requires i < j < |s|
    ensures multiset(Swap(s, i, j)) == multiset(s)
  {
    var r := Swap(s, i, j);
    assert s == s[..i] + [s[i]] + s[i + 1..j] + [s[j]] + s[j + 1..];
    assert r == s[..i] + [s[j]] + s[i + 1..j] + [s[i]] + s[j + 1..];
  }

  /** In an order without duplicates, moving a key down and then up again
      restores the order. */
  lemma DownThenUp<T>(order: seq<T>, key: T)
    requires NoDuplicates(order) && key in order && IndexOf(order, key) < |order| - 1
    ensures MovedUp(MovedDown(order, key), key) == order
  {
    var i := IndexOf(order, key);
    var r := MovedDown(order, key);
    assert key !in r[..i + 1] by {
      forall k | 0 <= k <= i ensures r[k] != key {
        if k < i {
          assert r[k] == order[k] && order[k] in order[..i];
        } else {
          assert r[k] == order[i + 1];
        }
      }
    }
    IndexOfAt(r, key, i + 1);
    assert Swap(r, i, i + 1) == order;
  }

  /** Likewise moving a key up and then down again. */
  lemma UpThenDown<T>(order: seq<T>, key: T)
    requires NoDuplicates(order) && key in order && order[0] != key
    ensures MovedDown(MovedUp(order, key), key) == order
  {
    var i := IndexOf(order, key);
    var r := MovedUp(order, key);
    assert key !in r[..i - 1] by {
      forall k | 0 <= k < i - 1 ensures r[k] != key {
        assert r[k] == order[k] && order[k] in order[..i];
      }
    }
    IndexOfAt(r, key, i - 1);
    assert Swap(r, i - 1, i) == order;
  }

  /** Removing the element at `i` and inserting it again at `i - 1` (the two
      `splice` calls of `moveKeyUp`) exchanges it with its predecessor. */
  lemma SpliceUp<T>(s: seq<T>, i: nat)
    requires 0 < i < |s|
    ensures var t := s[..i] + s[i + 1..]; t[..i - 1] + [s[i]] + t[i - 1..] == Swap(s, i - 1, i)
  {
    var t := s[..i] + s[i + 1..];
    assert t[..i - 1] == s[..i - 1];
    assert t[i - 1..] == [s[i - 1]] + s[i + 1..];
    var u := t[..i - 1] + [s[i]] + t[i - 1..];
    assert u == s[..i - 1] + [s[i]] + [s[i - 1]] + s[i + 1..];
  }

  /** Removing the element at `i` and inserting it again at `i + 1` (the two
      `splice` calls of `moveKeyDown`) exchanges it with its successor. */
  lemma SpliceDown<T>(s: seq<T>, i: nat)
    requires i + 1 < |s|
    ensures var t := s[..i] + s[i + 1..]; t[..i + 1] + [s[i]] + t[i + 1..] == Swap(s, i, i + 1)
  {
    var t := s[..i] + s[i + 1..];
    assert t[..i + 1] == s[..i] + [s[i + 1]];
    assert t[i + 1..] == s[i + 2..];
    var u := t[..i + 1] + [s[i]] + t[i + 1..];
    assert u == s[..i] + [s[i + 1]] + [s[i]] + s[i + 2..];
  }

  // ---------- display names ----------

  /** The `displayNames` table. */
  const DisplayNames: seq<(string, string)> := [
    ("filename", "File Name"), ("recipe_name", "Recipe"), ("lot_id", "Lot ID"),
    ("slot_number", "Slot"), ("measured_info", "Measurement"), ("formatted_date", "Date"),
    ("tool_name", "Tool"), ("date", "Raw Date"), ("id", "ID"), ("info", "Info"),
    ("data_status", "Status Data"), ("data_detail", "Detail Data")]

  /** The label of the first entry for `key`, if any. */
  function Label(table: seq<(string, string)>, key: string): (r: Option<string>)
    ensures r.None? <==> forall i :: 0 <= i < |table| ==> table[i].0 != key
    ensures r.Some? ==> exists i :: 0 <= i < |table| && table[i] == (key, r.value) && forall j :: 0 <= j < i ==> table[j].0 != key
  {
    if table == [] then None
    else if table[0].0 == key then Some(table[0].1)
    else
      var r := Label(table[1..], key);
      assert r.Some? ==> exists i :: 1 <= i < |table| && table[i] == (key, r.value) && forall j :: 1 <= j < i ==> table[j].0 != key;
      r
  }

  /** `getKeyDisplayName(key)`: `displayNames[key] || key`. */
  function KeyDisplayName(key: string): (r: string)
    ensures r == key || Label(DisplayNames, key) == Some(r)
    ensures r != "" || key == ""
  {
    match Label(DisplayNames, key)
    case Some(l) => if l != "" then l else key
    case None => key
  }

  /** A key the table lists shows its label; any other key shows itself. */
  lemma KeyDisplayNameMeaning(key: string)
    ensures (forall i :: 0 <= i < |DisplayNames| ==> DisplayNames[i].0 != key) ==> KeyDisplayName(key) == key
    ensures forall i :: 0 <= i < |DisplayNames| && DisplayNames[i].0 == key ==> KeyDisplayName(key) == DisplayNames[i].1
  {
    var t := DisplayNames;
    assert forall i :: 0 <= i < |t| ==> t[i].1 != "";
    forall i | 0 <= i < |t| && t[i].0 == key ensures KeyDisplayName(key) == t[i].1 {
      var l := Label(t, key);
      var m :| 0 <= m < |t| && t[m] == (key, l.value) && forall j :: 0 <= j < m ==> t[j].0 != key;
      assert m <= i;
      LabelKeysDistinct(m, i);
    }
  }

  /** No two entries of the table share a key. */
  lemma LabelKeysDistinct(m: nat, i: nat)
    requires m <= i < |DisplayNames| && DisplayNames[m].0 == DisplayNames[i].0
    ensures m == i
  {
  }

  /** One row of `orderedKeysForDisplay`. */
  datatype DisplayedKey = DisplayedKey(key: string, displayName: string, isDefault: bool)

  /** `orderedKeysForDisplay`: one row per key of the order. */
  function KeysForDisplay(order: seq<string>): (r: seq<DisplayedKey>)
    ensures |r| == |order|
  {
    if order == [] then []
    else [DisplayedKey(order[0], KeyDisplayName(order[0]), order[0] in DefaultKeyOrder)] + KeysForDisplay(order[1..])
  }

  /** Row `i` describes the `i`-th key of the order. */
  lemma {:induction false} KeysForDisplayAt(order: seq<string>, i: nat)
    requires i < |order|
    ensures KeysForDisplay(order)[i] == DisplayedKey(order[i], KeyDisplayName(order[i]), order[i] in DefaultKeyOrder)
  {
    if i > 0 {
      KeysForDisplayAt(order[1..], i - 1);
    }
  }

  /** After a reset the display lists the default keys first, flagged as
      defaults, and then the other available keys, not flagged. */
  lemma ResetDisplay(available: seq<string>, i: nat)
    requires i < |Extended(DefaultKeyOrder, available)|
    ensures var d := KeysForDisplay(Extended(DefaultKeyOrder, available));
      d[i].key == Extended(DefaultKeyOrder, available)[i]
      && (d[i].isDefault <==> i < |DefaultKeyOrder|)
  {
    var r := Extended(DefaultKeyOrder, available);
    KeysForDisplayAt(r, i);
    if i >= |DefaultKeyOrder| {
      var f := Filter(available, Absent(DefaultKeyOrder));
      assert r[i] == f[i - |DefaultKeyOrder|];
      assert r[i] in f;
    }
  }

  /** The inner loop of `updateAvailableKeys`: the displayable keys of one
      row join the key set, each once. */
  method AddRowKeys(row: Entries, ghost seen0: seq<string>, keys0: seq<string>) returns (keySet: seq<string>)
    requires keys0 == Dedup(seen0)
    ensures keySet == Dedup(seen0 + DisplayKeys(row))
  {
    keySet := keys0;
    ghost var seen := seen0;
    var j := 0;
    assert DisplayKeys(row[..0]) == [];
    while j < |row|
      invariant 0 <= j <= |row|
      invariant seen == seen0 + DisplayKeys(row[..j]) && keySet == Dedup(seen)
      decreases |row| - j
    {
      var (key, value) := row[j];
      DisplayKeysSnoc(row, j);
      if Displayable(value) {
        DedupSnoc(seen, key);
        if key !in keySet {
          keySet := keySet + [key];
        }
        AppendAssoc(seen0, DisplayKeys(row[..j]), [key]);
        seen := seen + [key];
      } else {
        AppendAssoc(seen0, DisplayKeys(row[..j]), []);
      }
      j := j + 1;
    }
    TakeAll(row);
  }

  /** The composable's state. */
  class KeyOrder {
    var customKeyOrder: seq<string>
    var availableKeys: seq<string>

    constructor ()
      ensures customKeyOrder == DefaultKeyOrder && availableKeys == []
    {
      customKeyOrder := DefaultKeyOrder;
      availableKeys := [];
    }

    /** `updateAvailableKeys(measurementData)`; `None` is a missing array. */
    method UpdateAvailableKeys(data: Option<seq<Entries>>)
      modifies this
      ensures data.None? || data.value == [] ==> availableKeys == [] && customKeyOrder == old(customKeyOrder)
      ensures data.Some? && data.value != [] ==>
        availableKeys == AvailableKeys(data.value) && customKeyOrder == Extended(old(customKeyOrder), availableKeys)
    {
      if data.None? || |data.value| == 0 {
        availableKeys := [];
        return;
      }
      var rows := data.value;
      var order := customKeyOrder;
      var keySet: seq<string> := [];
      ghost var seen: seq<string> := [];
      var i := 0;
      while i < |rows|
        invariant 0 <= i <= |rows|
        invariant seen == AllDisplayKeys(rows[..i]) && keySet == Dedup(seen)
        decreases |rows| - i
      {
        var row := rows[i];
        keySet := AddRowKeys(row, seen, keySet);
        seen := seen + DisplayKeys(row);
        AllDisplayKeysSnoc(rows, i);
        i := i + 1;
      }
      TakeAll(rows);
      var sorted := Sort(keySet, StrLe);
      var newKeys := Filter(sorted, Absent(order));
      availableKeys := sorted;
      customKeyOrder := order + newKeys;
    }

    /** `applyKeyOrdering(measurementData)` */
    method ApplyKeyOrdering(data: Option<seq<Entries>>) returns (r: seq<Entries>)
      ensures r == Applied(customKeyOrder, data)
    {
      r := [];
      if data.None? || |data.value| == 0 {
        return;
      }
      var rows := data.value;
      var i := 0;
      while i < |rows|
        invariant 0 <= i <= |rows|
        invariant r == OrderedAll(customKeyOrder, rows[..i])
        decreases |rows| - i
      {
        var ordered := OrderRow(rows[i]);
        OrderedAllSnoc(customKeyOrder, rows, i);
        r := r + [ordered];
        i := i + 1;
      }
      assert rows[..|rows|] == rows;
    }

    /** The two `forEach` loops for one measurement. */
    method OrderRow(row: Entries) returns (ordered: Entries)
      ensures ordered == OrderedRow(customKeyOrder, row)
    {
      ordered := [];
      var n := 0;
      while n < |customKeyOrder|
        invariant 0 <= n <= |customKeyOrder|
        invariant ordered == Picked(customKeyOrder[..n], row)
        decreases |customKeyOrder| - n
      {
        var key := customKeyOrder[n];
        assert customKeyOrder[..n + 1][..n] == customKeyOrder[..n];
        var v := Get(row, key);
        if v.Some? {
          ordered := Set(ordered, key, v.value);
        }
        n := n + 1;
      }
      assert customKeyOrder[..|customKeyOrder|] == customKeyOrder;
      var keys := Keys(row);
      var picked := ordered;
      var j := 0;
      while j < |keys|
        invariant 0 <= j <= |keys|
        invariant ordered == Completed(picked, keys[..j], row)
        decreases |keys| - j
      {
        var key := keys[j];
        assert keys[..j + 1][..j] == keys[..j];
        if !HasKey(ordered, key) {
          var v := Get(row, key);
          if v.Some? {
            ordered := Set(ordered, key, v.value);
          }
        }
        j := j + 1;
      }
      assert keys[..|keys|] == keys;
    }

    /** `moveKeyUp(key)`: two `splice` calls on a copy. */
    method MoveKeyUp(key: string)
      modifies this
      ensures customKeyOrder == MovedUp(old(customKeyOrder), key)
      ensures availableKeys == old(availableKeys)
    {
      var index := IndexOf(customKeyOrder, key);
      if index > 0 {
        var newOrder := customKeyOrder;
        var removed := newOrder[index];
        newOrder := newOrder[..index] + newOrder[index + 1..];
        newOrder := newOrder[..index - 1] + [removed] + newOrder[index - 1..];
        SpliceUp(customKeyOrder, index);
        customKeyOrder := newOrder;
      }
    }

    /** `moveKeyDown(key)` */
    method MoveKeyDown(key: string)
      modifies this
      ensures customKeyOrder == MovedDown(old(customKeyOrder), key)
      ensures availableKeys == old(availableKeys)
    {
      var index := IndexOf(customKeyOrder, key);
      if index >= 0 && index < |customKeyOrder| - 1 {
        var newOrder := customKeyOrder;
        var removed := newOrder[index];
        newOrder := newOrder[..index] + newOrder[index + 1..];
        newOrder := newOrder[..index + 1] + [removed] + newOrder[index + 1..];
        SpliceDown(customKeyOrder, index);
        customKeyOrder := newOrder;
      }
    }

    /** `resetToDefault()` */
    method ResetToDefault()
      modifies this
      ensures customKeyOrder == Extended(DefaultKeyOrder, availableKeys)
      ensures availableKeys == old(availableKeys)
    {
      customKeyOrder := DefaultKeyOrder;
      var additionalKeys := Filter(availableKeys, Absent(DefaultKeyOrder));
      customKeyOrder := customKeyOrder + additionalKeys;
    }

    /** `setCustomOrder(newOrder)`; `None` is a value that is not an array. */
    method SetCustomOrder(newOrder: Option<seq<string>>)
      modifies this
      ensures customKeyOrder == if newOrder.Some? then newOrder.value else old(customKeyOrder)
      ensures availableKeys == old(availableKeys)
    {
      if newOrder.Some? {
        customKeyOrder := newOrder.value;
      }
    }
  }

  lemma OrderedAllSnoc(order: seq<string>, rows: seq<Entries>, i: nat)
    requires i < |rows|
    ensures OrderedAll(order, rows[..i + 1]) == OrderedAll(order, rows[..i]) + [OrderedRow(order, rows[i])]
  {
  }

  /** The default order has no duplicates, so resetting keeps the order free
      of them and holds every default and every available key. */
  lemma ResetMeaning(available: seq<string>)
    requires NoDuplicates(available)
    ensures var r := Extended(DefaultKeyOrder, available);
      && NoDuplicates(r) && r[..|DefaultKeyOrder|] == DefaultKeyOrder
      && forall k :: k in r <==> k in DefaultKeyOrder || k in available
  {
    ExtendedMeaning(DefaultKeyOrder, available);
  }

  /** Updating the available keys keeps the previous order as a prefix,
      adds exactly the missing available keys, and keeps an order without
      duplicates free of them. */
  lemma UpdateMeaning(order: seq<string>, rows: seq<Entries>)
    ensures var r := Extended(order, AvailableKeys(rows));
      && r[..|order|] == order
      && (forall k :: k in r <==> k in order || k in AvailableKeys(rows))
      && (NoDuplicates(order) ==> NoDuplicates(r))
  {
    AvailableKeysMeaning(rows);
    ExtendedMeaning(order, AvailableKeys(rows));
  }
}
