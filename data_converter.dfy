/** Reshaping of the columnar tables stored in a measurement pickle
    (api/utils/data_converter.py). A `data_status` table becomes one record
    per summary statistic (`MEAN`, `STDEV`, ...); a `data_detail` table
    becomes one record per measured point of every group.

    Both tables are dicts keyed by measurement point (`'1_UL'`) whose values
    are dicts of columns; `Groups` is that shape, in insertion order. A
    TypeError raised while iterating is the result `None`. */
module DataConverter {
  import opened Common

  type Groups = seq<(string, Entries)>

  /** `isinstance(values, list) and i < len(values)`, giving `values[i]`. */
  function Cell(v: Value, i: nat): Option<Value> {
    if v.List? && i < |v.items| then Some(v.items[i]) else None
  }

  /** The value the last column named `pk` with a cell at `i` holds there;
      with unique keys this is just that column's cell. */
  function LastCell(gd: Entries, pk: string, i: nat): Option<Value>
    decreases |gd|
  {
    if gd == [] then None
    else if gd[|gd| - 1].0 == pk && Cell(gd[|gd| - 1].1, i).Some? then Cell(gd[|gd| - 1].1, i)
    else LastCell(gd[..|gd| - 1], pk, i)
  }

  // ---- data_status -> summary records -------------------------------------

  /** One column of one group written into the record of statistic `i`: the
      group key is set from the first such column, the column name every
      time. `ITEM` columns are skipped. */
  function WriteColumn(rec: Entries, gk: string, pk: string, pv: Value, i: nat): Entries {
    if pk != "ITEM" && Cell(pv, i).Some? then
      Set(if HasKey(rec, gk) then rec else Set(rec, gk, Cell(pv, i).value), pk, Cell(pv, i).value)
    else rec
  }

  /** The columns of one group written left to right. */
  function WriteGroup(rec: Entries, gk: string, gd: Entries, i: nat): Entries
    decreases |gd|
  {
    if gd == [] then rec
    else WriteColumn(WriteGroup(rec, gk, gd[..|gd| - 1], i), gk, gd[|gd| - 1].0, gd[|gd| - 1].1, i)
  }

  /** The groups written in insertion order. */
  function WriteGroups(rec: Entries, gs: Groups, i: nat): Entries
    decreases |gs|
  {
    if gs == [] then rec
    else WriteGroup(WriteGroups(rec, gs[..|gs| - 1], i), gs[|gs| - 1].0, gs[|gs| - 1].1, i)
  }

  /** The record of statistic `i`, named `item`. */
  function StatusRecord(gs: Groups, item: Value, i: nat): Entries {
    WriteGroups([("ITEM", item)], gs, i)
  }

  /** The records of the first `n` statistics. */
  function StatusRows(gs: Groups, items: seq<Value>, n: nat): (r: seq<Entries>)
    requires n <= |items|
    ensures |r| == n
    ensures forall i :: 0 <= i < n ==> r[i] == StatusRecord(gs, items[i], i)
  {
    if n == 0 then [] else StatusRows(gs, items, n - 1) + [StatusRecord(gs, items[n - 1], n - 1)]
  }

  /** `convert_data_status_to_records`: the statistic names come from the
      `ITEM` column of the first group. */
  function ConvertDataStatus(gs: Groups): Option<seq<Entries>> {
    if gs == [] then Some([])
    else match Get(gs[0].1, "ITEM")
      case None => Some([])
      case Some(v) =>
        match PyIter(v)
        case None => None
        case Some(items) => Some(StatusRows(gs, items, |items|))
  }

  method ConvertDataStatusToRecords(dataStatus: Groups) returns (r: Option<seq<Entries>>)
    ensures r == ConvertDataStatus(dataStatus)
  {
    if dataStatus == [] {
      return Some([]);
    }
    var first := Get(dataStatus[0].1, "ITEM");
    if first.None? {
      return Some([]);
    }
    var iter := PyIter(first.value);
    if iter.None? {
      return None;
    }
    var items := iter.value;
    var records: seq<Entries> := [];
    var i := 0;
    while i < |items|
      invariant 0 <= i <= |items|
      invariant records == StatusRows(dataStatus, items, i)
    {
      var record := BuildStatusRecord(dataStatus, items[i], i);
      records := records + [record];
      i := i + 1;
    }
    return Some(records);
  }

  method BuildStatusRecord(gs: Groups, item: Value, i: nat) returns (record: Entries)
    ensures record == StatusRecord(gs, item, i)
  {
    record := [("ITEM", item)];
    var g := 0;
    while g < |gs|
      invariant 0 <= g <= |gs|
      invariant record == WriteGroups([("ITEM", item)], gs[..g], i)
    {
      assert gs[..g + 1][..g] == gs[..g];
      record := WriteGroupColumns(record, gs[g].0, gs[g].1, i);
      g := g + 1;
    }
    assert gs[..|gs|] == gs;
  }

  method WriteGroupColumns(rec: Entries, gk: string, gd: Entries, i: nat) returns (record: Entries)
    ensures record == WriteGroup(rec, gk, gd, i)
  {
    record := rec;
    var j := 0;
    while j < |gd|
      invariant 0 <= j <= |gd|
      invariant record == WriteGroup(rec, gk, gd[..j], i)
    {
      assert gd[..j + 1][..j] == gd[..j];
      var (pk, pv) := gd[j];
      if pk != "ITEM" && pv.List? && i < |pv.items| {
        if !HasKey(record, gk) {
          record := Set(record, gk, pv.items[i]);
        }
        record := Set(record, pk, pv.items[i]);
      }
      j := j + 1;
    }
    assert gd[..|gd|] == gd;
  }

  /** An empty table, or one whose first group has no `ITEM` column, gives
      no records; otherwise a TypeError arises exactly when `ITEM` is not
      iterable. */
  lemma StatusNoRecords(gs: Groups)
    ensures gs == [] || !HasKey(gs[0].1, "ITEM") ==> ConvertDataStatus(gs) == Some([])
    ensures ConvertDataStatus(gs).None? <==>
      gs != [] && HasKey(gs[0].1, "ITEM") && PyIter(Get(gs[0].1, "ITEM").value).None?
  {
  }

  /** One record per entry of the first group's `ITEM` list, in order, and
      record `i` is named `items[i]`. */
  lemma StatusRecordNamed(gs: Groups, v: Value, items: seq<Value>, i: nat)
    requires gs != [] && Get(gs[0].1, "ITEM") == Some(v) && PyIter(v) == Some(items)
    requires i < |items|
    ensures ConvertDataStatus(gs).Some? && |ConvertDataStatus(gs).value| == |items|
    ensures ConvertDataStatus(gs).value[i] == StatusRecord(gs, items[i], i)
    ensures Get(ConvertDataStatus(gs).value[i], "ITEM") == Some(items[i])
  {
    GroupsKeep([("ITEM", items[i])], gs, i, "ITEM");
  }

  /** A key already present keeps its value through a column write unless
      that column is a non-`ITEM` column of the same name with a cell at `i`. */
  lemma ColumnKeeps(rec: Entries, gk: string, pk: string, pv: Value, i: nat, k: string)
    requires HasKey(rec, k)
    requires pk == k ==> k == "ITEM" || Cell(pv, i).None?
    ensures Get(WriteColumn(rec, gk, pk, pv, i), k) == Get(rec, k)
    ensures HasKey(WriteColumn(rec, gk, pk, pv, i), k)
  {
    if pk != "ITEM" && Cell(pv, i).Some? {
      var x := Cell(pv, i).value;
      var rec1 := if HasKey(rec, gk) then rec else Set(rec, gk, x);
      if !HasKey(rec, gk) {
        GetSetOther(rec, gk, x, k);
      }
      GetSetOther(rec1, pk, x, k);
    }
  }

  lemma {:induction false} GroupKeeps(rec: Entries, gk: string, gd: Entries, i: nat, k: string)
    requires HasKey(rec, k)
    requires k == "ITEM" || LastCell(gd, k, i).None?
    ensures Get(WriteGroup(rec, gk, gd, i), k) == Get(rec, k)
    ensures HasKey(WriteGroup(rec, gk, gd, i), k)
    decreases |gd|
  {
    if gd != [] {
      var init := gd[..|gd| - 1];
      GroupKeeps(rec, gk, init, i, k);
      ColumnKeeps(WriteGroup(rec, gk, init, i), gk, gd[|gd| - 1].0, gd[|gd| - 1].1, i, k);
    }
  }

  lemma {:induction false} GroupsKeep(rec: Entries, gs: Groups, i: nat, k: string)
    requires Get(rec, k).Some?
    requires k == "ITEM"
    ensures Get(WriteGroups(rec, gs, i), k) == Get(rec, k)
    decreases |gs|
  {
    if gs != [] {
      GroupsKeep(rec, gs[..|gs| - 1], i, k);
      GroupKeeps(WriteGroups(rec, gs[..|gs| - 1], i), gs[|gs| - 1].0, gs[|gs| - 1].1, i, k);
    }
  }

  /** The last column of a group named `k` with a cell at `i` decides `k`. */
  lemma {:induction false} GroupWrites(rec: Entries, gk: string, gd: Entries, i: nat, k: string)
    requires k != "ITEM" && LastCell(gd, k, i).Some?
    ensures Get(WriteGroup(rec, gk, gd, i), k) == LastCell(gd, k, i)
    decreases |gd|
  {
    var init, last := gd[..|gd| - 1], gd[|gd| - 1];
    var r := WriteGroup(rec, gk, init, i);
    if last.0 == k && Cell(last.1, i).Some? {
      var x := Cell(last.1, i).value;
      GetSetSame(if HasKey(r, gk) then r else Set(r, gk, x), k, x);
    } else {
      GroupWrites(rec, gk, init, i, k);
      ColumnKeeps(r, gk, last.0, last.1, i, k);
    }
  }

  /** The cell that decides column `k`: that of the last group holding a
      column `k` with a cell at `i`. */
  function LastGroupCell(gs: Groups, k: string, i: nat): Option<Value>
    decreases |gs|
  {
    if gs == [] then None
    else if LastCell(gs[|gs| - 1].1, k, i).Some? then LastCell(gs[|gs| - 1].1, k, i)
    else LastGroupCell(gs[..|gs| - 1], k, i)
  }

  /** When several groups share a column name, the last group wins. */
  lemma {:induction false} StatusColumnLastWins(rec: Entries, gs: Groups, i: nat, k: string)
    requires k != "ITEM" && LastGroupCell(gs, k, i).Some?
    ensures Get(WriteGroups(rec, gs, i), k) == LastGroupCell(gs, k, i)
    decreases |gs|
  {
    var init, last := gs[..|gs| - 1], gs[|gs| - 1];
    if LastCell(last.1, k, i).Some? {
      GroupWrites(WriteGroups(rec, init, i), last.0, last.1, i, k);
    } else {
      StatusColumnLastWins(rec, init, i, k);
      GroupKeeps(WriteGroups(rec, init, i), last.0, last.1, i, k);
    }
  }

  /** The first non-`ITEM` column of a group with a cell at `i`, and that
      cell. */
  function FirstCell(gd: Entries, i: nat): Option<Value>
    decreases |gd|
  {
    if gd == [] then None
    else if FirstCell(gd[..|gd| - 1], i).Some? then FirstCell(gd[..|gd| - 1], i)
    else if gd[|gd| - 1].0 != "ITEM" then Cell(gd[|gd| - 1].1, i)
    else None
  }

  /** No column of the group is named `k`. */
  predicate NoColumn(gd: Entries, k: string) {
    forall j :: 0 <= j < |gd| ==> gd[j].0 != k
  }

  lemma {:induction false} GroupKeyFirst(rec: Entries, gk: string, gd: Entries, i: nat)
    requires !HasKey(rec, gk) && NoColumn(gd, gk)
    ensures Get(WriteGroup(rec, gk, gd, i), gk) == FirstCell(gd, i)
    decreases |gd|
  {
    if gd != [] {
      var init, last := gd[..|gd| - 1], gd[|gd| - 1];
      assert NoColumn(init, gk);
      GroupKeyFirst(rec, gk, init, i);
      var r := WriteGroup(rec, gk, init, i);
      if last.0 != "ITEM" && Cell(last.1, i).Some? {
        var x := Cell(last.1, i).value;
        if HasKey(r, gk) {
          GetSetOther(r, last.0, x, gk);
        } else {
          GetSetSame(r, gk, x);
          GetSetOther(Set(r, gk, x), last.0, x, gk);
        }
      }
    }
  }

  lemma ColumnOther(rec: Entries, gk: string, pk: string, pv: Value, i: nat, k: string)
    requires gk != k && pk != k
    ensures Get(WriteColumn(rec, gk, pk, pv, i), k) == Get(rec, k)
  {
    if pk != "ITEM" && Cell(pv, i).Some? {
      var x := Cell(pv, i).value;
      if !HasKey(rec, gk) {
        GetSetOther(rec, gk, x, k);
      }
      GetSetOther(if HasKey(rec, gk) then rec else Set(rec, gk, x), pk, x, k);
    }
  }

  lemma {:induction false} OtherGroupKeeps(rec: Entries, gk: string, gd: Entries, i: nat, k: string)
    requires gk != k && NoColumn(gd, k)
    ensures Get(WriteGroup(rec, gk, gd, i), k) == Get(rec, k)
    decreases |gd|
  {
    if gd != [] {
      var init, last := gd[..|gd| - 1], gd[|gd| - 1];
      assert NoColumn(init, k);
      OtherGroupKeeps(rec, gk, init, i, k);
      ColumnOther(WriteGroup(rec, gk, init, i), gk, last.0, last.1, i, k);
    }
  }

  /** Groups that neither are named `k` nor hold a column `k` leave `k` alone. */
  predicate Untouched(gs: Groups, k: string) {
    forall j :: 0 <= j < |gs| ==> gs[j].0 != k && NoColumn(gs[j].1, k)
  }

  lemma {:induction false} UntouchedKeeps(rec: Entries, gs: Groups, i: nat, k: string)
    requires Untouched(gs, k)
    ensures Get(WriteGroups(rec, gs, i), k) == Get(rec, k)
    decreases |gs|
  {
    if gs != [] {
      var init, last := gs[..|gs| - 1], gs[|gs| - 1];
      assert Untouched(init, k);
      UntouchedKeeps(rec, init, i, k);
      OtherGroupKeeps(WriteGroups(rec, init, i), last.0, last.1, i, k);
    }
  }

  lemma {:induction false} WriteGroupsAppend(rec: Entries, a: Groups, b: Groups, i: nat)
    ensures WriteGroups(rec, a + b, i) == WriteGroups(WriteGroups(rec, a, i), b, i)
    decreases |b|
  {
    if b == [] {
      assert a + b == a;
    } else {
      assert (a + b)[..|a + b| - 1] == a + b[..|b| - 1];
      WriteGroupsAppend(rec, a, b[..|b| - 1], i);
    }
  }

  /** Group key column: when the group keys are distinct, differ from
      `ITEM` and from every column name, the record of statistic `i` holds
      under a group's key the first cell at `i` of that group, and lacks the
      key when the group has none. */
  lemma StatusGroupKey(gs: Groups, item: Value, i: nat, g: nat)
    requires g < |gs| && gs[g].0 != "ITEM"
    requires forall j :: 0 <= j < |gs| ==> NoColumn(gs[j].1, gs[g].0)
    requires forall j :: 0 <= j < |gs| && j != g ==> gs[j].0 != gs[g].0
    ensures Get(StatusRecord(gs, item, i), gs[g].0) == FirstCell(gs[g].1, i)
  {
    var k := gs[g].0;
    var rec := [("ITEM", item)];
    var before, after := gs[..g], gs[g + 1..];
    assert gs == before + [gs[g]] + after;
    assert Untouched(before, k) by {
      forall j | 0 <= j < |before| ensures before[j].0 != k && NoColumn(before[j].1, k) {
        assert before[j] == gs[j];
      }
    }
    assert Untouched(after, k) by {
      forall j | 0 <= j < |after| ensures after[j].0 != k && NoColumn(after[j].1, k) {
        assert after[j] == gs[g + 1 + j];
      }
    }
    WriteGroupsAppend(rec, before + [gs[g]], after, i);
    WriteGroupsAppend(rec, before, [gs[g]], i);
    UntouchedKeeps(rec, before, i, k);
    var r0 := WriteGroups(rec, before, i);
    assert WriteGroups(r0, [gs[g]], i) == WriteGroup(r0, k, gs[g].1, i);
    GroupKeyFirst(r0, k, gs[g].1, i);
    UntouchedKeeps(WriteGroups(r0, [gs[g]], i), after, i, k);
  }

  // ---- data_detail -> detail records --------------------------------------

  /** The cells at `i` written left to right, each under its column name. */
  function WriteCells(rec: Entries, gd: Entries, i: nat): Entries
    decreases |gd|
  {
    if gd == [] then rec
    else
      var r := WriteCells(rec, gd[..|gd| - 1], i);
      if Cell(gd[|gd| - 1].1, i).Some? then Set(r, gd[|gd| - 1].0, Cell(gd[|gd| - 1].1, i).value) else r
  }

  /** Row `i` of group `gk`. */
  function DetailRow(gk: string, gd: Entries, i: nat): Entries {
    WriteCells([("measurement_point", Str(gk)), ("index", Int(i))], gd, i)
  }

  function DetailRows(gk: string, gd: Entries, n: nat): (r: seq<Entries>)
    ensures |r| == n
    ensures forall i :: 0 <= i < n ==> r[i] == DetailRow(gk, gd, i)
  {
    if n == 0 then [] else DetailRows(gk, gd, n - 1) + [DetailRow(gk, gd, n - 1)]
  }

  /** The rows of one group: none without a `Point No` column, otherwise
      one per entry of `Point No`. */
  function GroupDetail(gk: string, gd: Entries): Option<seq<Entries>> {
    match Get(gd, "Point No")
    case None => Some([])
    case Some(v) =>
      match PyLen(v)
      case None => None
      case Some(n) => Some(DetailRows(gk, gd, n))
  }

  /** `convert_data_detail_to_records`. */
  function ConvertDataDetail(gs: Groups): Option<seq<Entries>>
    decreases |gs|
  {
    if gs == [] then Some([])
    else Concat(ConvertDataDetail(gs[..|gs| - 1]), GroupDetail(gs[|gs| - 1].0, gs[|gs| - 1].1))
  }

  /** Two results in sequence: the first TypeError wins. */
  function Concat(x: Option<seq<Entries>>, y: Option<seq<Entries>>): Option<seq<Entries>> {
    if x.Some? && y.Some? then Some(x.value + y.value) else None
  }

  method ConvertDataDetailToRecords(dataDetail: Groups) returns (r: Option<seq<Entries>>)
    ensures r == ConvertDataDetail(dataDetail)
  {
    var allRecords: seq<Entries> := [];
    var g := 0;
    while g < |dataDetail|
      invariant 0 <= g <= |dataDetail|
      invariant ConvertDataDetail(dataDetail[..g]) == Some(allRecords)
    {
      assert dataDetail[..g + 1] == dataDetail[..g] + [dataDetail[g]];
      DetailSnoc(dataDetail[..g], dataDetail[g]);
      var rows := GroupRecords(dataDetail[g].0, dataDetail[g].1);
      if rows.None? {
        DetailNonePrefix(dataDetail, g + 1);
        return None;
      }
      allRecords := allRecords + rows.value;
      g := g + 1;
    }
    assert dataDetail[..|dataDetail|] == dataDetail;
    return Some(allRecords);
  }

  /** The rows of one group, or the TypeError of `len(Point No)`. */
  method GroupRecords(pointKey: string, pointData: Entries) returns (rows: Option<seq<Entries>>)
    ensures rows == GroupDetail(pointKey, pointData)
  {
    var pointNumbers := Get(pointData, "Point No");
    if pointNumbers.None? {
      return Some([]);
    }
    var len := PyLen(pointNumbers.value);
    if len.None? {
      return None;
    }
    var built := BuildDetailRows(pointKey, pointData, len.value);
    return Some(built);
  }

  method BuildDetailRows(gk: string, gd: Entries, n: nat) returns (rows: seq<Entries>)
    ensures rows == DetailRows(gk, gd, n)
  {
    rows := [];
    var i := 0;
    while i < n
      invariant 0 <= i <= n
      invariant rows == DetailRows(gk, gd, i)
    {
      var record := WriteRowCells([("measurement_point", Str(gk)), ("index", Int(i))], gd, i);
      rows := rows + [record];
      i := i + 1;
    }
  }

  /** The inner loop over the columns: each cell at `i` is copied. */
  method WriteRowCells(rec: Entries, gd: Entries, i: nat) returns (record: Entries)
    ensures record == WriteCells(rec, gd, i)
  {
    record := rec;
    var j := 0;
    while j < |gd|
      invariant 0 <= j <= |gd|
      invariant record == WriteCells(rec, gd[..j], i)
    {
      assert gd[..j + 1][..j] == gd[..j];
      var (pk, pv) := gd[j];
      if pv.List? && i < |pv.items| {
        record := Set(record, pk, pv.items[i]);
      }
      j := j + 1;
    }
    assert gd[..|gd|] == gd;
  }

  lemma {:induction false} WriteCellsGet(rec: Entries, gd: Entries, i: nat, k: string)
    ensures Get(WriteCells(rec, gd, i), k) == if LastCell(gd, k, i).Some? then LastCell(gd, k, i) else Get(rec, k)
    decreases |gd|
  {
    if gd != [] {
      var init, last := gd[..|gd| - 1], gd[|gd| - 1];
      WriteCellsGet(rec, init, i, k);
      if Cell(last.1, i).Some? {
        if last.0 == k {
          GetSetSame(WriteCells(rec, init, i), k, Cell(last.1, i).value);
        } else {
          GetSetOther(WriteCells(rec, init, i), last.0, Cell(last.1, i).value, k);
        }
      }
    }
  }

  /** Row `i` of group `gk` carries the group key and `i` (unless a column of
      that name has a cell at `i`), and every other column's cell at `i`;
      a column shorter than `i + 1` is absent from the row. */
  lemma DetailRowFields(gk: string, gd: Entries, i: nat, k: string)
    ensures k != "measurement_point" && k != "index" ==> Get(DetailRow(gk, gd, i), k) == LastCell(gd, k, i)
    ensures LastCell(gd, "measurement_point", i).None? ==> Get(DetailRow(gk, gd, i), "measurement_point") == Some(Str(gk))
    ensures LastCell(gd, "index", i).None? ==> Get(DetailRow(gk, gd, i), "index") == Some(Int(i))
  {
    var base := [("measurement_point", Str(gk)), ("index", Int(i))];
    WriteCellsGet(base, gd, i, k);
    WriteCellsGet(base, gd, i, "measurement_point");
    WriteCellsGet(base, gd, i, "index");
  }

  /** A group without `Point No` emits nothing; one with it emits exactly
      `len(Point No)` rows, row `i` being `DetailRow(gk, gd, i)`. */
  lemma GroupDetailRows(gk: string, gd: Entries, v: Value, n: nat)
    requires Get(gd, "Point No") == Some(v) && PyLen(v) == Some(n)
    ensures GroupDetail(gk, gd).Some? && |GroupDetail(gk, gd).value| == n
    ensures forall i :: 0 <= i < n ==> GroupDetail(gk, gd).value[i] == DetailRow(gk, gd, i)
  {
  }

  /** The detail records of consecutive groups are the records of each,
      concatenated in insertion order. */
  lemma {:induction false} DetailAppend(a: Groups, b: Groups)
    ensures ConvertDataDetail(a + b) == Concat(ConvertDataDetail(a), ConvertDataDetail(b))
    decreases |b|
  {
    if b == [] {
      assert a + b == a;
      ConcatEmpty(ConvertDataDetail(a));
    } else {
      var init, last := b[..|b| - 1], b[|b| - 1];
      assert a + b == (a + init) + [last];
      assert b == init + [last];
      DetailSnoc(a + init, last);
      DetailSnoc(init, last);
      DetailAppend(a, init);
      ConcatAssoc(ConvertDataDetail(a), ConvertDataDetail(init), GroupDetail(last.0, last.1));
    }
  }

  /** A TypeError in some group makes the whole conversion fail. */
  lemma DetailNonePrefix(gs: Groups, n: nat)
    requires n <= |gs| && ConvertDataDetail(gs[..n]).None?
    ensures ConvertDataDetail(gs).None?
  {
    DetailAppend(gs[..n], gs[n..]);
    assert gs[..n] + gs[n..] == gs;
  }

  lemma DetailSnoc(gs: Groups, g: (string, Entries))
    ensures ConvertDataDetail(gs + [g]) == Concat(ConvertDataDetail(gs), GroupDetail(g.0, g.1))
  {
    assert (gs + [g])[..|gs|] == gs;
  }

  lemma ConcatEmpty(x: Option<seq<Entries>>)
    ensures Concat(x, Some([])) == x
  {
    if x.Some? {
      assert x.value + [] == x.value;
    }
  }

  lemma ConcatAssoc(x: Option<seq<Entries>>, y: Option<seq<Entries>>, z: Option<seq<Entries>>)
    ensures Concat(Concat(x, y), z) == Concat(x, Concat(y, z))
  {
    if x.Some? && y.Some? && z.Some? {
      assert x.value + y.value + z.value == x.value + (y.value + z.value);
    }
  }

  /** A group without `Point No` contributes no rows. */
  lemma DetailSkipsGroup(a: Groups, gk: string, gd: Entries)
    requires !HasKey(gd, "Point No")
    ensures ConvertDataDetail(a + [(gk, gd)]) == ConvertDataDetail(a)
  {
    assert (a + [(gk, gd)])[..|a|] == a;
    match ConvertDataDetail(a)
    case None =>
    case Some(x) => assert x + [] == x;
  }
}
