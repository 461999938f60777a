/** Response shaping of the main API handlers in api/routes.py: the detail
    payload built from a measurement pickle (`data_status` and `data_detail`
    converted to records, the available points, and a grid profile for the
    first detail group), the profile-point conversion with its coordinate
    key detection, and the image-serving decision. */
module Routes {
  import opened Common
  import opened Text
  import opened DataConverter

  // ---- detail payload -------------------------------------------------------

  /** The groups of a table whose every value is a dict. */
  function AsGroups(es: Entries): (r: Option<Groups>)
    ensures r.Some? <==> forall j :: 0 <= j < |es| ==> es[j].1.Dict?
    ensures r.Some? ==> |r.value| == |es| && forall j :: 0 <= j < |es| ==> r.value[j] == (es[j].0, es[j].1.entries)
  {
    if es == [] then Some([])
    else if !es[0].1.Dict? then None
    else match AsGroups(es[1..])
      case None => None
      case Some(rest) => Some([(es[0].0, es[0].1.entries)] + rest)
  }

  /** A conversion run inside `try`: a failure (a non-dict group, a
      TypeError) leaves the empty list. */
  function Guarded(r: Option<seq<Entries>>): seq<Entries> {
    if r.Some? then r.value else []
  }

  /** `convert_data_status_to_records` under `try`. A group that is not a
      dict always ends in the empty list: the first group is subscripted for
      `ITEM` once the test finds it, and every group is iterated with
      `.items()` for each statistic. */
  function StatusSummary(status: Entries): (r: seq<Entries>)
    ensures (exists j :: 0 <= j < |status| && !status[j].1.Dict?) ==> r == []
    ensures status != [] && status[0].1.Dict? && !HasKey(status[0].1.entries, "ITEM") ==> r == []
    ensures AsGroups(status).Some? && status != [] && Get(status[0].1.entries, "ITEM").Some? && Get(status[0].1.entries, "ITEM").value.List? ==>
      var items := Get(status[0].1.entries, "ITEM").value.items;
      |r| == |items| && forall i :: 0 <= i < |items| ==> r[i] == StatusRecord(AsGroups(status).value, items[i], i)
  {
    match AsGroups(status)
    case None => []
    case Some(gs) => Guarded(ConvertDataStatus(gs))
  }

  /** A `data_detail` group the conversion can handle: a dict, or a value
      for which `'Point No' in point_data` is false, which it skips. */
  predicate DetailGroupOk(v: Value) {
    v.Dict? || PyContains(v, "Point No") == Some(false)
  }

  /** The dict groups of `data_detail`, skipping the values without
      `Point No`; `None` is the TypeError of testing a scalar or of
      subscripting a list or string that holds `Point No`. */
  function DetailGroups(es: Entries): (r: Option<Groups>)
    ensures r.Some? <==> forall j :: 0 <= j < |es| ==> DetailGroupOk(es[j].1)
  {
    if es == [] then Some([])
    else if !DetailGroupOk(es[0].1) then None
    else match DetailGroups(es[1..])
      case None => None
      case Some(rest) => Some(if es[0].1.Dict? then [(es[0].0, es[0].1.entries)] + rest else rest)
  }

  /** `convert_data_detail_to_records` under `try`: the empty list when a
      group makes it raise, otherwise the records of the dict groups. */
  function DetailData(detail: Entries): (r: seq<Entries>)
    ensures (exists j :: 0 <= j < |detail| && !DetailGroupOk(detail[j].1)) ==> r == []
    ensures AsGroups(detail).Some? ==> r == Guarded(ConvertDataDetail(AsGroups(detail).value))
  {
    DetailGroupsDicts(detail);
    match DetailGroups(detail)
    case None => []
    case Some(gs) => Guarded(ConvertDataDetail(gs))
  }

  /** With only dict groups, the detail groups are all the groups. */
  lemma {:induction false} DetailGroupsDicts(es: Entries)
    ensures AsGroups(es).Some? ==> DetailGroups(es) == AsGroups(es)
  {
    if es != [] {
      DetailGroupsDicts(es[1..]);
    }
  }

  /** A group without `Point No` that is not a dict is skipped: the records
      are those of the table without it. */
  lemma DetailDataSkips(a: Entries, k: string, v: Value, b: Entries)
    requires !v.Dict? && PyContains(v, "Point No") == Some(false)
    ensures DetailData(a + [(k, v)] + b) == DetailData(a + b)
  {
    DetailGroupsSkip(a, k, v, b);
  }

  lemma {:induction false} DetailGroupsSkip(a: Entries, k: string, v: Value, b: Entries)
    requires !v.Dict? && PyContains(v, "Point No") == Some(false)
    ensures DetailGroups(a + [(k, v)] + b) == DetailGroups(a + b)
  {
    if a == [] {
      assert a + [(k, v)] + b == [(k, v)] + b;
      assert ([(k, v)] + b)[1..] == b;
      assert a + b == b;
    } else {
      DetailGroupsSkip(a[1..], k, v, b);
      assert (a + [(k, v)] + b)[0] == a[0] && (a + b)[0] == a[0];
      assert (a + [(k, v)] + b)[1..] == a[1..] + [(k, v)] + b;
      assert (a + b)[1..] == a[1..] + b;
    }
  }

  /** One point of the grid profile. */
  datatype GridPoint = GridPoint(x: int, y: int, z: Value)

  /** Point `i` of the grid sits at column `i % 50`, row `i / 50`. */
  function GridAt(heights: seq<Value>, i: nat): GridPoint
    requires i < |heights|
  {
    GridPoint(i % 50, i / 50, heights[i])
  }

  /** The first `n` grid points. */
  function GridRows(heights: seq<Value>, n: nat): (r: seq<GridPoint>)
    requires n <= |heights|
    ensures |r| == n
    ensures forall i :: 0 <= i < n ==> r[i] == GridAt(heights, i)
  {
    if n == 0 then [] else GridRows(heights, n - 1) + [GridAt(heights, n - 1)]
  }

  /** The grid profile of the first detail group: `Point No` zipped with
      `Left_H (nm)`, at most 1000 points. `None` is a TypeError: testing or
      subscripting a group that is not a dict, or zipping a scalar. */
  function GridProfile(detail: Entries): (r: Option<seq<GridPoint>>)
    ensures detail == [] ==> r == Some([])
    ensures detail != [] && PyContains(detail[0].1, "Point No").None? ==> r.None?
    ensures detail != [] && detail[0].1.Dict? && !(HasKey(detail[0].1.entries, "Point No") && HasKey(detail[0].1.entries, "Left_H (nm)")) ==>
      r == Some([])
    ensures r.Some? ==> |r.value| <= 1000
    ensures r.Some? ==> forall i :: 0 <= i < |r.value| ==> r.value[i].x == i % 50 && r.value[i].y == i / 50
  {
    if detail == [] then Some([])
    else
      var first := detail[0].1;
      match (PyContains(first, "Point No"), PyContains(first, "Left_H (nm)"))
      case (Some(hasPoints), Some(hasHeights)) =>
        if !(hasPoints && hasHeights) then Some([])
        else if !first.Dict? then None
        else
          (match (PyIter(Get(first.entries, "Point No").value), PyIter(Get(first.entries, "Left_H (nm)").value))
           case (Some(ps), Some(hs)) => Some(GridRows(hs, Min(Min(|ps|, |hs|), 1000)))
           case _ => None)
      case _ => None
  }

  /** The zip loop: every pair is visited, but only the first 1000 are kept. */
  method BuildGridProfile(pointNos: seq<Value>, heights: seq<Value>) returns (profile: seq<GridPoint>)
    ensures profile == GridRows(heights, Min(Min(|pointNos|, |heights|), 1000))
  {
    profile := [];
    var n := Min(|pointNos|, |heights|);
    var i := 0;
    while i < n
      invariant 0 <= i <= n
      invariant profile == GridRows(heights, Min(i, 1000))
    {
      if i < 1000 {
        profile := profile + [GridPoint(i % 50, i / 50, heights[i])];
      }
      i := i + 1;
    }
  }

  /** Grid points lie on a 50-column grid of at most 20 rows, each point at
      its own cell, and the cell gives back the point's index. */
  lemma GridLayout(heights: seq<Value>, n: nat, i: nat, j: nat)
    requires n <= |heights| && n <= 1000 && i < n && j < n
    ensures 0 <= GridRows(heights, n)[i].x < 50 && 0 <= GridRows(heights, n)[i].y < 20
    ensures GridRows(heights, n)[i].y * 50 + GridRows(heights, n)[i].x == i
    ensures GridRows(heights, n)[i].z == heights[i]
    ensures i != j ==> (GridRows(heights, n)[i].x, GridRows(heights, n)[i].y) != (GridRows(heights, n)[j].x, GridRows(heights, n)[j].y)
  {
    assert i == (i / 50) * 50 + i % 50;
    assert j == (j / 50) * 50 + j % 50;
  }

  datatype FileDetail = FileDetail(
    information: Value,
    summary: seq<Entries>,
    detail: seq<Entries>,
    availablePoints: seq<string>,
    profile: seq<GridPoint>)

  datatype DetailResponse =
    | Detail(payload: FileDetail)
    | InvalidFormat   // 400: the pickle is not a dict
    | Failed          // 500: an exception outside the guarded conversions

  function GetOr(d: Entries, k: string, default: Value): Value {
    if HasKey(d, k) then Get(d, k).value else default
  }

  /** `get_afm_file_detail` for a loaded pickle. A truthy `info`,
      `data_status` or `data_detail` that is not a dict fails when its keys
      are listed. */
  function AfmFileDetail(data: Value): (r: DetailResponse)
    ensures r == InvalidFormat <==> !data.Dict?
    ensures data.Dict? && HasKey(data.entries, "info") && PyTruthy(Get(data.entries, "info").value) && !Get(data.entries, "info").value.Dict? ==>
      r == Failed
    ensures data.Dict? && HasKey(data.entries, "data_status") && PyTruthy(Get(data.entries, "data_status").value) && !Get(data.entries, "data_status").value.Dict? ==>
      r == Failed
    ensures data.Dict? && HasKey(data.entries, "data_detail") && PyTruthy(Get(data.entries, "data_detail").value) && !Get(data.entries, "data_detail").value.Dict? ==>
      r == Failed
    ensures r.Detail? ==> |r.payload.profile| <= 1000
    ensures r.Detail? && !HasKey(data.entries, "data_status") ==> r.payload.summary == [] && r.payload.availablePoints == []
    ensures r.Detail? && !HasKey(data.entries, "data_detail") ==> r.payload.detail == [] && r.payload.profile == []
  {
    if !data.Dict? then InvalidFormat
    else
      var info := GetOr(data.entries, "info", Dict([]));
      var status := GetOr(data.entries, "data_status", Dict([]));
      var detail := GetOr(data.entries, "data_detail", Dict([]));
      if (PyTruthy(info) && !info.Dict?) || (PyTruthy(status) && !status.Dict?) || (PyTruthy(detail) && !detail.Dict?) then Failed
      else
        var st := if status.Dict? then status.entries else [];
        var de := if detail.Dict? then detail.entries else [];
        match GridProfile(de)
        case None => Failed
        case Some(profile) => Detail(FileDetail(info, StatusSummary(st), DetailData(de), Keys(st), profile))
  }

  /** The available points are the `data_status` keys in insertion order,
      not sorted, and none when `data_status` is missing or empty. */
  lemma AvailablePointsUnsorted(data: Value)
    requires AfmFileDetail(data).Detail?
    ensures HasKey(data.entries, "data_status") && Get(data.entries, "data_status").value.Dict? ==>
      AfmFileDetail(data).payload.availablePoints == Keys(Get(data.entries, "data_status").value.entries)
    ensures !HasKey(data.entries, "data_status") ==> AfmFileDetail(data).payload.availablePoints == []
  {
    assert Keys<Value>([]) == [];
  }

  /** The grid profile has at most 1000 points, and exactly
      `min(len(Point No), len(Left_H (nm)), 1000)` when both columns are
      lists in the first group. */
  lemma GridProfileSize(detail: Entries, ps: seq<Value>, hs: seq<Value>)
    requires detail != [] && detail[0].1.Dict?
    requires Get(detail[0].1.entries, "Point No") == Some(List(ps))
    requires Get(detail[0].1.entries, "Left_H (nm)") == Some(List(hs))
    ensures GridProfile(detail).Some?
    ensures |GridProfile(detail).value| == Min(Min(|ps|, |hs|), 1000)
    ensures |GridProfile(detail).value| <= 1000
  {
  }

  // ---- profile points -------------------------------------------------------

  predicate HasX(k: string) { Contains(Lower(k), "x") }
  predicate HasY(k: string) { Contains(Lower(k), "y") }
  predicate ZName(k: string) {
    Contains(Lower(k), "z") || Contains(Lower(k), "height") || Contains(Lower(k), "h")
  }

  datatype CoordKeys = CoordKeys(x: Option<string>, y: Option<string>, z: Option<string>)

  /** One step of the key scan: the first key containing `x` claims x; failing
      that, the first key containing `y` claims y; failing both, any key
      containing `z`, `height` or `h` replaces the z key. */
  function KeyStep(ck: CoordKeys, key: string): CoordKeys {
    if HasX(key) && ck.x.None? then ck.(x := Some(key))
    else if HasY(key) && ck.y.None? then ck.(y := Some(key))
    else if ZName(key) then ck.(z := Some(key))
    else ck
  }

  function DetectKeys(keys: seq<string>): (r: CoordKeys)
    ensures r.x.Some? ==> r.x.value in keys
    ensures r.y.Some? ==> r.y.value in keys
    ensures r.z.Some? ==> r.z.value in keys
    decreases |keys|
  {
    if keys == [] then CoordKeys(None, None, None)
    else KeyStep(DetectKeys(keys[..|keys| - 1]), keys[|keys| - 1])
  }

  method DetectCoordinateKeys(keys: seq<string>) returns (xKey: Option<string>, yKey: Option<string>, zKey: Option<string>)
    ensures CoordKeys(xKey, yKey, zKey) == DetectKeys(keys)
  {
    xKey, yKey, zKey := None, None, None;
    var j := 0;
    while j < |keys|
      invariant 0 <= j <= |keys|
      invariant CoordKeys(xKey, yKey, zKey) == DetectKeys(keys[..j])
    {
      assert keys[..j + 1][..j] == keys[..j];
      var keyLower := Lower(keys[j]);
      if Contains(keyLower, "x") && xKey.None? {
        xKey := Some(keys[j]);
      } else if Contains(keyLower, "y") && yKey.None? {
        yKey := Some(keys[j]);
      } else if Contains(keyLower, "z") || Contains(keyLower, "height") || Contains(keyLower, "h") {
        zKey := Some(keys[j]);
      }
      j := j + 1;
    }
    assert keys[..|keys|] == keys;
  }

  function IsX(): string -> bool { (k: string) => HasX(k) }

  /** The x key is the first key containing `x` (ignoring case). */
  lemma {:induction false} DetectedX(keys: seq<string>)
    ensures DetectKeys(keys).x == First(keys, IsX())
    decreases |keys|
  {
    if keys != [] {
      var n := |keys| - 1;
      assert keys[..n + 1] == keys;
      DetectedX(keys[..n]);
      FirstSnoc(keys, n, IsX());
    }
  }

  /** A detected y key contains `y` and a detected z key names a height. */
  lemma {:induction false} DetectedKeysMatch(keys: seq<string>)
    ensures DetectKeys(keys).y.Some? ==> HasY(DetectKeys(keys).y.value)
    ensures DetectKeys(keys).z.Some? ==> ZName(DetectKeys(keys).z.value)
    decreases |keys|
  {
    if keys != [] {
      DetectedKeysMatch(keys[..|keys| - 1]);
    }
  }

  /** The z key is the last key that reaches the z test; a final key that
      names a height and contains neither `x` nor `y` always wins. */
  lemma LastHeightKeyWins(keys: seq<string>, key: string)
    requires ZName(key) && !HasX(key) && !HasY(key)
    ensures DetectKeys(keys + [key]).z == Some(key)
  {
    assert (keys + [key])[..|keys|] == keys;
  }

  /** `None` coordinate values become 0. */
  function Coord(v: Value): Value {
    if v.Null? then Int(0) else v
  }

  /** Element `i` of a column: list elements, characters of a string; a dict
      column has no integer keys (KeyError). */
  function Elements(v: Value): (r: Option<seq<Value>>)
    ensures v.List? ==> r == Some(v.items)
  {
    if v.List? || v.Str? then PyIter(v) else None
  }

  /** Point `i` with x, y and (when there is z data) z. */
  function ProfilePoint(xs: seq<Value>, ys: seq<Value>, zs: seq<Value>, withZ: bool, i: nat): Entries
    requires i < |xs| && i < |ys| && (withZ ==> i < |zs|)
  {
    [("x", Coord(xs[i])), ("y", Coord(ys[i]))] + (if withZ then [("z", Coord(zs[i]))] else [])
  }

  function ProfilePoints(xs: seq<Value>, ys: seq<Value>, zs: seq<Value>, withZ: bool, n: nat): (r: seq<Entries>)
    requires n <= |xs| && n <= |ys| && (withZ ==> n <= |zs|)
    ensures |r| == n
    ensures forall i :: 0 <= i < n ==> r[i] == ProfilePoint(xs, ys, zs, withZ, i)
  {
    if n == 0 then [] else ProfilePoints(xs, ys, zs, withZ, n - 1) + [ProfilePoint(xs, ys, zs, withZ, n - 1)]
  }

  datatype ProfileResponse = Profile(points: seq<Entries>) | ProfileFailed

  /** `min(len(x), len(y))`, further limited by `len(z)` when the z data is
      truthy. */
  function MinLength(lx: nat, ly: nat, lz: nat, withZ: bool): (r: nat)
    ensures r <= lx && r <= ly && (withZ ==> r <= lz)
    ensures r == lx || r == ly || (withZ && r == lz)
  {
    var m := Min(lx, ly);
    if withZ then Min(m, lz) else m
  }

  /** The response of `get_profile_data` for a loaded profile pickle: a
      non-dict or a dict without x and y keys gives no points;
      `ProfileFailed` is the 500 of a `len` or an index that raises. */
  function ProfileData(profile: Value): ProfileResponse {
    if !profile.Dict? then Profile([])
    else
      var es := profile.entries;
      var ck := DetectKeys(Keys(es));
      if ck.x.None? || ck.y.None? then Profile([])
      else
        var zd := if ck.z.Some? then Get(es, ck.z.value).value else List([]);
        ColumnPoints(Get(es, ck.x.value).value, Get(es, ck.y.value).value, zd)
  }

  /** The points built from the x, y and z columns; the z column counts only
      when it is truthy. */
  function ColumnPoints(xd: Value, yd: Value, zd: Value): ProfileResponse {
    var withZ := PyTruthy(zd);
    if PyLen(xd).None? || PyLen(yd).None? || (withZ && PyLen(zd).None?) then ProfileFailed
    else
      var n := MinLength(PyLen(xd).value, PyLen(yd).value, if withZ then PyLen(zd).value else 0, withZ);
      if n == 0 then Profile([])
      else if Elements(xd).None? || Elements(yd).None? || (withZ && Elements(zd).None?) then ProfileFailed
      else
        var zs := if withZ then Elements(zd).value else [];
        Profile(ProfilePoints(Elements(xd).value, Elements(yd).value, zs, withZ, n))
  }

  lemma ListColumn(xs: seq<Value>)
    ensures PyLen(List(xs)) == Some(|xs|) && Elements(List(xs)) == Some(xs)
  {
  }

  lemma ElementsLen(v: Value)
    requires Elements(v).Some?
    ensures PyLen(v).Some? && |Elements(v).value| == PyLen(v).value
  {
  }

  /** With list columns and a falsy z column (missing, empty, 0, None) the
      points pair the first `min(len(x), len(y))` x and y values. */
  lemma ProfileLengthNoZ(xs: seq<Value>, ys: seq<Value>, zd: Value)
    requires !PyTruthy(zd)
    ensures ColumnPoints(List(xs), List(ys), zd) == Profile(ProfilePoints(xs, ys, [], false, Min(|xs|, |ys|)))
  {
    ListColumn(xs);
    ListColumn(ys);
    if |xs| == 0 || |ys| == 0 {
      assert ProfilePoints(xs, ys, [], false, Min(|xs|, |ys|)) == [];
    }
  }

  /** A non-empty z list further limits the number of points to `len(z)`. */
  lemma ProfileLengthZ(xs: seq<Value>, ys: seq<Value>, zs: seq<Value>)
    requires zs != []
    ensures ColumnPoints(List(xs), List(ys), List(zs)) == Profile(ProfilePoints(xs, ys, zs, true, Min(Min(|xs|, |ys|), |zs|)))
  {
    if |xs| == 0 || |ys| == 0 {
      EmptyColumn(xs, ys, List(zs));
      assert ProfilePoints(xs, ys, zs, true, Min(Min(|xs|, |ys|), |zs|)) == [];
    } else {
      ZColumnPoints(xs, ys, zs);
    }
  }

  lemma ZColumnPoints(xs: seq<Value>, ys: seq<Value>, zs: seq<Value>)
    requires zs != [] && |xs| > 0 && |ys| > 0
    ensures ColumnPoints(List(xs), List(ys), List(zs)) == Profile(ProfilePoints(xs, ys, zs, true, Min(Min(|xs|, |ys|), |zs|)))
  {
    ListColumn(xs);
    ListColumn(ys);
    ListColumn(zs);
    assert PyTruthy(List(zs));
  }

  /** An empty x or y list gives no points, whatever z column has a length. */
  lemma EmptyColumn(xs: seq<Value>, ys: seq<Value>, zd: Value)
    requires |xs| == 0 || |ys| == 0
    requires PyLen(zd).Some?
    ensures ColumnPoints(List(xs), List(ys), zd) == Profile([])
  {
    ListColumn(xs);
    ListColumn(ys);
  }

  /** A profile without a key naming a height has no z values. */
  lemma NoHeightKey(profile: Value)
    requires profile.Dict? && DetectKeys(Keys(profile.entries)).z.None?
    requires DetectKeys(Keys(profile.entries)).x.Some? && DetectKeys(Keys(profile.entries)).y.Some?
    ensures ProfileData(profile) == ColumnPoints(
      Get(profile.entries, DetectKeys(Keys(profile.entries)).x.value).value,
      Get(profile.entries, DetectKeys(Keys(profile.entries)).y.value).value,
      List([]))
  {
  }

  /** Point `i` holds the `i`-th x and y values with None read as 0, and a z
      value exactly when there is z data. */
  lemma ProfilePointFields(xs: seq<Value>, ys: seq<Value>, zs: seq<Value>, withZ: bool, n: nat, i: nat)
    requires n <= |xs| && n <= |ys| && (withZ ==> n <= |zs|) && i < n
    ensures Get(ProfilePoints(xs, ys, zs, withZ, n)[i], "x") == Some(if xs[i].Null? then Int(0) else xs[i])
    ensures Get(ProfilePoints(xs, ys, zs, withZ, n)[i], "y") == Some(if ys[i].Null? then Int(0) else ys[i])
    ensures HasKey(ProfilePoints(xs, ys, zs, withZ, n)[i], "z") <==> withZ
    ensures withZ ==> Get(ProfilePoints(xs, ys, zs, withZ, n)[i], "z") == Some(if zs[i].Null? then Int(0) else zs[i])
  {
    var p := ProfilePoints(xs, ys, zs, withZ, n)[i];
    assert p == ProfilePoint(xs, ys, zs, withZ, i);
    if withZ {
      assert p[1..][1..] == [("z", Coord(zs[i]))];
      assert Get(p[1..][1..], "z") == Some(Coord(zs[i]));
      assert Get(p[1..], "z") == Some(Coord(zs[i]));
    }
    assert Keys(p) == if withZ then ["x", "y", "z"] else ["x", "y"];
  }

  method ProcessProfileData(profile: Value) returns (r: ProfileResponse)
    ensures r == ProfileData(profile)
  {
    if !profile.Dict? {
      return Profile([]);
    }
    var es := profile.entries;
    var xKey, yKey, zKey := DetectCoordinateKeys(Keys(es));
    if xKey.None? || yKey.None? {
      return Profile([]);
    }
    var xd, yd := Get(es, xKey.value).value, Get(es, yKey.value).value;
    var zd := if zKey.Some? then Get(es, zKey.value).value else List([]);
    r := ProcessColumns(xd, yd, zd);
  }

  method ProcessColumns(xd: Value, yd: Value, zd: Value) returns (r: ProfileResponse)
    ensures r == ColumnPoints(xd, yd, zd)
  {
    var withZ := PyTruthy(zd);
    if PyLen(xd).None? || PyLen(yd).None? || (withZ && PyLen(zd).None?) {
      return ProfileFailed;
    }
    var n := MinLength(PyLen(xd).value, PyLen(yd).value, if withZ then PyLen(zd).value else 0, withZ);
    if n == 0 {
      return Profile([]);
    }
    if Elements(xd).None? || Elements(yd).None? || (withZ && Elements(zd).None?) {
      return ProfileFailed;
    }
    var xs, ys := Elements(xd).value, Elements(yd).value;
    var zs := if withZ then Elements(zd).value else [];
    ElementsLen(xd);
    ElementsLen(yd);
    if withZ {
      ElementsLen(zd);
    }
    var points := BuildProfilePoints(xs, ys, zs, withZ, n);
    return Profile(points);
  }

  /** The `range(min_length)` loop. */
  method BuildProfilePoints(xs: seq<Value>, ys: seq<Value>, zs: seq<Value>, withZ: bool, n: nat) returns (points: seq<Entries>)
    requires n <= |xs| && n <= |ys| && (withZ ==> n <= |zs|)
    ensures points == ProfilePoints(xs, ys, zs, withZ, n)
  {
    points := [];
    var i := 0;
    while i < n
      invariant 0 <= i <= n
      invariant points == ProfilePoints(xs, ys, zs, withZ, i)
    {
      var point := [("x", Coord(xs[i])), ("y", Coord(ys[i]))];
      if withZ && i < |zs| {
        point := point + [("z", Coord(zs[i]))];
      }
      assert point == ProfilePoint(xs, ys, zs, withZ, i);
      points := points + [point];
      i := i + 1;
    }
  }

  // ---- serving an image -----------------------------------------------------

  datatype ServeResponse = SendWebp(path: string) | NotFound

  /** `serve_profile_image`: 404 unless a path was resolved and exists. */
  function ServeProfileImage(path: Option<string>, existing: set<string>): (r: ServeResponse)
    ensures r.NotFound? <==> path.None? || path.value !in existing
    ensures r.SendWebp? ==> Some(r.path) == path
  {
    if path.None? || path.value !in existing then NotFound else SendWebp(path.value)
  }
}
