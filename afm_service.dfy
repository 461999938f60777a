/** The front-end AFM service: the query string of a profile request and the
    wafer map built from a measurement's detail response. */
module AfmService {
  import opened Common
  import opened Text
  import opened ExportUtils
  import opened DataService

  /** The tool used when the caller passes none. */
  const DefaultTool: string := "MAP608"

  function ToolOrDefault(toolName: Option<string>): string {
    if toolName.Some? then toolName.value else DefaultTool
  }

  // ---------------------------------------------------------------------
  // Profile request parameters
  // ---------------------------------------------------------------------

  /** The site fields a profile request forwards, in the order it appends
      them. */
  const SiteId: string := "site_id"
  const SiteX: string := "site_x"
  const SiteY: string := "site_y"
  const PointNo: string := "point_no"
  const SiteKeys: seq<string> := [SiteId, SiteX, SiteY, PointNo]

  /** The field is neither `undefined` nor `null`. */
  predicate Present(siteInfo: Value, k: string) {
    Field(siteInfo, k).Some? && !Field(siteInfo, k).value.Null?
  }

  /** The text `URLSearchParams.append` stores for a present field. */
  function ParamText(siteInfo: Value, k: string, num: real -> string): string {
    if Present(siteInfo, k) then JsString(Field(siteInfo, k).value, num) else ""
  }

  /** One conditional `params.append(k, siteInfo[k])`. */
  function SiteParam(siteInfo: Value, k: string, num: real -> string): seq<(string, string)> {
    if Present(siteInfo, k) then [(k, ParamText(siteInfo, k, num))] else []
  }

  /** The conditional appends for the keys `ks`, in order. */
  function ParamsFor(ks: seq<string>, siteInfo: Value, num: real -> string): seq<(string, string)> {
    if ks == [] then [] else SiteParam(siteInfo, ks[0], num) + ParamsFor(ks[1..], siteInfo, num)
  }

  /** The site parameters after `tool`: none without site information. */
  function SiteParams(siteInfo: Value, num: real -> string): seq<(string, string)> {
    if JsTruthy(siteInfo) then ParamsFor(SiteKeys, siteInfo, num) else []
  }

  lemma ParamsForFour(a: string, b: string, c: string, d: string, siteInfo: Value, num: real -> string)
    ensures ParamsFor([a, b, c, d], siteInfo, num)
         == [] + SiteParam(siteInfo, a, num) + SiteParam(siteInfo, b, num) + SiteParam(siteInfo, c, num) + SiteParam(siteInfo, d, num)
  {
    var A, B, C, D := SiteParam(siteInfo, a, num), SiteParam(siteInfo, b, num), SiteParam(siteInfo, c, num), SiteParam(siteInfo, d, num);
    assert [a, b, c, d][1..] == [b, c, d];
    assert [b, c, d][1..] == [c, d];
    assert [c, d][1..] == [d];
    assert [d][1..] == [];
    assert ParamsFor([], siteInfo, num) == [];
    assert ParamsFor([d], siteInfo, num) == D + [] == D;
    assert ParamsFor([c, d], siteInfo, num) == C + D;
    assert ParamsFor([b, c, d], siteInfo, num) == B + (C + D);
    assert ParamsFor([a, b, c, d], siteInfo, num) == A + (B + (C + D));
    assert A + (B + (C + D)) == [] + A + B + C + D;
  }

  /** The query parameters of `getProfileData`: `tool` first, then each site
      field that is neither `null` nor `undefined`. */
  method ProfileParams(toolName: Option<string>, siteInfo: Value, num: real -> string)
    returns (params: seq<(string, string)>)
    ensures params == [("tool", ToolOrDefault(toolName))] + SiteParams(siteInfo, num)
  {
    params := [("tool", ToolOrDefault(toolName))];
    if JsTruthy(siteInfo) {
      ghost var tool := params;
      ghost var sent := [];
      ghost var before := params;
      if Present(siteInfo, SiteId) {
        params := params + [(SiteId, ParamText(siteInfo, SiteId, num))];
      }
      AppendStep(tool, sent, before, params, siteInfo, SiteId, num);
      sent, before := sent + SiteParam(siteInfo, SiteId, num), params;
      if Present(siteInfo, SiteX) {
        params := params + [(SiteX, ParamText(siteInfo, SiteX, num))];
      }
      AppendStep(tool, sent, before, params, siteInfo, SiteX, num);
      sent, before := sent + SiteParam(siteInfo, SiteX, num), params;
      if Present(siteInfo, SiteY) {
        params := params + [(SiteY, ParamText(siteInfo, SiteY, num))];
      }
      AppendStep(tool, sent, before, params, siteInfo, SiteY, num);
      sent, before := sent + SiteParam(siteInfo, SiteY, num), params;
      if Present(siteInfo, PointNo) {
        params := params + [(PointNo, ParamText(siteInfo, PointNo, num))];
      }
      AppendStep(tool, sent, before, params, siteInfo, PointNo, num);
      ParamsForFour(SiteId, SiteX, SiteY, PointNo, siteInfo, num);
      assert SiteParams(siteInfo, num) == sent + SiteParam(siteInfo, PointNo, num);
    }
  }

  /** One conditional append extends the parameters by that key's part. */
  lemma AppendStep(tool: seq<(string, string)>, sent: seq<(string, string)>, before: seq<(string, string)>,
                   after: seq<(string, string)>, siteInfo: Value, k: string, num: real -> string)
    requires before == tool + sent
    requires after == if Present(siteInfo, k) then before + [(k, ParamText(siteInfo, k, num))] else before
    ensures after == tool + (sent + SiteParam(siteInfo, k, num))
  {
  }

  /** A pair is appended exactly for a listed key whose field is present,
      and it carries that field's text. */
  lemma {:induction false} ParamsForMeaning(ks: seq<string>, siteInfo: Value, num: real -> string, k: string, t: string)
    ensures (k, t) in ParamsFor(ks, siteInfo, num)
        <==> k in ks && Present(siteInfo, k) && t == JsString(Field(siteInfo, k).value, num)
  {
    if ks != [] {
      ParamsForMeaning(ks[1..], siteInfo, num, k, t);
      assert ks == [ks[0]] + ks[1..];
    }
  }

  /** The appended keys are the listed keys whose fields are present, in
      the listed order. */
  lemma {:induction false} ParamsForKeys(ks: seq<string>, siteInfo: Value, num: real -> string)
    ensures Keys(ParamsFor(ks, siteInfo, num)) == Filter(ks, k => Present(siteInfo, k))
  {
    if ks != [] {
      ParamsForKeys(ks[1..], siteInfo, num);
      ParamNamesStep(ks, siteInfo, num);
    }
  }

  lemma ParamNamesStep(ks: seq<string>, siteInfo: Value, num: real -> string)
    requires ks != []
    ensures Keys(ParamsFor(ks, siteInfo, num))
         == (if Present(siteInfo, ks[0]) then [ks[0]] else []) + Keys(ParamsFor(ks[1..], siteInfo, num))
  {
    var head := SiteParam(siteInfo, ks[0], num);
    var rest := ParamsFor(ks[1..], siteInfo, num);
    assert Keys(head + rest) == Keys(head) + Keys(rest);
  }

  /** The four site keys are distinct. */
  lemma SiteKeysDistinct()
    ensures NoDuplicates(SiteKeys)
  {
    assert |SiteId| == 7 && |SiteX| == 6 && |SiteY| == 6 && |PointNo| == 8;
    assert SiteX[5] != SiteY[5];
  }

  lemma {:induction false} FilterKeepsNoDuplicates<T>(s: seq<T>, p: T -> bool)
    requires NoDuplicates(s)
    ensures NoDuplicates(Filter(s, p))
  {
    var r := Filter(s, p);
    forall i, j | 0 <= i < j < |r| ensures r[i] != r[j] {
      if r[i] == r[j] {
        OccursTwice(r, i, j);
        OccursOnce(s, r[i]);
      }
    }
  }

  /** A parameter is sent exactly for a site field that is present in
      truthy site information, with that field's text; the site keys sent
      are the present ones in the order site_id, site_x, site_y, point_no,
      each at most once. */
  lemma SiteParamsMeaning(siteInfo: Value, num: real -> string, k: string, t: string)
    ensures (k, t) in SiteParams(siteInfo, num)
        <==> k in SiteKeys && JsTruthy(siteInfo) && Present(siteInfo, k) && t == JsString(Field(siteInfo, k).value, num)
    ensures Keys(SiteParams(siteInfo, num)) == if JsTruthy(siteInfo) then Filter(SiteKeys, k => Present(siteInfo, k)) else []
    ensures NoDuplicates(Keys(SiteParams(siteInfo, num)))
  {
    ParamsForMeaning(SiteKeys, siteInfo, num, k, t);
    ParamsForKeys(SiteKeys, siteInfo, num);
    SiteKeysDistinct();
    FilterKeepsNoDuplicates(SiteKeys, k => Present(siteInfo, k));
  }

  // ---------------------------------------------------------------------
  // Wafer map
  // ---------------------------------------------------------------------

  /** The message of a failed response that carries no `error` of its own. */
  const DefaultFailure: string := "Failed to fetch wafer data"

  /** The `error` of a failed result: a value from the response or a thrown
      error's message, or a `TypeError` the engine raised while reading the
      response (its message text is the engine's and is not modelled). */
  datatype Failure = Reason(v: Value) | TypeError

  datatype WaferPoint = WaferPoint(point: string, x: int, y: int, value: Value, name: string, position: Option<string>)

  datatype Wafer = Wafer(success: bool, data: seq<WaferPoint>, error: Option<Failure>)

  predicate Truthy(v: Option<Value>) {
    v.Some? && JsTruthy(v.value)
  }

  /** `Math.ceil(Math.sqrt(n))` on exact integers: the least `g` with
      `g * g >= n`. */
  function CeilSqrt(n: nat): (g: nat)
    ensures g * g >= n
    ensures n > 0 ==> (g - 1) * (g - 1) < n
  {
    if n == 0 then 0
    else
      var g := CeilSqrt(n - 1);
      if g * g >= n then g
      else
        assert g * g == n - 1;
        assert (g + 1) * (g + 1) == g * g + 2 * g + 1;
        g + 1
  }

  /** The fixed wafer positions of the named points. */
  function Corner(token: string): Option<(int, int)> {
    if token == "UL" then Some((-3, 3))
    else if token == "UR" then Some((3, 3))
    else if token == "LL" then Some((-3, -3))
    else if token == "LR" then Some((3, -3))
    else if token == "C" then Some((0, 0))
    else None
  }

  /** The grid cell of the `index`-th of `n` points. */
  function GridCell(index: nat, n: nat): (int, int)
    requires index < n
  {
    var g := CeilSqrt(n);
    ((index % g) * 2 - g, (index / g) * 2 - g)
  }

  /** Where a point goes: a named position (case-insensitive), or else its
      grid cell. */
  function Placement(position: Option<string>, index: nat, n: nat): (int, int)
    requires index < n
  {
    var token := if position.Some? && position.value != "" then Upper(position.value) else "";
    var c := Corner(token);
    if c.Some? then c.value else GridCell(index, n)
  }

  /** `summary.find(item => item.ITEM === 'MEAN')`: `None` when a `null`
      item is reached before the MEAN row, since reading its `ITEM` throws. */
  function FindMean(summary: seq<Value>): Option<Option<Value>> {
    if summary == [] then Some(None)
    else if summary[0].Null? then None
    else if Field(summary[0], "ITEM") == Some(Str("MEAN")) then Some(Some(summary[0]))
    else FindMean(summary[1..])
  }

  /** The MEAN row of the response data, looked up only when `summary` is an
      array. */
  function MeanRow(data: Value): Option<Option<Value>> {
    var s := Field(data, "summary");
    if s.Some? && s.value.List? then FindMean(s.value.items) else Some(None)
  }

  /** `response.data.available_points || []`; `None` when that is a truthy
      value without `forEach`. */
  function PointsOf(data: Value): Option<seq<Value>> {
    var p := Field(data, "available_points");
    if Truthy(p) then (if p.value.List? then Some(p.value.items) else None) else Some([])
  }

  predicate AllStrings(points: seq<Value>) {
    forall i :: 0 <= i < |points| ==> points[i].Str?
  }

  /** `point.split('_')`: the number and the position token, if any. */
  function PointNumber(point: string): string {
    Split(point, '_')[0]
  }

  function PositionToken(point: string): Option<string> {
    var parts := Split(point, '_');
    if |parts| >= 2 then Some(parts[1]) else None
  }

  /** The MEAN row's value for the point when it is truthy, otherwise the
      random default `75 + random * 50`. */
  function PointValue(point: string, mean: Option<Value>, draw: real): Value {
    if mean.Some? && Truthy(Field(mean.value, point)) then Field(mean.value, point).value
    else Float(75.0 + draw * 50.0)
  }

  /** The wafer entry of the `index`-th of `n` points. */
  function PointEntry(point: string, index: nat, n: nat, mean: Option<Value>, draw: real): WaferPoint
    requires index < n
  {
    var position := PositionToken(point);
    var xy := Placement(position, index, n);
    WaferPoint(point, xy.0, xy.1, PointValue(point, mean, draw), "Point " + PointNumber(point), position)
  }

  /** The point names of a list of strings. */
  function Names(points: seq<Value>): (r: seq<string>)
    ensures |r| == |points|
    ensures forall i :: 0 <= i < |points| && points[i].Str? ==> r[i] == points[i].s
  {
    seq(|points|, i requires 0 <= i < |points| => if points[i].Str? then points[i].s else "")
  }

  /** The entries of all points, in order. */
  function Entries(names: seq<string>, mean: Option<Value>, random: nat -> real): (r: seq<WaferPoint>)
    ensures |r| == |names|
  {
    seq(|names|, i requires 0 <= i < |names| => PointEntry(names[i], i, |names|, mean, random(i)))
  }

  /** The result once the points were read: each must be a string, and the
      MEAN row is looked up for every point. */
  function PointsWafer(pts: seq<Value>, data: Value, random: nat -> real): Wafer {
    if pts == [] then Wafer(true, [], None)
    else if !AllStrings(pts) || MeanRow(data).None? then Wafer(false, [], Some(TypeError))
    else Wafer(true, Entries(Names(pts), MeanRow(data).value, random), None)
  }

  /** The points a successful response with data lists. */
  function ListedPoints(response: Response): Option<seq<Value>> {
    if response.Returned? && Truthy(Get(response.body, "data")) then PointsOf(Get(response.body, "data").value) else None
  }

  /** What `getWaferData` returns. `random(i)` is the `Math.random()` draw
      made for the `i`-th point. A failed result carries no points, and the
      result fails exactly when the response was not a successful one with
      data, the points are not an array, or a point or the summary could not
      be read. */
  function WaferData(response: Response, random: nat -> real): (r: Wafer)
    ensures !r.success ==> r.data == [] && r.error.Some?
    ensures r.success ==> r.error.None?
    ensures r.success <==>
      response.Returned? && Truthy(Get(response.body, "success")) && ListedPoints(response).Some?
      && (ListedPoints(response).value == []
          || (AllStrings(ListedPoints(response).value) && MeanRow(Get(response.body, "data").value).Some?))
    ensures response.Threw? ==> r.error == Some(Reason(Str(response.message)))
  {
    match response
    case Threw(message) => Wafer(false, [], Some(Reason(Str(message))))
    case Returned(body) =>
      var data := Get(body, "data");
      if !(Truthy(Get(body, "success")) && Truthy(data)) then
        var e := Get(body, "error");
        Wafer(false, [], Some(Reason(if Truthy(e) then e.value else Str(DefaultFailure))))
      else
        var points := PointsOf(data.value);
        if points.None? then Wafer(false, [], Some(TypeError))
        else PointsWafer(points.value, data.value, random)
  }

  /** The `forEach` over the available points, pushing one entry each. */
  method PlacePoints(pts: seq<Value>, data: Value, random: nat -> real) returns (r: Wafer)
    ensures r == PointsWafer(pts, data, random)
  {
    var waferData: seq<WaferPoint> := [];
    ghost var names := Names(pts);
    var i := 0;
    while i < |pts|
      invariant 0 <= i <= |pts|
      invariant forall k :: 0 <= k < i ==> pts[k].Str?
      invariant i > 0 ==> MeanRow(data).Some?
      invariant |waferData| == i
      invariant forall k :: 0 <= k < i ==> waferData[k] == PointEntry(names[k], k, |pts|, MeanRow(data).value, random(k))
    {
      if !pts[i].Str? {
        return Wafer(false, [], Some(TypeError));
      }
      var mean := MeanRow(data);
      if mean.None? {
        return Wafer(false, [], Some(TypeError));
      }
      waferData := waferData + [PointEntry(pts[i].s, i, |pts|, mean.value, random(i))];
      i := i + 1;
    }
    if pts == [] {
      return Wafer(true, [], None);
    }
    assert waferData == Entries(names, MeanRow(data).value, random);
    return Wafer(true, waferData, None);
  }

  /** `getWaferData`. */
  method GetWaferData(response: Response, random: nat -> real) returns (r: Wafer)
    ensures r == WaferData(response, random)
  {
    if response.Threw? {
      return Wafer(false, [], Some(Reason(Str(response.message))));
    }
    var body := response.body;
    var data := Get(body, "data");
    if !(Truthy(Get(body, "success")) && Truthy(data)) {
      var e := Get(body, "error");
      return Wafer(false, [], Some(Reason(if Truthy(e) then e.value else Str(DefaultFailure))));
    }
    var points := PointsOf(data.value);
    if points.None? {
      return Wafer(false, [], Some(TypeError));
    }
    r := PlacePoints(points.value, data.value, random);
  }

  /** A successful result has one entry per available point, in order:
      the point itself, `Point ` and its number, and its position token. */
  lemma {:induction false} WaferOnePerPoint(response: Response, random: nat -> real)
    requires WaferData(response, random).success
    ensures ListedPoints(response).Some?
    ensures var pts := ListedPoints(response).value;
      var es := WaferData(response, random).data;
      |es| == |pts|
      && forall i :: 0 <= i < |es| ==>
        pts[i].Str? && es[i].point == pts[i].s && es[i].name == "Point " + PointNumber(pts[i].s)
        && es[i].position == PositionToken(pts[i].s)
  {
    var pts := ListedPoints(response).value;
    var es := WaferData(response, random).data;
    if pts != [] {
      var names := Names(pts);
      var mean := MeanRow(Get(response.body, "data").value).value;
      assert es == Entries(names, mean, random);
      forall i | 0 <= i < |es|
        ensures pts[i].Str? && es[i].point == pts[i].s && es[i].name == "Point " + PointNumber(pts[i].s)
        ensures es[i].position == PositionToken(pts[i].s)
      {
        assert es[i] == PointEntry(names[i], i, |names|, mean, random(i));
      }
    }
  }

  /** A point `num_token` with `_` in neither part has `token` as its
      position and `num` as its number. */
  lemma SplitPoint(num: string, token: string)
    requires '_' !in num && '_' !in token
    ensures PointNumber(num + "_" + token) == num
    ensures PositionToken(num + "_" + token) == Some(token)
  {
    SplitAtFirst(num, '_', token);
    SplitNone(token, '_');
  }

  /** The five named positions, whatever the letter case of the token. */
  lemma NamedPositions(num: string, token: string, index: nat, n: nat)
    requires '_' !in num && '_' !in token && index < n
    ensures var p := Placement(PositionToken(num + "_" + token), index, n);
      (Upper(token) == "UL" ==> p == (-3, 3))
      && (Upper(token) == "UR" ==> p == (3, 3))
      && (Upper(token) == "LL" ==> p == (-3, -3))
      && (Upper(token) == "LR" ==> p == (3, -3))
      && (Upper(token) == "C" ==> p == (0, 0))
  {
    SplitPoint(num, token);
    if token == "" {
      assert Upper(token) == "";
    }
  }

  /** A point without a position token goes to its grid cell. */
  lemma UnnamedGoesToGrid(point: string, index: nat, n: nat)
    requires '_' !in point && index < n
    ensures Placement(PositionToken(point), index, n) == GridCell(index, n)
  {
    SplitNone(point, '_');
  }

  lemma MulMonotone(a: nat, b: nat, c: nat)
    requires a <= b
    ensures a * c <= b * c
  {
  }

  /** The grid fallback gives distinct points distinct cells, with both
      coordinates in `-g .. g - 2` for `g = ceil(sqrt(n))`. */
  lemma {:induction false} GridCellsDistinct(i: nat, j: nat, n: nat)
    requires i < n && j < n
    ensures var g: int := CeilSqrt(n);
      -g <= GridCell(i, n).0 <= g - 2 && -g <= GridCell(i, n).1 <= g - 2
    ensures i != j ==> GridCell(i, n) != GridCell(j, n)
  {
    var g := CeilSqrt(n);
    RowInGrid(i, g, n);
    CellBounds(i, g);
    if GridCell(i, n) == GridCell(j, n) {
      SameCell(i, j, g);
    }
  }

  /** The row of an index below `g * g` is below `g`. */
  lemma RowInGrid(i: nat, g: nat, n: nat)
    requires i < n <= g * g
    ensures g >= 1 && i / g < g
  {
    var q := i / g;
    assert i == q * g + i % g;
    if q >= g {
      MulMonotone(g, q, g);
    }
  }

  lemma CellBounds(i: nat, g: nat)
    requires g >= 1 && i / g < g
    ensures -(g as int) <= (i % g) * 2 - g <= g - 2 && -(g as int) <= (i / g) * 2 - g <= g - 2
  {
  }

  lemma SameCell(i: nat, j: nat, g: nat)
    requires g >= 1 && (i % g) * 2 - g == (j % g) * 2 - g && (i / g) * 2 - g == (j / g) * 2 - g
    ensures i == j
  {
    assert i == (i / g) * g + i % g;
    assert j == (j / g) * g + j % g;
  }

  /** The value is the MEAN row's entry for the point when that is truthy,
      and otherwise a default in `75 .. 125` for a draw in `0 .. 1`. */
  lemma PointValueMeaning(point: string, mean: Option<Value>, draw: real)
    requires 0.0 <= draw < 1.0
    ensures Truthy(if mean.Some? then Field(mean.value, point) else None)
      ==> PointValue(point, mean, draw) == Field(mean.value, point).value
    ensures !Truthy(if mean.Some? then Field(mean.value, point) else None)
      ==> PointValue(point, mean, draw).Float? && 75.0 <= PointValue(point, mean, draw).f < 125.0
  {
  }

  /** The MEAN row found is the first array item whose `ITEM` is `MEAN`,
      reached without passing a `null` item. */
  lemma {:induction false} FindMeanMeaning(summary: seq<Value>)
    ensures FindMean(summary).Some? && FindMean(summary).value.Some? ==>
      exists k :: 0 <= k < |summary| && summary[k] == FindMean(summary).value.value
        && Field(summary[k], "ITEM") == Some(Str("MEAN"))
        && forall j :: 0 <= j < k ==> !summary[j].Null? && Field(summary[j], "ITEM") != Some(Str("MEAN"))
    ensures FindMean(summary) == Some(None) <==>
      forall j :: 0 <= j < |summary| ==> !summary[j].Null? && Field(summary[j], "ITEM") != Some(Str("MEAN"))
  {
    if summary != [] && !summary[0].Null? && Field(summary[0], "ITEM") != Some(Str("MEAN")) {
      FindMeanMeaning(summary[1..]);
      var r := FindMean(summary[1..]);
      if r.Some? && r.value.Some? {
        var k :| 0 <= k < |summary[1..]| && summary[1..][k] == r.value.value
          && Field(summary[1..][k], "ITEM") == Some(Str("MEAN"))
          && forall j :: 0 <= j < k ==> !summary[1..][j].Null? && Field(summary[1..][j], "ITEM") != Some(Str("MEAN"));
        assert summary[k + 1] == r.value.value;
        forall j | 0 <= j < k + 1
          ensures !summary[j].Null? && Field(summary[j], "ITEM") != Some(Str("MEAN"))
        {
          if j > 0 {
            assert summary[j] == summary[1..][j - 1];
          }
        }
      }
      if r == Some(None) {
        forall j | 0 <= j < |summary|
          ensures !summary[j].Null? && Field(summary[j], "ITEM") != Some(Str("MEAN"))
        {
          if j > 0 {
            assert summary[j] == summary[1..][j - 1];
          }
        }
      } else {
        var q := summary[1..];
        assert !(forall j :: 0 <= j < |q| ==> !q[j].Null? && Field(q[j], "ITEM") != Some(Str("MEAN")));
        var j :| 0 <= j < |q| && !(!q[j].Null? && Field(q[j], "ITEM") != Some(Str("MEAN")));
        assert summary[j + 1] == q[j];
      }
    }
  }
}
