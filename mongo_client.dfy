/** The document preparation and bookkeeping of api/utils/mongo_client.py:
    the key sanitiser that makes a decoded pickle storable, the size threshold,
    the document built from a parsed file and its pickle, the batch loop of
    `store_measurements` with its counters, the cleanup totals and the age
    buckets of the date statistics. The database itself is a parameter: the
    sizes the serialiser reports, the outcome of each bulk write, the counts
    a query returns and the age of each month group. */
module MongoClient {
  import opened Common
  import opened Text

  // ---- key sanitising -------------------------------------------------------

  /** The key with every `.` and `$` turned into `_`. */
  function Underscored(k: string): (r: string)
    ensures |r| == |k|
    ensures forall i :: 0 <= i < |k| ==> r[i] == if k[i] == '.' || k[i] == '$' then '_' else k[i]
  {
    seq(|k|, i requires 0 <= i < |k| => if k[i] == '.' || k[i] == '$' then '_' else k[i])
  }

  /** Replacing one character by another changes exactly its occurrences. */
  lemma {:induction false} ReplaceCharAt(s: string, c: char, d: char)
    ensures |ReplaceAll(s, [c], [d])| == |s|
    ensures forall i :: 0 <= i < |s| ==> ReplaceAll(s, [c], [d])[i] == if s[i] == c then d else s[i]
    decreases |s|
  {
    if s != [] {
      ReplaceCharAt(s[1..], c, d);
      assert s[1..] == s[|[c]|..];
      var r := ReplaceAll(s, [c], [d]);
      assert r == (if s[0] == c then [d] else [s[0]]) + ReplaceAll(s[1..], [c], [d]);
    }
  }

  lemma UnderscoredIsReplace(k: string)
    ensures ReplaceAll(ReplaceAll(k, ".", "_"), "$", "_") == Underscored(k)
  {
    ReplaceCharAt(k, '.', '_');
    var once := ReplaceAll(k, ".", "_");
    ReplaceCharAt(once, '$', '_');
  }

  /** `sanitize_mongodb_keys` for one key: `.` and `$` become `_`, and a key
      that then starts with a digit gets the prefix `field_`. */
  function SafeKey(k: string): (r: string)
    ensures r == if k != "" && IsDigit(k[0]) then "field_" + Underscored(k) else Underscored(k)
  {
    UnderscoredIsReplace(k);
    var replaced := ReplaceAll(ReplaceAll(k, ".", "_"), "$", "_");
    if replaced != "" && IsDigit(replaced[0]) then "field_" + replaced else replaced
  }

  predicate StorableKey(k: string) {
    '.' !in k && '$' !in k && !(k != "" && IsDigit(k[0]))
  }

  /** A sanitised key is storable, and sanitising a storable key leaves it
      as it is. */
  lemma SafeKeyStorable(k: string)
    ensures StorableKey(SafeKey(k))
    ensures StorableKey(k) ==> SafeKey(k) == k
  {
    if StorableKey(k) {
      assert Underscored(k) == k;
    }
  }

  /** Sanitising twice gives what sanitising once gives. */
  lemma SafeKeyIdempotent(k: string)
    ensures SafeKey(SafeKey(k)) == SafeKey(k)
  {
    SafeKeyStorable(k);
    SafeKeyStorable(SafeKey(k));
  }

  /** `sanitized[safe_key] = ...` for each entry in turn: the value of a key
      that occurs again is overwritten in place. */
  function BuildDict(pairs: Entries): Entries
    decreases |pairs|
  {
    if pairs == [] then []
    else Set(BuildDict(pairs[..|pairs| - 1]), pairs[|pairs| - 1].0, pairs[|pairs| - 1].1)
  }

  /** The value written last under `k`. */
  function LastWritten(pairs: Entries, k: string): Option<Value>
    decreases |pairs|
  {
    if pairs == [] then None
    else if pairs[|pairs| - 1].0 == k then Some(pairs[|pairs| - 1].1)
    else LastWritten(pairs[..|pairs| - 1], k)
  }

  /** The built dict holds, under each key, the value written last. */
  lemma {:induction false} BuildDictGet(pairs: Entries, k: string)
    ensures Get(BuildDict(pairs), k) == LastWritten(pairs, k)
    decreases |pairs|
  {
    if pairs != [] {
      var init := pairs[..|pairs| - 1];
      BuildDictGet(init, k);
      var last := pairs[|pairs| - 1];
      if last.0 == k {
        GetSetSame(BuildDict(init), k, last.1);
      } else {
        GetSetOther(BuildDict(init), last.0, last.1, k);
      }
    }
  }

  /** Every entry of the built dict was written. */
  lemma {:induction false} BuildDictFrom(pairs: Entries, e: (string, Value))
    requires e in BuildDict(pairs)
    ensures e in pairs
    decreases |pairs|
  {
    var init := pairs[..|pairs| - 1];
    var last := pairs[|pairs| - 1];
    SetFrom(BuildDict(init), last.0, last.1, e);
    if e != last {
      BuildDictFrom(init, e);
    }
  }

  lemma {:induction false} SetFrom(d: Entries, k: string, v: Value, e: (string, Value))
    requires e in Set(d, k, v)
    ensures e in d || e == (k, v)
  {
    if d != [] && d[0].0 != k {
      if e != d[0] {
        SetFrom(d[1..], k, v, e);
      }
    }
  }

  lemma {:induction false} SetAbsent(d: Entries, k: string, v: Value)
    requires !HasKey(d, k)
    ensures Set(d, k, v) == d + [(k, v)]
  {
    if d != [] {
      assert d[0].0 != k;
      SetAbsent(d[1..], k, v);
      assert d == [d[0]] + d[1..];
    }
  }

  /** Writing keys that are all different builds the entries as written. */
  lemma {:induction false} BuildDictUnique(pairs: Entries)
    requires UniqueKeys(pairs)
    ensures BuildDict(pairs) == pairs
    decreases |pairs|
  {
    if pairs != [] {
      var init := pairs[..|pairs| - 1];
      var last := pairs[|pairs| - 1];
      BuildDictUnique(init);
      SetAbsent(init, last.0, last.1);
      assert init + [last] == pairs;
    }
  }

  /** The entries of a dict with their keys sanitised and their values
      sanitised in turn, before they are written. */
  function SanitizedPairs(es: Entries, parent: Value): (r: Entries)
    requires parent.Dict? && parent.entries == es
    ensures |r| == |es|
    ensures forall i :: 0 <= i < |es| ==> r[i] == (SafeKey(es[i].0), Sanitize(es[i].1))
    decreases parent, 0
  {
    seq(|es|, i requires 0 <= i < |es| => (SafeKey(es[i].0), Sanitize(es[i].1)))
  }

  /** `sanitize_mongodb_keys`: dicts get sanitised keys, lists are sanitised
      element by element, other values are returned as they are. */
  function Sanitize(v: Value): Value
    decreases v, 1
  {
    match v
    case Dict(es) => Dict(BuildDict(SanitizedPairs(es, v)))
    case List(xs) => List(seq(|xs|, i requires 0 <= i < |xs| => Sanitize(xs[i])))
    case _ => v
  }

  /** Every key, at every depth, is storable. */
  predicate Storable(v: Value)
    decreases v
  {
    match v
    case Dict(es) => forall i :: 0 <= i < |es| ==> StorableKey(es[i].0) && Storable(es[i].1)
    case List(xs) => forall i :: 0 <= i < |xs| ==> Storable(xs[i])
    case _ => true
  }

  /** A sanitised value can be stored: no key anywhere has a `.` or a `$`
      or starts with a digit. */
  lemma {:induction false} SanitizeStorable(v: Value)
    ensures Storable(Sanitize(v))
    decreases v
  {
    match v
    case Dict(es) =>
      var pairs := SanitizedPairs(es, v);
      var built := BuildDict(pairs);
      forall i | 0 <= i < |built|
        ensures StorableKey(built[i].0) && Storable(built[i].1)
      {
        BuildDictFrom(pairs, built[i]);
        var j :| 0 <= j < |pairs| && pairs[j] == built[i];
        SafeKeyStorable(es[j].0);
        SanitizeStorable(es[j].1);
      }
    case List(xs) =>
      forall i | 0 <= i < |xs|
        ensures Storable(Sanitize(xs[i]))
      {
        SanitizeStorable(xs[i]);
      }
    case _ =>
  }

  /** Keys that collide after sanitising keep the value of the last one. */
  lemma CollidingKeysLastWins(es: Entries, k: string)
    ensures Get(Sanitize(Dict(es)).entries, k) == LastWritten(SanitizedPairs(es, Dict(es)), k)
  {
    BuildDictGet(SanitizedPairs(es, Dict(es)), k);
  }

  /** A value that is already storable is left exactly as it is, so
      sanitising twice gives what sanitising once gives. */
  lemma {:induction false} SanitizeStorableUnchanged(v: Value)
    requires Storable(v) && UniqueDicts(v)
    ensures Sanitize(v) == v
    decreases v
  {
    match v
    case Dict(es) =>
      var pairs := SanitizedPairs(es, v);
      forall i | 0 <= i < |es|
        ensures pairs[i] == es[i]
      {
        SafeKeyStorable(es[i].0);
        SanitizeStorableUnchanged(es[i].1);
      }
      assert pairs == es;
      BuildDictUnique(pairs);
    case List(xs) =>
      forall i | 0 <= i < |xs|
        ensures Sanitize(xs[i]) == xs[i]
      {
        SanitizeStorableUnchanged(xs[i]);
      }
      assert Sanitize(v).items == xs;
    case _ =>
  }

  /** No dict, at any depth, repeats a key. */
  predicate UniqueDicts(v: Value)
    decreases v
  {
    match v
    case Dict(es) => UniqueKeys(es) && forall i :: 0 <= i < |es| ==> UniqueDicts(es[i].1)
    case List(xs) => forall i :: 0 <= i < |xs| ==> UniqueDicts(xs[i])
    case _ => true
  }

  /** Every dict the sanitiser builds has distinct keys. */
  lemma {:induction false} SanitizeUnique(v: Value)
    ensures UniqueDicts(Sanitize(v))
    decreases v
  {
    match v
    case Dict(es) =>
      var pairs := SanitizedPairs(es, v);
      var built := BuildDict(pairs);
      BuildDictUniqueKeys(pairs);
      forall i | 0 <= i < |built|
        ensures UniqueDicts(built[i].1)
      {
        BuildDictFrom(pairs, built[i]);
        var j :| 0 <= j < |pairs| && pairs[j] == built[i];
        SanitizeUnique(es[j].1);
      }
    case List(xs) =>
      forall i | 0 <= i < |xs|
        ensures UniqueDicts(Sanitize(xs[i]))
      {
        SanitizeUnique(xs[i]);
      }
    case _ =>
  }

  lemma {:induction false} BuildDictUniqueKeys(pairs: Entries)
    ensures UniqueKeys(BuildDict(pairs))
    decreases |pairs|
  {
    if pairs != [] {
      var init := pairs[..|pairs| - 1];
      BuildDictUniqueKeys(init);
      SetKeepsUniqueKeys(BuildDict(init), pairs[|pairs| - 1].0, pairs[|pairs| - 1].1);
    }
  }

  /** Sanitising is idempotent. */
  lemma SanitizeIdempotent(v: Value)
    ensures Sanitize(Sanitize(v)) == Sanitize(v)
  {
    SanitizeStorable(v);
    SanitizeUnique(v);
    SanitizeStorableUnchanged(Sanitize(v));
  }

  // ---- size threshold -------------------------------------------------------

  const BytesPerMb: nat := 1024 * 1024

  datatype SizeCheck = SizeCheck(valid: bool, sizeMb: real)

  /** `check_document_size` given the length of the serialised document
      (`None` when serialising raises). */
  function CheckDocumentSize(size: Option<nat>, limitMb: nat): (r: SizeCheck)
    ensures size.None? ==> r == SizeCheck(false, 0.0)
    ensures size.Some? ==> r.sizeMb * BytesPerMb as real == size.value as real
  {
    match size
    case None => SizeCheck(false, 0.0)
    case Some(n) =>
      var mb := n as real / BytesPerMb as real;
      SizeCheck(!(mb > limitMb as real), mb)
  }

  /** A document is rejected only when it is strictly larger than the
      limit: one of exactly the limit passes. */
  lemma SizeThreshold(n: nat, limitMb: nat)
    ensures CheckDocumentSize(Some(n), limitMb).valid <==> n <= limitMb * BytesPerMb
    ensures CheckDocumentSize(Some(limitMb * BytesPerMb), limitMb).valid
    ensures !CheckDocumentSize(Some(limitMb * BytesPerMb + 1), limitMb).valid
  {
    var mb := n as real / BytesPerMb as real;
    assert mb * BytesPerMb as real == n as real;
    assert (limitMb * BytesPerMb) as real == limitMb as real * BytesPerMb as real;
  }

  // ---- document preparation -------------------------------------------------

  /** `d.get(k, default)`. */
  function GetOr(d: Entries, k: string, default: Value): Value {
    match Get(d, k)
    case Some(v) => v
    case None => default
  }

  /** `del document[k]`. */
  function Remove(d: Entries, k: string): (r: Entries)
    ensures !HasKey(r, k)
    ensures forall k' :: k' != k ==> Get(r, k') == Get(d, k')
  {
    if d == [] then []
    else if d[0].0 == k then Remove(d[1..], k)
    else [d[0]] + Remove(d[1..], k)
  }

  /** The fields copied from the parsed file. The required ones raise a
      KeyError (`None`) when missing; `formatted_date` defaults to `date`,
      `tool_name` to `MAP608` and the rest to None. */
  function BaseDocument(parsed: Entries): (r: Option<Entries>)
    ensures r.None? <==>
      !HasKey(parsed, "unique_key") || !HasKey(parsed, "filename") || !HasKey(parsed, "date") ||
      !HasKey(parsed, "recipe_name") || !HasKey(parsed, "lot_id") || !HasKey(parsed, "slot_number")
  {
    var key := Get(parsed, "unique_key");
    var filename := Get(parsed, "filename");
    var date := Get(parsed, "date");
    var recipe := Get(parsed, "recipe_name");
    var lot := Get(parsed, "lot_id");
    var slot := Get(parsed, "slot_number");
    if key.None? || filename.None? || date.None? || recipe.None? || lot.None? || slot.None? then None
    else
      Some([
        ("unique_key", key.value),
        ("filename", filename.value),
        ("date", date.value),
        ("formatted_date", GetOr(parsed, "formatted_date", date.value)),
        ("recipe_name", recipe.value),
        ("lot_id", lot.value),
        ("slot_number", slot.value),
        ("time", GetOr(parsed, "time", Null)),
        ("measured_info", GetOr(parsed, "measured_info", Null)),
        ("tool_name", GetOr(parsed, "tool_name", Str("MAP608"))),
        ("profile_dir_list", GetOr(parsed, "profile_dir_list", Null)),
        ("data_dir_list", GetOr(parsed, "data_dir_list", Null)),
        ("tiff_dir_list", GetOr(parsed, "tiff_dir_list", Null)),
        ("align_dir_list", GetOr(parsed, "align_dir_list", Null)),
        ("tip_dir_list", GetOr(parsed, "tip_dir_list", Null))])
  }

  /** The key is copied, and `formatted_date` falls back to `date`. */
  lemma FormattedDateDefault(parsed: Entries)
    requires BaseDocument(parsed).Some?
    ensures Get(BaseDocument(parsed).value, "unique_key") == Get(parsed, "unique_key")
    ensures Get(BaseDocument(parsed).value, "formatted_date") ==
      if HasKey(parsed, "formatted_date") then Get(parsed, "formatted_date") else Get(parsed, "date")
  {
    var doc := BaseDocument(parsed).value;
    assert doc[1..][1..][1..][0] == ("formatted_date", GetOr(parsed, "formatted_date", Get(parsed, "date").value));
    assert Get(doc, "formatted_date") == Get(doc[1..], "formatted_date") == Get(doc[1..][1..], "formatted_date")
      == Get(doc[1..][1..][1..], "formatted_date");
  }

  /** `tool_name` falls back to `MAP608`. */
  lemma ToolNameDefault(parsed: Entries)
    requires BaseDocument(parsed).Some?
    ensures Get(BaseDocument(parsed).value, "tool_name") ==
      if HasKey(parsed, "tool_name") then Get(parsed, "tool_name") else Some(Str("MAP608"))
  {
    var doc := BaseDocument(parsed).value;
    assert doc[1..][1..][1..][1..][1..][1..][1..][1..][1..][0] == ("tool_name", GetOr(parsed, "tool_name", Str("MAP608")));
    assert Get(doc, "tool_name")
      == Get(doc[1..], "tool_name")
      == Get(doc[1..][1..], "tool_name")
      == Get(doc[1..][1..][1..], "tool_name")
      == Get(doc[1..][1..][1..][1..], "tool_name")
      == Get(doc[1..][1..][1..][1..][1..], "tool_name")
      == Get(doc[1..][1..][1..][1..][1..][1..], "tool_name")
      == Get(doc[1..][1..][1..][1..][1..][1..][1..], "tool_name")
      == Get(doc[1..][1..][1..][1..][1..][1..][1..][1..], "tool_name")
      == Get(doc[1..][1..][1..][1..][1..][1..][1..][1..][1..], "tool_name");
  }

  /** The reference stored in place of profile data over 5 MB. */
  function ProfileReference(uniqueKey: Value, sizeMb: real): Value {
    Dict([("type", Str("reference")), ("collection", Str("profile_data")), ("key", uniqueKey), ("size_mb", Float(sizeMb))])
  }

  /** The fields taken from a non-empty pickle. `profileSize` is the
      serialised size of `{'profileData': ...}`. */
  function WithPickle(doc: Entries, uniqueKey: Value, pickle: Entries, profileSize: Option<nat>): Entries {
    if pickle == [] then doc
    else
      var d1 := if HasKey(pickle, "info") then Set(doc, "info", Get(pickle, "info").value) else doc;
      var d2 := if HasKey(pickle, "summary") then Set(d1, "summary", Get(pickle, "summary").value) else d1;
      var check := CheckDocumentSize(profileSize, 5);
      var d3 :=
        if !HasKey(pickle, "profileData") then d2
        else if check.valid then Set(d2, "profileData", Get(pickle, "profileData").value)
        else Set(d2, "profileData", ProfileReference(uniqueKey, check.sizeMb));
      var d4 := if HasKey(pickle, "data_detail") then Set(d3, "data_detail", Sanitize(Get(pickle, "data_detail").value)) else d3;
      if HasKey(pickle, "available_points") then Set(d4, "available_points", Get(pickle, "available_points").value) else d4
  }

  /** Over the size limit, a `profileData` that is not a dict (the reference
      is one) and any `data_detail` are dropped. */
  function Trimmed(doc: Entries, finalSize: Option<nat>): (r: Entries)
    ensures CheckDocumentSize(finalSize, 15).valid ==> r == doc
    ensures !CheckDocumentSize(finalSize, 15).valid ==>
      !HasKey(r, "data_detail") && (HasKey(r, "profileData") ==> Get(r, "profileData").value.Dict?)
    ensures forall k :: k != "data_detail" && k != "profileData" ==> Get(r, k) == Get(doc, k)
  {
    if CheckDocumentSize(finalSize, 15).valid then doc
    else
      var d1 := if HasKey(doc, "profileData") && !Get(doc, "profileData").value.Dict? then Remove(doc, "profileData") else doc;
      if HasKey(d1, "data_detail") then Remove(d1, "data_detail") else d1
  }

  /** `prepare_afm_measurement_for_mongodb`: `None` is the KeyError of a
      missing required field. `finalSize` is the serialised size of the
      sanitised document. */
  function PrepareMeasurement(parsed: Entries, pickle: Entries, profileSize: Option<nat>, finalSize: Option<nat>): Option<Entries> {
    match BaseDocument(parsed)
    case None => None
    case Some(base) =>
      var doc := WithPickle(base, Get(parsed, "unique_key").value, pickle, profileSize);
      Some(Trimmed(BuildDict(SanitizedPairs(doc, Dict(doc))), finalSize))
  }

  /** Every key of a prepared document, at every depth, is storable. */
  lemma PreparedStorable(parsed: Entries, pickle: Entries, profileSize: Option<nat>, finalSize: Option<nat>)
    requires PrepareMeasurement(parsed, pickle, profileSize, finalSize).Some?
    ensures Storable(Dict(PrepareMeasurement(parsed, pickle, profileSize, finalSize).value))
  {
    var base := BaseDocument(parsed).value;
    var doc := WithPickle(base, Get(parsed, "unique_key").value, pickle, profileSize);
    var built := BuildDict(SanitizedPairs(doc, Dict(doc)));
    SanitizeStorable(Dict(doc));
    TrimmedKeeps(built, finalSize);
  }

  /** Trimming only drops entries. */
  lemma TrimmedKeeps(doc: Entries, finalSize: Option<nat>)
    requires Storable(Dict(doc))
    ensures Storable(Dict(Trimmed(doc, finalSize)))
  {
    if !CheckDocumentSize(finalSize, 15).valid {
      var d1 := if HasKey(doc, "profileData") && !Get(doc, "profileData").value.Dict? then Remove(doc, "profileData") else doc;
      RemoveFrom(doc, "profileData");
      RemoveFrom(d1, "data_detail");
    }
  }

  lemma {:induction false} RemoveFrom(d: Entries, k: string)
    requires Storable(Dict(d))
    ensures Storable(Dict(Remove(d, k)))
  {
    if d != [] {
      RemoveFrom(d[1..], k);
      assert Storable(Dict(d[1..])) by {
        forall i | 0 <= i < |d[1..]|
          ensures StorableKey(d[1..][i].0) && Storable(d[1..][i].1)
        {
          assert d[1..][i] == d[i + 1];
        }
      }
    }
  }

  /** Within 5 MB `profileData` is copied; over it the document holds the
      reference dict instead. */
  lemma {:induction false} ProfileDataPlacement(doc: Entries, uniqueKey: Value, pickle: Entries, profileSize: Option<nat>)
    requires pickle != [] && HasKey(pickle, "profileData")
    ensures Get(WithPickle(doc, uniqueKey, pickle, profileSize), "profileData") ==
      if CheckDocumentSize(profileSize, 5).valid then Get(pickle, "profileData")
      else Some(ProfileReference(uniqueKey, CheckDocumentSize(profileSize, 5).sizeMb))
  {
    var d1 := if HasKey(pickle, "info") then Set(doc, "info", Get(pickle, "info").value) else doc;
    var d2 := if HasKey(pickle, "summary") then Set(d1, "summary", Get(pickle, "summary").value) else d1;
    var check := CheckDocumentSize(profileSize, 5);
    var v := if check.valid then Get(pickle, "profileData").value else ProfileReference(uniqueKey, check.sizeMb);
    var d3 := Set(d2, "profileData", v);
    GetSetSame(d2, "profileData", v);
    var d4 := if HasKey(pickle, "data_detail") then Set(d3, "data_detail", Sanitize(Get(pickle, "data_detail").value)) else d3;
    if HasKey(pickle, "data_detail") {
      GetSetOther(d3, "data_detail", Sanitize(Get(pickle, "data_detail").value), "profileData");
    }
    if HasKey(pickle, "available_points") {
      GetSetOther(d4, "available_points", Get(pickle, "available_points").value, "profileData");
    }
  }

  // ---- store_measurements ---------------------------------------------------

  /** What preparing one measurement led to: an upsert operation, a
      document over the 15 MB limit (skipped), or an exception (an error). */
  datatype Prepared = Ready | Oversize | Raised

  /** The outcome of one `bulk_write`: its upserted and modified counts, a
      `BulkWriteError` carrying a number of write errors, or any other
      exception, which ends the whole call. */
  datatype BulkOutcome = Written(upserted: nat, modified: nat) | WriteFailed(writeErrors: nat) | Crashed

  datatype Tally = Tally(inserted: nat, updated: nat, errors: nat, skipped: nat, queued: nat)

  datatype StoreResult = StoreResult(success: bool, inserted: nat, updated: nat, errors: nat, skipped: nat)

  function CountOf(ms: seq<Prepared>, p: Prepared): (r: nat)
    ensures r <= |ms|
  {
    if ms == [] then 0 else (if ms[0] == p then 1 else 0) + CountOf(ms[1..], p)
  }

  lemma {:induction false} CountOfAppend(a: seq<Prepared>, b: seq<Prepared>, p: Prepared)
    ensures CountOf(a + b, p) == CountOf(a, p) + CountOf(b, p)
  {
    if a == [] {
      assert a + b == b;
    } else {
      assert (a + b)[1..] == a[1..] + b;
      CountOfAppend(a[1..], b, p);
    }
  }

  lemma {:induction false} CountsPartition(ms: seq<Prepared>)
    ensures CountOf(ms, Ready) + CountOf(ms, Oversize) + CountOf(ms, Raised) == |ms|
  {
    if ms != [] {
      CountsPartition(ms[1..]);
    }
  }

  /** `measurements[i:i + batch_size]` for `i` in `range(0, n, batch_size)`. */
  function Batches(ms: seq<Prepared>, b: nat): (r: seq<seq<Prepared>>)
    requires b > 0
    ensures forall j :: 0 <= j < |r| ==> 0 < |r[j]| <= b
    decreases |ms|
  {
    if ms == [] then [] else
      var m := Min(b, |ms|);
      [ms[..m]] + Batches(ms[m..], b)
  }

  function Flatten(bs: seq<seq<Prepared>>): seq<Prepared> {
    if bs == [] then [] else bs[0] + Flatten(bs[1..])
  }

  /** The batches cover every measurement exactly once, in order, and all
      but the last are full. */
  lemma {:induction false} BatchesCover(ms: seq<Prepared>, b: nat)
    requires b > 0
    ensures Flatten(Batches(ms, b)) == ms
    ensures forall j :: 0 <= j < |Batches(ms, b)| - 1 ==> |Batches(ms, b)[j]| == b
    decreases |ms|
  {
    if ms != [] {
      var m := Min(b, |ms|);
      BatchesCover(ms[m..], b);
      var bs := Batches(ms, b);
      assert bs[1..] == Batches(ms[m..], b);
      assert ms[..m] + ms[m..] == ms;
      if |bs| > 1 {
        assert m == b;
        forall j | 0 <= j < |bs| - 1
          ensures |bs[j]| == b
        {
          if j > 0 {
            assert bs[j] == bs[1..][j - 1];
          }
        }
      }
    }
  }

  function Zero(): Tally { Tally(0, 0, 0, 0, 0) }

  /** One batch: classify its measurements, then write the queued upserts
      if there are any. `None` when the write raised something other than a
      `BulkWriteError`. */
  function BatchStep(t: Tally, batch: seq<Prepared>, k: nat, bulk: nat -> BulkOutcome): Option<Tally> {
    var q := CountOf(batch, Ready);
    var t' := Tally(t.inserted, t.updated, t.errors + CountOf(batch, Raised), t.skipped + CountOf(batch, Oversize), t.queued + q);
    if q == 0 then Some(t')
    else match bulk(k)
      case Written(u, m) => Some(t'.(inserted := t'.inserted + u, updated := t'.updated + m))
      case WriteFailed(e) => Some(t'.(errors := t'.errors + e))
      case Crashed => None
  }

  /** The counters after the batches `bs`, starting from `t`; the batch
      numbered `k` gets `bulk(k)`. */
  function Run(t: Tally, bs: seq<seq<Prepared>>, k: nat, bulk: nat -> BulkOutcome): Option<Tally>
    decreases |bs|
  {
    if bs == [] then Some(t)
    else match BatchStep(t, bs[0], k, bulk)
      case None => None
      case Some(t') => Run(t', bs[1..], k + 1, bulk)
  }

  /** The result `store_measurements` returns. A zero batch size makes
      `range` raise, which the outer handler reports with every measurement
      counted as an error; a negative one makes the range empty. */
  function StoreOutcome(connected: bool, ms: seq<Prepared>, batchSize: int, bulk: nat -> BulkOutcome): StoreResult {
    if !connected then StoreResult(false, 0, 0, 0, 0)
    else if batchSize == 0 then StoreResult(false, 0, 0, |ms|, 0)
    else if batchSize < 0 then StoreResult(true, 0, 0, 0, 0)
    else match Run(Zero(), Batches(ms, batchSize), 0, bulk)
      case None => StoreResult(false, 0, 0, |ms|, 0)
      case Some(t) => StoreResult(true, t.inserted, t.updated, t.errors, t.skipped)
  }

  /** Every measurement is classified exactly once: oversize ones add to the
      skipped count, ready ones are all queued for writing, and the errors
      grow by at least the failed preparations. */
  lemma {:induction false} RunCounts(t: Tally, bs: seq<seq<Prepared>>, k: nat, bulk: nat -> BulkOutcome)
    requires Run(t, bs, k, bulk).Some?
    ensures Run(t, bs, k, bulk).value.skipped == t.skipped + CountOf(Flatten(bs), Oversize)
    ensures Run(t, bs, k, bulk).value.queued == t.queued + CountOf(Flatten(bs), Ready)
    ensures Run(t, bs, k, bulk).value.errors >= t.errors + CountOf(Flatten(bs), Raised)
    decreases |bs|
  {
    if bs != [] {
      var t' := BatchStep(t, bs[0], k, bulk).value;
      RunCounts(t', bs[1..], k + 1, bulk);
      CountOfAppend(bs[0], Flatten(bs[1..]), Oversize);
      CountOfAppend(bs[0], Flatten(bs[1..]), Ready);
      CountOfAppend(bs[0], Flatten(bs[1..]), Raised);
    }
  }

  /** With every write succeeding, the errors are exactly the failed
      preparations. */
  lemma {:induction false} CleanRunErrors(t: Tally, bs: seq<seq<Prepared>>, k: nat, bulk: nat -> BulkOutcome)
    requires forall n: nat :: bulk(n).Written?
    ensures Run(t, bs, k, bulk).Some?
    ensures Run(t, bs, k, bulk).value.errors == t.errors + CountOf(Flatten(bs), Raised)
    decreases |bs|
  {
    if bs != [] {
      assert bulk(k).Written?;
      var t' := BatchStep(t, bs[0], k, bulk).value;
      CleanRunErrors(t', bs[1..], k + 1, bulk);
      CountOfAppend(bs[0], Flatten(bs[1..]), Raised);
    }
  }

  /** Whatever the batch size, a run without a crash reports every oversize
      document as skipped and every failed preparation as an error; when
      every write succeeds the errors are exactly those, and skipped plus
      errors never exceed the number of measurements. */
  lemma StoreCounts(ms: seq<Prepared>, batchSize: nat, bulk: nat -> BulkOutcome)
    requires batchSize > 0 && Run(Zero(), Batches(ms, batchSize), 0, bulk).Some?
    ensures StoreOutcome(true, ms, batchSize, bulk).success
    ensures StoreOutcome(true, ms, batchSize, bulk).skipped == CountOf(ms, Oversize)
    ensures StoreOutcome(true, ms, batchSize, bulk).errors >= CountOf(ms, Raised)
    ensures (forall n: nat :: bulk(n).Written?) ==>
      StoreOutcome(true, ms, batchSize, bulk).errors + StoreOutcome(true, ms, batchSize, bulk).skipped <= |ms|
  {
    BatchesCover(ms, batchSize);
    RunCounts(Zero(), Batches(ms, batchSize), 0, bulk);
    if forall n: nat :: bulk(n).Written? {
      CleanRunErrors(Zero(), Batches(ms, batchSize), 0, bulk);
      CountsPartition(ms);
    }
  }

  /** `store_measurements`: the batches in order, and in each the
      measurements in order, then one bulk write of the queued upserts. */
  method StoreMeasurements(connected: bool, ms: seq<Prepared>, batchSize: int, bulk: nat -> BulkOutcome)
    returns (r: StoreResult)
    ensures r == StoreOutcome(connected, ms, batchSize, bulk)
  {
    if !connected {
      return StoreResult(false, 0, 0, 0, 0);
    }
    if batchSize == 0 {
      return StoreResult(false, 0, 0, |ms|, 0);
    }
    if batchSize < 0 {
      return StoreResult(true, 0, 0, 0, 0);
    }
    var b: nat := batchSize;
    var t := Zero();
    var i, k := 0, 0;
    while i < |ms|
      invariant 0 <= i <= |ms|
      invariant Run(t, Batches(ms[i..], b), k, bulk) == Run(Zero(), Batches(ms, b), 0, bulk)
      decreases |ms| - i
    {
      var j := Min(i + b, |ms|);
      assert ms[i..][..j - i] == ms[i..j] && ms[i..][j - i..] == ms[j..];
      var next := ProcessBatch(t, ms[i..j], k, bulk);
      if next.None? {
        return StoreResult(false, 0, 0, |ms|, 0);
      }
      t, i, k := next.value, j, k + 1;
    }
    assert ms[i..] == [];
    r := StoreResult(true, t.inserted, t.updated, t.errors, t.skipped);
  }

  /** One batch: its measurements in order, then a bulk write when at least
      one upsert was queued. */
  method ProcessBatch(t: Tally, batch: seq<Prepared>, k: nat, bulk: nat -> BulkOutcome) returns (next: Option<Tally>)
    ensures next == BatchStep(t, batch, k, bulk)
  {
    var ready, raised, over := ClassifyBatch(batch);
    var t' := Tally(t.inserted, t.updated, t.errors + raised, t.skipped + over, t.queued + ready);
    if ready == 0 {
      return Some(t');
    }
    match bulk(k) {
      case Written(u, m) =>
        next := Some(t'.(inserted := t'.inserted + u, updated := t'.updated + m));
      case WriteFailed(e) =>
        next := Some(t'.(errors := t'.errors + e));
      case Crashed =>
        next := None;
    }
  }

  /** The inner loop of one batch: how many measurements were queued,
      raised, and skipped as oversize. */
  method ClassifyBatch(batch: seq<Prepared>) returns (ready: nat, raised: nat, over: nat)
    ensures ready == CountOf(batch, Ready)
    ensures raised == CountOf(batch, Raised)
    ensures over == CountOf(batch, Oversize)
  {
    ready, raised, over := 0, 0, 0;
    var p := 0;
    while p < |batch|
      invariant p <= |batch|
      invariant ready == CountOf(batch[..p], Ready)
      invariant raised == CountOf(batch[..p], Raised)
      invariant over == CountOf(batch[..p], Oversize)
      decreases |batch| - p
    {
      CountOfAppend(batch[..p], [batch[p]], Ready);
      CountOfAppend(batch[..p], [batch[p]], Raised);
      CountOfAppend(batch[..p], [batch[p]], Oversize);
      assert batch[..p + 1] == batch[..p] + [batch[p]];
      match batch[p] {
        case Ready => ready := ready + 1;
        case Raised => raised := raised + 1;
        case Oversize => over := over + 1;
      }
      p := p + 1;
    }
    assert batch[..p] == batch;
  }

  // ---- cleanup --------------------------------------------------------------

  datatype CleanupResult = Cleaned(found: nat, deleted: nat, dryRun: bool) | CleanupFailed

  /** `cleanup_old_measurements` given what the collection reports:
      `count` is `count_documents` of the documents older than the cutoff
      and `deletedCount` that of `delete_many` (`None` when the call
      raises). */
  function CleanupOld(connected: bool, count: Option<nat>, dryRun: bool, deletedCount: Option<nat>): (r: CleanupResult)
    ensures r.Cleaned? && r.dryRun ==> r.deleted == 0
    ensures r.Cleaned? ==> connected && count == Some(r.found) && r.dryRun == dryRun
    ensures r.Cleaned? && r.found == 0 ==> r.deleted == 0
    ensures r.CleanupFailed? <==> !connected || count.None? || (count.value > 0 && !dryRun && deletedCount.None?)
  {
    if !connected then CleanupFailed
    else match count
      case None => CleanupFailed
      case Some(n) =>
        if n == 0 then Cleaned(0, 0, dryRun)
        else if dryRun then Cleaned(n, 0, dryRun)
        else match deletedCount
          case None => CleanupFailed
          case Some(d) => Cleaned(n, d, dryRun)
  }

  const Tools: seq<string> := ["MAP608", "MAPC01", "5EAP1501"]

  function FoundOf(r: CleanupResult): nat { if r.Cleaned? then r.found else 0 }
  function DeletedOf(r: CleanupResult): nat { if r.Cleaned? then r.deleted else 0 }

  /** The totals over a sequence of per-tool results; a failed result adds
      nothing. */
  function Totals(rs: seq<CleanupResult>): (nat, nat) {
    if rs == [] then (0, 0)
    else
      var t := Totals(rs[..|rs| - 1]);
      (t.0 + FoundOf(rs[|rs| - 1]), t.1 + DeletedOf(rs[|rs| - 1]))
  }

  /** Only successful results contribute: when none succeeds both totals are
      zero, and when no successful one deleted anything the deleted total is
      zero. */
  lemma {:induction false} TotalsOfFailures(rs: seq<CleanupResult>)
    ensures (forall i :: 0 <= i < |rs| ==> rs[i].CleanupFailed?) ==> Totals(rs) == (0, 0)
    ensures (forall i :: 0 <= i < |rs| ==> rs[i].CleanupFailed? || rs[i].deleted == 0) ==> Totals(rs).1 == 0
  {
    if rs != [] {
      TotalsOfFailures(rs[..|rs| - 1]);
    }
  }

  /** A dry run over all tools deletes nothing. */
  lemma DryRunDeletesNothing(connected: bool, counts: string -> Option<nat>, deletes: string -> Option<nat>, rs: seq<CleanupResult>)
    requires |rs| == |Tools| && forall i :: 0 <= i < |Tools| ==> rs[i] == CleanupOld(connected, counts(Tools[i]), true, deletes(Tools[i]))
    ensures Totals(rs).1 == 0
  {
    TotalsOfFailures(rs);
  }

  /** Totals split over concatenation: each result is counted once. */
  lemma {:induction false} TotalsAppend(a: seq<CleanupResult>, b: seq<CleanupResult>)
    ensures Totals(a + b).0 == Totals(a).0 + Totals(b).0
    ensures Totals(a + b).1 == Totals(a).1 + Totals(b).1
    decreases |b|
  {
    if b == [] {
      assert a + b == a;
    } else {
      assert (a + b)[..|a + b| - 1] == a + b[..|b| - 1];
      TotalsAppend(a, b[..|b| - 1]);
    }
  }

  /** `cleanup_all_tools`: one cleanup per tool in order, summing `found`
      and `deleted` of the successful ones. */
  method CleanupAllTools(connected: bool, dryRun: bool, counts: string -> Option<nat>, deletes: string -> Option<nat>)
    returns (results: seq<CleanupResult>, totalFound: nat, totalDeleted: nat)
    ensures |results| == |Tools|
    ensures forall i :: 0 <= i < |Tools| ==> results[i] == CleanupOld(connected, counts(Tools[i]), dryRun, deletes(Tools[i]))
    ensures (totalFound, totalDeleted) == Totals(results)
  {
    results, totalFound, totalDeleted := [], 0, 0;
    for i := 0 to |Tools|
      invariant |results| == i
      invariant forall j :: 0 <= j < i ==> results[j] == CleanupOld(connected, counts(Tools[j]), dryRun, deletes(Tools[j]))
      invariant (totalFound, totalDeleted) == Totals(results)
    {
      var r := CleanupOld(connected, counts(Tools[i]), dryRun, deletes(Tools[i]));
      assert (results + [r])[..i] == results;
      results := results + [r];
      if r.Cleaned? {
        totalFound, totalDeleted := totalFound + r.found, totalDeleted + r.deleted;
      }
    }
  }

  // ---- date statistics ------------------------------------------------------

  datatype AgeBuckets = AgeBuckets(upTo30: nat, upTo90: nat, upTo180: nat, upTo300: nat, over300: nat)

  /** Which of the five buckets an age in days falls in. */
  function BucketOf(ageDays: int): (r: nat)
    ensures r < 5
    ensures r == 0 <==> ageDays <= 30
    ensures r == 1 <==> 30 < ageDays <= 90
    ensures r == 2 <==> 90 < ageDays <= 180
    ensures r == 3 <==> 180 < ageDays <= 300
    ensures r == 4 <==> 300 < ageDays
  {
    if ageDays <= 30 then 0
    else if ageDays <= 90 then 1
    else if ageDays <= 180 then 2
    else if ageDays <= 300 then 3
    else 4
  }

  function AddTo(b: AgeBuckets, i: nat, count: nat): AgeBuckets {
    if i == 0 then b.(upTo30 := b.upTo30 + count)
    else if i == 1 then b.(upTo90 := b.upTo90 + count)
    else if i == 2 then b.(upTo180 := b.upTo180 + count)
    else if i == 3 then b.(upTo300 := b.upTo300 + count)
    else b.(over300 := b.over300 + count)
  }

  function BucketSum(b: AgeBuckets): nat {
    b.upTo30 + b.upTo90 + b.upTo180 + b.upTo300 + b.over300
  }

  /** The buckets after the month groups `groups`, each an age in days and
      a document count. */
  function Bucketed(groups: seq<(int, nat)>): AgeBuckets {
    if groups == [] then AgeBuckets(0, 0, 0, 0, 0)
    else
      var g := groups[|groups| - 1];
      AddTo(Bucketed(groups[..|groups| - 1]), BucketOf(g.0), g.1)
  }

  function CountSum(groups: seq<(int, nat)>): nat {
    if groups == [] then 0 else CountSum(groups[..|groups| - 1]) + groups[|groups| - 1].1
  }

  /** Every count lands in exactly one bucket, so `total_measurements`, the
      bucket sum, is the number of documents grouped. */
  lemma {:induction false} BucketsTotal(groups: seq<(int, nat)>)
    ensures BucketSum(Bucketed(groups)) == CountSum(groups)
  {
    if groups != [] {
      BucketsTotal(groups[..|groups| - 1]);
    }
  }

  /** A group changes only its own bucket. */
  lemma AddToOnly(b: AgeBuckets, ageDays: int, count: nat)
    ensures BucketSum(AddTo(b, BucketOf(ageDays), count)) == BucketSum(b) + count
    ensures ageDays <= 30 ==> AddTo(b, BucketOf(ageDays), count) == b.(upTo30 := b.upTo30 + count)
    ensures ageDays > 300 ==> AddTo(b, BucketOf(ageDays), count) == b.(over300 := b.over300 + count)
  {
  }

  /** One group of the date aggregation: the first two and the next two
      characters of the `YYMMDD` date, and the number of documents. */
  datatype MonthGroup = MonthGroup(year: string, month: string, count: nat)

  /** A group after `int('20' + year)` and `int(month)`, `None` standing for
      the ValueError of either. */
  datatype ParsedGroup = ParsedGroup(year: Option<int>, month: Option<int>, count: nat)

  function ParseGroup(g: MonthGroup): ParsedGroup {
    ParsedGroup(PyInt("20" + g.year), PyInt(g.month), g.count)
  }

  /** A two-digit year is read as a year of 2000-2099. */
  lemma CenturyYear(ys: string)
    requires |ys| == 2 && AllDigits(ys)
    ensures PyInt("20" + ys) == Some(2000 + DigitsValue(ys))
  {
    CenturyDigits(ys);
    CenturyValue(ys);
    PyIntOfDigits("20" + ys);
  }

  lemma CenturyDigits(ys: string)
    requires |ys| == 2 && AllDigits(ys)
    ensures AllDigits("20" + ys)
  {
    var p := "20" + ys;
    assert forall i :: 2 <= i < 4 ==> p[i] == ys[i - 2];
  }

  lemma CenturyValue(ys: string)
    requires |ys| == 2 && AllDigits(ys)
    ensures AllDigits("20" + ys) && DigitsValue("20" + ys) == 2000 + DigitsValue(ys)
  {
    CenturyDigits(ys);
    var p := "20" + ys;
    assert p[..3] == "20" + ys[..1];
    assert p[..3][..2] == "20";
    assert "20"[..1] == "2";
    assert "2"[..0] == [];
    assert ys[..1][..0] == [];
  }

  /** The year and month of `datetime(year, month, 15)`, `None` when the
      parse failed or `datetime` rejects the year or month; the 15th exists
      in every month. */
  function GroupDate(g: ParsedGroup): (r: Option<(int, int)>)
    ensures r.Some? ==> ValidDate(r.value.0, r.value.1, 15)
  {
    if g.year.None? || g.month.None? then None
    else if !(1 <= g.year.value <= 9999 && 1 <= g.month.value <= 12) then None
    else Some((g.year.value, g.month.value))
  }

  /** A `YYMM` group with a month from `01` to `12` converts to that month
      of 20YY. */
  lemma GroupDateOfDigits(g: MonthGroup)
    requires |g.year| == 2 && AllDigits(g.year) && |g.month| == 2 && AllDigits(g.month)
    requires 1 <= DigitsValue(g.month) <= 12
    ensures GroupDate(ParseGroup(g)) == Some((2000 + DigitsValue(g.year), DigitsValue(g.month)))
  {
    ParseDigits(g);
  }

  /** An empty month, as a date shorter than four characters leaves, does
      not convert. */
  lemma GroupDateEmptyMonth(g: MonthGroup)
    requires g.month == ""
    ensures GroupDate(ParseGroup(g)).None?
  {
    ParseEmpty(g);
  }

  lemma ParseDigits(g: MonthGroup)
    requires |g.year| == 2 && AllDigits(g.year) && |g.month| == 2 && AllDigits(g.month)
    ensures ParseGroup(g) == ParsedGroup(Some(2000 + DigitsValue(g.year)), Some(DigitsValue(g.month)), g.count)
  {
    CenturyYear(g.year);
    PyIntOfDigits(g.month);
  }

  lemma ParseEmpty(g: MonthGroup)
    requires g.month == ""
    ensures ParseGroup(g).month == None
  {
    EmptyNotInt();
  }

  lemma EmptyNotInt()
    ensures PyInt("") == None
  {
    assert PyStrip("") == "";
  }

  /** `(today - datetime(year, month, 15)).days`, `today` being the
      ordinal of `datetime.now()`: `.days` drops the time of day. */
  function AgeDays(today: int, date: (int, int)): int {
    today - Ordinal(date.0, date.1, 15)
  }

  /** A group one month later is exactly that month's length younger. */
  lemma AgeNextMonth(today: int, y: int, m: int)
    requires 1 <= m < 12
    ensures AgeDays(today, (y, m + 1)) == AgeDays(today, (y, m)) - DaysIn(y, m)
  {
    OrdinalNextMonth(y, m, 15);
  }

  /** The age and count of every group, or `None` when one fails to
      convert. */
  function Ages(today: int, groups: seq<ParsedGroup>): (r: Option<seq<(int, nat)>>)
    ensures r.Some? <==> forall j :: 0 <= j < |groups| ==> GroupDate(groups[j]).Some?
  {
    if groups == [] then Some([])
    else
      var init := Ages(today, groups[..|groups| - 1]);
      var date := GroupDate(groups[|groups| - 1]);
      if init.None? || date.None? then None
      else Some(init.value + [(AgeDays(today, date.value), groups[|groups| - 1].count)])
  }

  /** Each group's age is its day's distance from `today`, and its count
      is kept. */
  lemma {:induction false} AgesMeaning(today: int, groups: seq<ParsedGroup>)
    requires Ages(today, groups).Some?
    ensures |Ages(today, groups).value| == |groups|
    ensures forall j :: 0 <= j < |groups| ==>
      Ages(today, groups).value[j] == (AgeDays(today, GroupDate(groups[j]).value), groups[j].count)
  {
    if groups != [] {
      var init := groups[..|groups| - 1];
      AgesMeaning(today, init);
      assert forall j :: 0 <= j < |init| ==> init[j] == groups[j];
    }
  }

  /** `get_date_statistics`: the buckets and their sum, `None` for the
      empty dict returned when not connected or when a group's year or
      month does not convert. The groups are given after `int()`, as
      `ParseGroup` reads them. */
  method DateStatistics(connected: bool, today: int, groups: seq<ParsedGroup>) returns (r: Option<(AgeBuckets, nat)>)
    ensures r.None? <==> !connected || exists j :: 0 <= j < |groups| && GroupDate(groups[j]).None?
    ensures r.Some? ==> Ages(today, groups).Some?
    ensures r.Some? ==> r.value.0 == Bucketed(Ages(today, groups).value)
    ensures r.Some? ==> r.value.1 == CountSum(Ages(today, groups).value)
  {
    if !connected {
      return None;
    }
    var buckets := AgeBuckets(0, 0, 0, 0, 0);
    for i := 0 to |groups|
      invariant Ages(today, groups[..i]).Some?
      invariant buckets == Bucketed(Ages(today, groups[..i]).value)
    {
      assert groups[..i + 1][..i] == groups[..i];
      var date := GroupDate(groups[i]);
      if date.None? {
        return None;
      }
      var age := today - Ordinal(date.value.0, date.value.1, 15);
      var count := groups[i].count;
      if age <= 30 {
        buckets := buckets.(upTo30 := buckets.upTo30 + count);
      } else if age <= 90 {
        buckets := buckets.(upTo90 := buckets.upTo90 + count);
      } else if age <= 180 {
        buckets := buckets.(upTo180 := buckets.upTo180 + count);
      } else if age <= 300 {
        buckets := buckets.(upTo300 := buckets.upTo300 + count);
      } else {
        buckets := buckets.(over300 := buckets.over300 + count);
      }
    }
    assert groups[..|groups|] == groups;
    BucketsTotal(Ages(today, groups).value);
    r := Some((buckets, buckets.upTo30 + buckets.upTo90 + buckets.upTo180 + buckets.upTo300 + buckets.over300));
  }
}
