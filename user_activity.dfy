/** `get_user_activities` of `api/user_activity.py`: the activity log is a
    text file of JSON lines; the newest `limit` lines are decoded, newest
    first, and kept when they belong to the requested user.

    The file is its list of lines (`None` when it does not exist) and JSON
    decoding is a parameter: `decode(s)` is the decoded value, or `None`
    where `json.loads` raises `JSONDecodeError`. */
module UserActivity {
  import opened Common
  import opened Text

  /** `lines[-limit:]`. */
  function Window(lines: seq<string>, limit: int): seq<string> {
    SliceOf(lines, -limit, |lines|)
  }

  /** A positive limit keeps the last `limit` lines, `0` keeps them all
      because `-0` is `0`, and a negative limit drops the first `-limit`
      lines. */
  lemma WindowMeaning(lines: seq<string>, limit: int)
    ensures limit == 0 ==> Window(lines, limit) == lines
    ensures limit > 0 ==> Window(lines, limit) == lines[|lines| - Min(limit, |lines|)..]
    ensures limit < 0 ==> Window(lines, limit) == lines[Min(-limit, |lines|)..]
    ensures |Window(lines, limit)| <= |lines|
  {
  }

  /** `json.loads(line.strip())`. */
  function LineParser(decode: string -> Option<Value>): string -> Option<Value> {
    (line: string) => decode(PyStrip(line))
  }

  /** `user_id is None or activity.get('user') == user_id`. */
  function Wanted(user: Option<string>): Value -> bool {
    (v: Value) => user.None? || (v.Dict? && Get(v.entries, "user") == Some(Str(user.value)))
  }

  /** `activity.get` on a decoded value that is not a dict raises
      `AttributeError`; only a user filter calls it. */
  predicate Raises(user: Option<string>, v: Value) {
    user.Some? && !v.Dict?
  }

  /** The loop over the window, newest line first: an undecodable line is
      skipped, and a raise ends the loop with the activities gathered so
      far, which the outer `except` returns. */
  function Scan(ls: seq<string>, user: Option<string>, parse: string -> Option<Value>): seq<Value> {
    if ls == [] then []
    else match parse(ls[0])
      case None => Scan(ls[1..], user, parse)
      case Some(v) =>
        if Raises(user, v) then []
        else if Wanted(user)(v) then [v] + Scan(ls[1..], user, parse)
        else Scan(ls[1..], user, parse)
  }

  /** `get_user_activities`. */
  function Activities(file: Option<seq<string>>, user: Option<string>, limit: int, parse: string -> Option<Value>): seq<Value> {
    if file.None? then [] else Scan(Reverse(Window(file.value, limit)), user, LineParser(parse))
  }

  /** The values of the lines that parse, in order. */
  function Decoded(ls: seq<string>, parse: string -> Option<Value>): seq<Value> {
    if ls == [] then []
    else match parse(ls[0])
      case None => Decoded(ls[1..], parse)
      case Some(v) => [v] + Decoded(ls[1..], parse)
  }

  /** The index of the first line whose parsed value makes the filter
      raise, or the length when there is none. */
  function StopAt(ls: seq<string>, user: Option<string>, parse: string -> Option<Value>): (k: nat)
    ensures k <= |ls|
  {
    if ls == [] then 0
    else match parse(ls[0])
      case Some(v) => if Raises(user, v) then 0 else 1 + StopAt(ls[1..], user, parse)
      case None => 1 + StopAt(ls[1..], user, parse)
  }

  /** The loop filters the parsed lines up to the first raise: the user
      filter is applied to what is parsed, in the order of the lines, and
      undecodable lines are dropped. */
  lemma {:induction false} ScanMeaning(ls: seq<string>, user: Option<string>, parse: string -> Option<Value>)
    ensures Scan(ls, user, parse) == Filter(Decoded(ls[..StopAt(ls, user, parse)], parse), Wanted(user))
  {
    if ls != [] {
      ScanMeaning(ls[1..], user, parse);
      match parse(ls[0])
      case None => ScanSkips(ls, user, parse);
      case Some(v) =>
        if !Raises(user, v) {
          ScanKeeps(ls, user, parse, v);
        }
    }
  }

  /** An undecodable first line only shifts the stop by one. */
  lemma ScanSkips(ls: seq<string>, user: Option<string>, parse: string -> Option<Value>)
    requires ls != [] && parse(ls[0]).None?
    ensures Decoded(ls[..StopAt(ls, user, parse)], parse) == Decoded(ls[1..][..StopAt(ls[1..], user, parse)], parse)
  {
    var pre := ls[..StopAt(ls, user, parse)];
    assert pre[1..] == ls[1..][..StopAt(ls[1..], user, parse)];
  }

  /** A decoded first line that does not raise heads the decoded prefix. */
  lemma ScanKeeps(ls: seq<string>, user: Option<string>, parse: string -> Option<Value>, v: Value)
    requires ls != [] && parse(ls[0]) == Some(v) && !Raises(user, v)
    ensures Filter(Decoded(ls[..StopAt(ls, user, parse)], parse), Wanted(user)) ==
      (if Wanted(user)(v) then [v] else []) + Filter(Decoded(ls[1..][..StopAt(ls[1..], user, parse)], parse), Wanted(user))
  {
    var pre := ls[..StopAt(ls, user, parse)];
    var tail := Decoded(ls[1..][..StopAt(ls[1..], user, parse)], parse);
    assert pre[1..] == ls[1..][..StopAt(ls[1..], user, parse)];
    assert Decoded(pre, parse) == [v] + tail;
    FilterAppend([v], tail, Wanted(user));
  }

  lemma DecodedCons(ls: seq<string>, parse: string -> Option<Value>)
    requires ls != []
    ensures Decoded(ls, parse) == (if parse(ls[0]).Some? then [parse(ls[0]).value] else []) + Decoded(ls[1..], parse)
  {
  }

  /** Without a user filter nothing raises and every decodable line of the
      window comes back, newest first. */
  lemma {:induction false} NoFilterKeepsAll(ls: seq<string>, parse: string -> Option<Value>)
    ensures Scan(ls, None, parse) == Decoded(ls, parse)
  {
    if ls != [] {
      NoFilterKeepsAll(ls[1..], parse);
    }
  }

  /** The filter is applied after the window is cut: at most one activity
      per line of the window, each belonging to the requested user. */
  lemma {:induction false} ScanBound(ls: seq<string>, user: Option<string>, parse: string -> Option<Value>)
    ensures |Scan(ls, user, parse)| <= |ls|
    ensures forall v :: v in Scan(ls, user, parse) ==> Wanted(user)(v)
  {
    if ls != [] {
      ScanBound(ls[1..], user, parse);
    }
  }

  /** Every activity comes from a line of the window. */
  lemma {:induction false} ScanFromLines(ls: seq<string>, user: Option<string>, parse: string -> Option<Value>)
    ensures forall v :: v in Scan(ls, user, parse) ==> exists k :: 0 <= k < |ls| && parse(ls[k]) == Some(v)
  {
    if ls != [] {
      ScanFromLines(ls[1..], user, parse);
      forall v | v in Scan(ls, user, parse) && parse(ls[0]) != Some(v)
        ensures exists k :: 0 <= k < |ls| && parse(ls[k]) == Some(v)
      {
        var k :| 0 <= k < |ls[1..]| && parse(ls[1..][k]) == Some(v);
        assert ls[k + 1] == ls[1..][k];
      }
    }
  }

  /** The body of `get_user_activities`. */
  method GetUserActivities(file: Option<seq<string>>, user: Option<string>, limit: int, decode: string -> Option<Value>)
    returns (activities: seq<Value>)
    ensures activities == Activities(file, user, limit, decode)
  {
    if file.None? {
      return [];
    }
    activities := ScanWindow(Window(file.value, limit), user, LineParser(decode));
  }

  /** `for line in reversed(window)`: decode, skip what does not decode,
      stop at a raise, keep what the user filter accepts. */
  method ScanWindow(window: seq<string>, user: Option<string>, parse: string -> Option<Value>)
    returns (activities: seq<Value>)
    ensures activities == Scan(Reverse(window), user, parse)
  {
    activities := [];
    ghost var rev := Reverse(window);
    var k := 0;
    while k < |window|
      invariant 0 <= k <= |window|
      invariant activities + Scan(rev[k..], user, parse) == Scan(rev, user, parse)
      decreases |window| - k
    {
      var line := window[|window| - 1 - k];
      var activity := parse(line);
      ScanStep(rev, k, user, parse);
      assert rev[k] == line;
      if activity.Some? {
        if Raises(user, activity.value) {
          assert activities + [] == activities;
          return;
        }
        if Wanted(user)(activity.value) {
          activities := activities + [activity.value];
        }
      }
      k := k + 1;
    }
    assert activities + [] == activities;
  }

  lemma ScanStep(ls: seq<string>, k: nat, user: Option<string>, parse: string -> Option<Value>)
    requires k < |ls|
    ensures Scan(ls[k..], user, parse) ==
      match parse(ls[k])
      case None => Scan(ls[k + 1..], user, parse)
      case Some(v) =>
        if Raises(user, v) then []
        else if Wanted(user)(v) then [v] + Scan(ls[k + 1..], user, parse)
        else Scan(ls[k + 1..], user, parse)
  {
    assert ls[k..][0] == ls[k];
    assert ls[k..][1..] == ls[k + 1..];
  }
}
