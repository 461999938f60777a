/** Values shared by every module of the model: optional results, the decoded
    payload of a pickle or JSON document, and the insertion-ordered dictionary
    that both Python and JavaScript give their objects. */
module Common {

  datatype Option<+T> = None | Some(value: T)

  /** A decoded pickle / JSON value. `Float` holds a Python float as an exact
      real. `Dict` keeps its entries in insertion order, as Python dicts and
      JavaScript objects with string keys do. */
  datatype Value =
    | Str(s: string)
    | Int(i: int)
    | Float(f: real)
    | Bool(b: bool)
    | Null
    | List(items: seq<Value>)
    | Dict(entries: seq<(string, Value)>)

  type Entries = seq<(string, Value)>

  /** The keys of a dictionary, or of any list of named pairs, in order. */
  function Keys<T>(d: seq<(string, T)>): (r: seq<string>)
    ensures |r| == |d|
    ensures forall i :: 0 <= i < |d| ==> r[i] == d[i].0
  {
    if d == [] then [] else [d[0].0] + Keys(d[1..])
  }

  predicate HasKey(d: Entries, k: string) {
    k in Keys(d)
  }

  /** No key occurs twice; every dictionary a Python or JavaScript program can
      build has this property. */
  predicate UniqueKeys(d: Entries) {
    forall i, j :: 0 <= i < j < |d| ==> d[i].0 != d[j].0
  }

  /** `d.get(k)`: the value stored under `k`, if any. */
  function Get(d: Entries, k: string): (r: Option<Value>)
    ensures r.Some? <==> HasKey(d, k)
  {
    if d == [] then None
    else if d[0].0 == k then Some(d[0].1)
    else Get(d[1..], k)
  }

  /** `d[k] = v`: an existing key keeps its position and takes the new value;
      a new key is appended at the end. */
  function Set(d: Entries, k: string, v: Value): (r: Entries)
    ensures |r| == if HasKey(d, k) then |d| else |d| + 1
  {
    if d == [] then [(k, v)]
    else if d[0].0 == k then [(k, v)] + d[1..]
    else [d[0]] + Set(d[1..], k, v)
  }

  lemma {:induction false} GetSetSame(d: Entries, k: string, v: Value)
    ensures Get(Set(d, k, v), k) == Some(v)
  {
    if d != [] && d[0].0 != k {
      GetSetSame(d[1..], k, v);
    }
  }

  lemma {:induction false} GetSetOther(d: Entries, k: string, v: Value, k': string)
    requires k' != k
    ensures Get(Set(d, k, v), k') == Get(d, k')
  {
    if d != [] && d[0].0 != k {
      GetSetOther(d[1..], k, v, k');
    }
  }

  /** Assignment never reorders keys: an existing key stays where it was and a
      new key goes last. */
  lemma {:induction false} KeysSet(d: Entries, k: string, v: Value)
    ensures Keys(Set(d, k, v)) == if HasKey(d, k) then Keys(d) else Keys(d) + [k]
  {
    if d != [] && d[0].0 != k {
      KeysSet(d[1..], k, v);
      assert Keys(d) == [d[0].0] + Keys(d[1..]);
    }
  }

  lemma {:induction false} SetKeepsUniqueKeys(d: Entries, k: string, v: Value)
    requires UniqueKeys(d)
    ensures UniqueKeys(Set(d, k, v))
  {
    KeysSet(d, k, v);
    var r := Set(d, k, v);
    forall i, j | 0 <= i < j < |r| ensures r[i].0 != r[j].0 {
      assert Keys(r)[i] == r[i].0 && Keys(r)[j] == r[j].0;
      if HasKey(d, k) {
        assert Keys(d)[i] == d[i].0 && Keys(d)[j] == d[j].0;
      } else if j < |d| {
        assert Keys(d)[i] == d[i].0 && Keys(d)[j] == d[j].0;
      } else {
        assert Keys(d)[i] == d[i].0;
      }
    }
  }

  /** A key that is present sits at some position. */
  lemma {:induction false} GetIndex(d: Entries, k: string) returns (j: nat)
    requires HasKey(d, k)
    ensures j < |d| && d[j] == (k, Get(d, k).value)
  {
    if d[0].0 == k {
      j := 0;
    } else {
      assert Keys(d) == [d[0].0] + Keys(d[1..]);
      var j' := GetIndex(d[1..], k);
      j := j' + 1;
    }
  }

  /** The dict built from parallel lists of keys and values. */
  function Zip(ks: seq<string>, vs: seq<Value>): (r: Entries)
    requires |ks| == |vs|
    ensures |r| == |ks| && forall i :: 0 <= i < |ks| ==> r[i] == (ks[i], vs[i])
  {
    if ks == [] then [] else [(ks[0], vs[0])] + Zip(ks[1..], vs[1..])
  }

  /** In a zipped dict a key maps to the value beside its first occurrence. */
  lemma {:induction false} GetZip(ks: seq<string>, vs: seq<Value>, i: nat)
    requires |ks| == |vs| && i < |ks| && ks[i] !in ks[..i]
    ensures Get(Zip(ks, vs), ks[i]) == Some(vs[i])
  {
    if i > 0 {
      assert ks[1..][..i - 1] == ks[1..i];
      GetZip(ks[1..], vs[1..], i - 1);
    }
  }

  /** Entries appended after a key do not change what it maps to. */
  lemma {:induction false} GetAppendFront(d: Entries, e: Entries, k: string)
    requires HasKey(d, k)
    ensures HasKey(d + e, k) && Get(d + e, k) == Get(d, k)
  {
    assert (d + e)[0] == d[0];
    if d[0].0 != k {
      assert Keys(d) == [d[0].0] + Keys(d[1..]);
      assert (d + e)[1..] == d[1..] + e;
      GetAppendFront(d[1..], e, k);
    }
  }

  /** Python truthiness: empty strings, zero, False, None and empty
      containers are false. */
  predicate PyTruthy(v: Value) {
    match v
    case Str(s) => s != ""
    case Int(i) => i != 0
    case Float(f) => f != 0.0
    case Bool(b) => b
    case Null => false
    case List(xs) => xs != []
    case Dict(es) => es != []
  }

  /** Values Python cannot hash, so that using one as a dict key or set
      element raises `TypeError`: lists and dicts. */
  predicate Unhashable(v: Value) {
    v.List? || v.Dict?
  }

  /** JavaScript truthiness: arrays and objects are true even when empty. */
  predicate JsTruthy(v: Value) {
    match v
    case Str(s) => s != ""
    case Int(i) => i != 0
    case Float(f) => f != 0.0
    case Bool(b) => b
    case Null => false
    case List(_) => true
    case Dict(_) => true
  }

  /** The elements of a list, or the one-element list `[v]` for any other
      value (the "wrap scalars" idiom used by the coordinate handlers). */
  function AsList(v: Value): (r: seq<Value>)
    ensures v.List? ==> r == v.items
    ensures !v.List? ==> r == [v]
  {
    if v.List? then v.items else [v]
  }

  /** What `for x in v` / `enumerate(v)` visits: the elements of a list, the
      one-character strings of a string, the keys of a dict; `None` stands
      for the TypeError raised on numbers, booleans and None. */
  function PyIter(v: Value): (r: Option<seq<Value>>)
    ensures r.None? <==> (v.Int? || v.Float? || v.Bool? || v.Null?)
    ensures v.List? ==> r == Some(v.items)
  {
    match v
    case List(xs) => Some(xs)
    case Str(s) => Some(seq(|s|, (k: int) requires 0 <= k < |s| => Str([s[k]])))
    case Dict(es) => Some(seq(|es|, (k: int) requires 0 <= k < |es| => Str(es[k].0)))
    case _ => None
  }

  /** `len(v)`: `None` stands for the TypeError raised on numbers, booleans
      and None. */
  function PyLen(v: Value): (r: Option<nat>)
    ensures r.None? <==> (v.Int? || v.Float? || v.Bool? || v.Null?)
    ensures r.Some? ==> PyIter(v).Some? && r.value == |PyIter(v).value|
  {
    match v
    case List(xs) => Some(|xs|)
    case Str(s) => Some(|s|)
    case Dict(es) => Some(|es|)
    case _ => None
  }

  function Min(a: int, b: int): int { if a <= b then a else b }
  function Max(a: int, b: int): int { if a >= b then a else b }

  /** Python's reading of a slice bound on a list of length `n`: a negative
      bound counts from the end, and both are clamped to `[0, n]`. */
  function SliceBound(n: nat, i: int): (r: nat)
    ensures r <= n
    ensures 0 <= i <= n ==> r == i
  {
    if i < 0 then Max(n + i, 0) else Min(i, n)
  }

  /** Python's `s[i:j]` on a list: it never fails, and it is empty when the
      normalised end is not past the normalised start. */
  function SliceOf<T>(s: seq<T>, i: int, j: int): (r: seq<T>)
    ensures |r| <= |s|
    ensures 0 <= i <= j ==> r == s[Min(i, |s|)..Min(j, |s|)]
  {
    var a := SliceBound(|s|, i);
    var b := SliceBound(|s|, j);
    if b <= a then [] else s[a..b]
  }

  /** `reversed(s)`. */
  function Reverse<T>(s: seq<T>): (r: seq<T>)
    ensures |r| == |s|
    ensures forall i :: 0 <= i < |s| ==> r[i] == s[|s| - 1 - i]
  {
    if s == [] then [] else Reverse(s[1..]) + [s[0]]
  }

  /** The elements that satisfy `p`, in their original order (a list
      comprehension with a condition, or `Array.prototype.filter`). */
  function Filter<T>(s: seq<T>, p: T -> bool): (r: seq<T>)
    ensures |r| <= |s|
    ensures multiset(r) <= multiset(s)
    ensures forall i :: 0 <= i < |r| ==> p(r[i]) && r[i] in s
    ensures forall i :: 0 <= i < |s| && p(s[i]) ==> s[i] in r
  {
    if s == [] then []
    else
      assert s == [s[0]] + s[1..];
      (if p(s[0]) then [s[0]] else []) + Filter(s[1..], p)
  }

  lemma {:induction false} FilterAppend<T>(s: seq<T>, t: seq<T>, p: T -> bool)
    ensures Filter(s + t, p) == Filter(s, p) + Filter(t, p)
  {
    if s == [] {
      assert s + t == t;
    } else {
      assert (s + t)[1..] == s[1..] + t;
      FilterAppend(s[1..], t, p);
    }
  }

  /** The one-step form used by scan loops: filtering one more element
      appends it exactly when it satisfies `p`. */
  lemma FilterSnoc<T>(s: seq<T>, i: nat, p: T -> bool)
    requires i < |s|
    ensures Filter(s[..i + 1], p) == Filter(s[..i], p) + (if p(s[i]) then [s[i]] else [])
  {
    assert s[..i + 1] == s[..i] + [s[i]];
    FilterAppend(s[..i], [s[i]], p);
  }

  /** An element that fails `p` is dropped and the survivors keep their
      order: `Filter(s, p)` is obtained from `s` by deleting elements. */
  lemma {:induction false} FilterAll<T>(s: seq<T>, p: T -> bool)
    requires forall i :: 0 <= i < |s| ==> p(s[i])
    ensures Filter(s, p) == s
  {
    if s != [] {
      FilterAll(s[1..], p);
      assert s == [s[0]] + s[1..];
    }
  }

  lemma FilterSingle<T>(x: T, p: T -> bool)
    ensures Filter([x], p) == if p(x) then [x] else []
  {
    assert [x][1..] == [];
  }

  /** Two permutations of each other hold the same elements. */
  lemma SameMembers<T>(a: seq<T>, b: seq<T>)
    requires multiset(a) == multiset(b)
    ensures forall x :: x in a <==> x in b
  {
    forall x ensures x in a <==> x in b {
      assert x in a <==> x in multiset(a);
      assert x in b <==> x in multiset(b);
    }
  }

  /** Nothing survives a filter that no element satisfies. */
  lemma {:induction false} FilterNone<T>(s: seq<T>, p: T -> bool)
    requires forall i :: 0 <= i < |s| ==> !p(s[i])
    ensures Filter(s, p) == []
  {
    if s != [] {
      FilterNone(s[1..], p);
    }
  }

  /** The first element that satisfies `p` (a scan loop that returns on the
      first hit, or `Array.prototype.find`). */
  function First<T>(s: seq<T>, p: T -> bool): (r: Option<T>)
    ensures r.None? <==> forall i :: 0 <= i < |s| ==> !p(s[i])
    ensures r.Some? ==> exists k :: 0 <= k < |s| && s[k] == r.value && p(s[k]) && forall j :: 0 <= j < k ==> !p(s[j])
  {
    if s == [] then None
    else if p(s[0]) then Some(s[0])
    else
      var r := First(s[1..], p);
      assert r.Some? ==> exists k :: 1 <= k < |s| && s[k] == r.value && p(s[k]) && forall j :: 1 <= j < k ==> !p(s[j]);
      r
  }

  /** The first hit among the first `i + 1` elements: the one among the
      first `i`, or else `s[i]` when it satisfies `p`. */
  lemma {:induction false} FirstSnoc<T>(s: seq<T>, i: nat, p: T -> bool)
    requires i < |s|
    ensures First(s[..i + 1], p) == if First(s[..i], p).Some? then First(s[..i], p) else if p(s[i]) then Some(s[i]) else None
  {
    if i > 0 {
      FirstSnoc(s[1..], i - 1, p);
      assert s[1..][..i] == s[..i + 1][1..];
      assert s[1..][..i - 1] == s[..i][1..];
    } else {
      assert s[..1][1..] == [];
    }
  }

  /** The last element that satisfies `p` (a scan loop in which each hit
      replaces the previous one). */
  function Last<T>(s: seq<T>, p: T -> bool): (r: Option<T>)
    ensures r.None? <==> forall i :: 0 <= i < |s| ==> !p(s[i])
    ensures r.Some? ==> exists k :: 0 <= k < |s| && s[k] == r.value && p(s[k]) && forall j :: k < j < |s| ==> !p(s[j])
  {
    if s == [] then None
    else
      var r := Last(s[1..], p);
      if r.Some? then
        assert exists k :: 1 <= k < |s| && s[k] == r.value && p(s[k]) && forall j :: k < j < |s| ==> !p(s[j]);
        r
      else if p(s[0]) then Some(s[0]) else None
  }

  /** One step of the forward scan: the hit at `i`, if any, replaces the
      last one before it. */
  lemma {:induction false} LastStep<T>(s: seq<T>, i: nat, p: T -> bool)
    requires i < |s|
    ensures Last(s[..i + 1], p) == if p(s[i]) then Some(s[i]) else Last(s[..i], p)
  {
    if i > 0 {
      LastStep(s[1..], i - 1, p);
      assert s[1..][..i] == s[..i + 1][1..];
      assert s[1..][..i - 1] == s[..i][1..];
    } else {
      assert s[..1][1..] == [];
    }
  }

  /** One step of the scan: from position `i` the first hit is `s[i]` when it
      satisfies `p`, and otherwise lies further on. */
  lemma FirstStep<T>(s: seq<T>, i: nat, p: T -> bool)
    requires i < |s|
    ensures First(s[i..], p) == if p(s[i]) then Some(s[i]) else First(s[i + 1..], p)
  {
    assert s[i..][0] == s[i];
    assert s[i..][1..] == s[i + 1..];
  }

  predicate NoDuplicates<T(==)>(s: seq<T>) {
    forall i, j :: 0 <= i < j < |s| ==> s[i] != s[j]
  }

  /** The distinct elements in order of first appearance (`set` followed by
      a sort makes the order irrelevant). */
  function Dedup<T(==)>(s: seq<T>): (r: seq<T>)
    ensures forall i :: 0 <= i < |r| ==> r[i] in s
    ensures forall i :: 0 <= i < |s| ==> s[i] in r
    ensures NoDuplicates(r)
  {
    if s == [] then []
    else
      var r := Dedup(s[..|s| - 1]);
      assert forall i :: 0 <= i < |s| - 1 ==> s[i] == s[..|s| - 1][i];
      if s[|s| - 1] in r then r else r + [s[|s| - 1]]
  }

  /** One more element: the distinct elements gain it unless they have it. */
  lemma DedupSnoc<T>(s: seq<T>, x: T)
    ensures Dedup(s + [x]) == if x in Dedup(s) then Dedup(s) else Dedup(s) + [x]
  {
    assert (s + [x])[..|s|] == s;
  }

  /** An element of a duplicate-free sequence occurs once. */
  lemma {:induction false} OccursOnce<T>(s: seq<T>, x: T)
    requires NoDuplicates(s) && x in s
    ensures multiset(s)[x] == 1
  {
    assert s == [s[0]] + s[1..];
    if s[0] == x {
      assert x !in s[1..];
    } else {
      assert NoDuplicates(s[1..]);
      OccursOnce(s[1..], x);
    }
  }

  lemma OccursTwice<T>(s: seq<T>, i: nat, j: nat)
    requires i < j < |s| && s[i] == s[j]
    ensures multiset(s)[s[i]] >= 2
  {
    assert s == s[..i] + [s[i]] + s[i + 1..j] + [s[j]] + s[j + 1..];
  }

  /** A rearrangement of a duplicate-free sequence is duplicate-free. */
  lemma PermutationKeepsNoDuplicates<T>(a: seq<T>, b: seq<T>)
    requires NoDuplicates(a) && multiset(a) == multiset(b)
    ensures NoDuplicates(b)
  {
    forall i, j | 0 <= i < j < |b| ensures b[i] != b[j] {
      if b[i] == b[j] {
        OccursTwice(b, i, j);
        assert b[i] in multiset(a);
        OccursOnce(a, b[i]);
      }
    }
  }

  /** A count dict in insertion order. */
  type Counts = seq<(string, nat)>

  /** `counts[k] = counts.get(k, 0) + 1`. */
  function Bump(c: Counts, k: string): Counts {
    if c == [] then [(k, 1)]
    else if c[0].0 == k then [(k, c[0].1 + 1)] + c[1..]
    else [c[0]] + Bump(c[1..], k)
  }

  /** `counts.get(k, 0)`. */
  function CountIn(c: Counts, k: string): nat {
    if c == [] then 0 else if c[0].0 == k then c[0].1 else CountIn(c[1..], k)
  }

  function Total(c: Counts): nat {
    if c == [] then 0 else c[0].1 + Total(c[1..])
  }

  function CountKeys(c: Counts): seq<string> {
    if c == [] then [] else [c[0].0] + CountKeys(c[1..])
  }

  lemma {:induction false} BumpCounts(c: Counts, k: string, k': string)
    ensures CountIn(Bump(c, k), k') == CountIn(c, k') + (if k == k' then 1 else 0)
    ensures Total(Bump(c, k)) == Total(c) + 1
    ensures CountKeys(Bump(c, k)) == if k in CountKeys(c) then CountKeys(c) else CountKeys(c) + [k]
  {
    if c != [] && c[0].0 != k {
      BumpCounts(c[1..], k, k');
    }
  }


  /** Counting every key of `xs`, in order, into `c`. */
  function TallyOf(c: Counts, xs: seq<string>): Counts {
    if xs == [] then c else Bump(TallyOf(c, xs[..|xs| - 1]), xs[|xs| - 1])
  }

  /** Counting `xs` adds each key's occurrences to its count and `|xs|` to
      the total. */
  lemma {:induction false} TallyOfMeaning(c: Counts, xs: seq<string>, k: string)
    ensures CountIn(TallyOf(c, xs), k) == CountIn(c, k) + multiset(xs)[k]
    ensures Total(TallyOf(c, xs)) == Total(c) + |xs|
  {
    if xs != [] {
      var init := xs[..|xs| - 1];
      TallyOfMeaning(c, init, k);
      BumpCounts(TallyOf(c, init), xs[|xs| - 1], k);
      assert xs == init + [xs[|xs| - 1]];
    }
  }

  // ---- calendar -------------------------------------------------------------

  /** Leap years of the proleptic Gregorian calendar. */
  predicate LeapYear(y: int) {
    y % 4 == 0 && (y % 100 != 0 || y % 400 == 0)
  }

  function DaysIn(y: int, m: int): int {
    if m == 2 then (if LeapYear(y) then 29 else 28)
    else if m == 4 || m == 6 || m == 9 || m == 11 then 30
    else 31
  }

  /** What `datetime(y, m, d)` accepts. */
  predicate ValidDate(y: int, m: int, d: int) {
    1 <= y <= 9999 && 1 <= m <= 12 && 1 <= d <= DaysIn(y, m)
  }

  function YearDays(y: int): nat {
    if LeapYear(y) then 366 else 365
  }

  /** The days of the years before `y`, counted from year 1. */
  function DaysBeforeYear(y: int): nat
    decreases y
  {
    if y <= 1 then 0 else DaysBeforeYear(y - 1) + YearDays(y - 1)
  }

  /** The days of the months of year `y` before month `m`. */
  function DaysBeforeMonth(y: int, m: int): nat
    decreases m
  {
    if m <= 1 then 0 else DaysBeforeMonth(y, m - 1) + DaysIn(y, m - 1)
  }

  /** Python's `date.toordinal()`: 1 January of year 1 is day 1, and
      subtracting two dates subtracts their ordinals. */
  function Ordinal(y: int, m: int, d: int): int {
    DaysBeforeYear(y) + DaysBeforeMonth(y, m) + d
  }

  /** The same day of the next month is as many days later as the month
      is long. */
  lemma OrdinalNextMonth(y: int, m: int, d: int)
    requires 1 <= m < 12
    ensures Ordinal(y, m + 1, d) == Ordinal(y, m, d) + DaysIn(y, m)
  {
  }

  /** The months before December hold 334 days, one more in a leap year. */
  lemma DaysBeforeDecember(y: int)
    ensures DaysBeforeMonth(y, 12) == if LeapYear(y) then 335 else 334
  {
    assert DaysBeforeMonth(y, 2) == 31;
    assert DaysBeforeMonth(y, 3) == DaysBeforeMonth(y, 2) + DaysIn(y, 2);
    assert DaysBeforeMonth(y, 4) == DaysBeforeMonth(y, 3) + 31;
    assert DaysBeforeMonth(y, 5) == DaysBeforeMonth(y, 4) + 30;
    assert DaysBeforeMonth(y, 6) == DaysBeforeMonth(y, 5) + 31;
    assert DaysBeforeMonth(y, 7) == DaysBeforeMonth(y, 6) + 30;
    assert DaysBeforeMonth(y, 8) == DaysBeforeMonth(y, 7) + 31;
    assert DaysBeforeMonth(y, 9) == DaysBeforeMonth(y, 8) + 31;
    assert DaysBeforeMonth(y, 10) == DaysBeforeMonth(y, 9) + 30;
    assert DaysBeforeMonth(y, 11) == DaysBeforeMonth(y, 10) + 31;
    assert DaysBeforeMonth(y, 12) == DaysBeforeMonth(y, 11) + 30;
  }

  /** The same day of January of the next year is 31 days after that day of
      December, and a whole year after that day of January. */
  lemma OrdinalNextYear(y: int, d: int)
    requires y >= 1
    ensures Ordinal(y + 1, 1, d) == Ordinal(y, 12, d) + 31
    ensures Ordinal(y + 1, 1, d) == Ordinal(y, 1, d) + YearDays(y)
  {
    DaysBeforeDecember(y);
  }
}
