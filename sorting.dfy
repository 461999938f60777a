/** Stable sorting, the order behind Python's `sorted` / `list.sort`
    (including `reverse=True`, which keeps equal elements in their original
    order) and JavaScript's `Array.prototype.sort` with a comparator.

    `Sort(s, le)` is an insertion sort: each element is inserted after every
    element already placed that is `le` it. Given a total preorder it returns
    a sorted permutation of `s` in which equivalent elements keep their
    relative order. */
module Sorting {
  import opened Common

  ghost predicate TotalPreorder<T(!new)>(le: (T, T) -> bool) {
    (forall a, b :: le(a, b) || le(b, a))
    && (forall a, b, c :: le(a, b) && le(b, c) ==> le(a, c))
  }

  predicate Sorted<T>(s: seq<T>, le: (T, T) -> bool) {
    forall i, j :: 0 <= i < j < |s| ==> le(s[i], s[j])
  }

  function Insert<T>(x: T, s: seq<T>, le: (T, T) -> bool): (r: seq<T>)
    ensures |r| == |s| + 1
  {
    if s == [] then [x]
    else if le(s[0], x) then [s[0]] + Insert(x, s[1..], le)
    else [x] + s
  }

  function Sort<T>(s: seq<T>, le: (T, T) -> bool): (r: seq<T>)
    ensures |r| == |s|
  {
    if s == [] then [] else Insert(s[|s| - 1], Sort(s[..|s| - 1], le), le)
  }

  lemma {:induction false} InsertPermutes<T>(x: T, s: seq<T>, le: (T, T) -> bool)
    ensures multiset(Insert(x, s, le)) == multiset(s) + multiset{x}
  {
    if s != [] && le(s[0], x) {
      InsertPermutes(x, s[1..], le);
      assert s == [s[0]] + s[1..];
    }
  }

  /** `Sort` returns a permutation of its input. */
  lemma {:induction false} SortPermutes<T>(s: seq<T>, le: (T, T) -> bool)
    ensures multiset(Sort(s, le)) == multiset(s)
  {
    if s != [] {
      SortPermutes(s[..|s| - 1], le);
      InsertPermutes(s[|s| - 1], Sort(s[..|s| - 1], le), le);
      assert s == s[..|s| - 1] + [s[|s| - 1]];
    }
  }

  lemma {:induction false} InsertSorted<T(!new)>(x: T, s: seq<T>, le: (T, T) -> bool)
    requires TotalPreorder(le) && Sorted(s, le)
    ensures Sorted(Insert(x, s, le), le)
  {
    if s != [] && le(s[0], x) {
      InsertSorted(x, s[1..], le);
      var r := Insert(x, s, le);
      var t := Insert(x, s[1..], le);
      assert r == [s[0]] + t;
      InsertPermutes(x, s[1..], le);
      assert multiset(t) == multiset(s[1..]) + multiset{x};
      forall j | 0 < j < |r| ensures le(r[0], r[j]) {
        assert r[j] in multiset(t);
        if r[j] == x {
        } else {
          assert r[j] in multiset(s[1..]);
          var k :| 0 <= k < |s[1..]| && s[1..][k] == r[j];
          assert s[k + 1] == r[j];
        }
      }
    }
  }

  /** The result of `Sort` is ordered by `le`. */
  lemma {:induction false} SortSorted<T(!new)>(s: seq<T>, le: (T, T) -> bool)
    requires TotalPreorder(le)
    ensures Sorted(Sort(s, le), le)
  {
    if s != [] {
      SortSorted(s[..|s| - 1], le);
      InsertSorted(s[|s| - 1], Sort(s[..|s| - 1], le), le);
    }
  }

  predicate Tie<T>(le: (T, T) -> bool, a: T, b: T) {
    le(a, b) && le(b, a)
  }

  /** The elements of `s` that tie with `e`, in their order in `s`. */
  function Ties<T>(s: seq<T>, le: (T, T) -> bool, e: T): seq<T> {
    if s == [] then [] else (if Tie(le, e, s[0]) then [s[0]] else []) + Ties(s[1..], le, e)
  }

  lemma {:induction false} TiesAppend<T>(s: seq<T>, t: seq<T>, le: (T, T) -> bool, e: T)
    ensures Ties(s + t, le, e) == Ties(s, le, e) + Ties(t, le, e)
  {
    if s != [] {
      assert (s + t)[1..] == s[1..] + t;
      TiesAppend(s[1..], t, le, e);
    } else {
      assert s + t == t;
    }
  }

  lemma {:induction false} NoTiesAfter<T(!new)>(x: T, s: seq<T>, le: (T, T) -> bool, e: T)
    requires TotalPreorder(le) && Sorted(s, le)
    requires s != [] && !le(s[0], x) && Tie(le, e, x)
    ensures Ties(s, le, e) == []
  {
    if |s| > 1 {
      assert Sorted(s[1..], le);
      assert le(s[0], s[1]);
      assert !le(s[1], x);
      NoTiesAfter(x, s[1..], le, e);
    }
    assert !Tie(le, e, s[0]);
  }

  lemma TiesCons<T>(a: T, t: seq<T>, le: (T, T) -> bool, e: T)
    ensures Ties([a] + t, le, e) == (if Tie(le, e, a) then [a] else []) + Ties(t, le, e)
  {
    assert ([a] + t)[1..] == t;
  }

  lemma SortedTail<T>(s: seq<T>, le: (T, T) -> bool)
    requires s != [] && Sorted(s, le)
    ensures Sorted(s[1..], le)
  {
    forall i, j | 0 <= i < j < |s[1..]| ensures le(s[1..][i], s[1..][j]) {
      assert s[1..][i] == s[i + 1] && s[1..][j] == s[j + 1];
    }
  }

  lemma {:induction false} InsertStable<T(!new)>(x: T, s: seq<T>, le: (T, T) -> bool, e: T)
    requires TotalPreorder(le) && Sorted(s, le)
    ensures Ties(Insert(x, s, le), le, e) == Ties(s, le, e) + Ties([x], le, e)
  {
    if s == [] {
    } else if le(s[0], x) {
      SortedTail(s, le);
      InsertStable(x, s[1..], le, e);
      InsertPast(x, s, le, e);
    } else {
      InsertFront(x, s, le, e);
    }
  }

  /** Inserting past the first element keeps it in front, so its tie (if
      any) comes first. */
  lemma InsertPast<T>(x: T, s: seq<T>, le: (T, T) -> bool, e: T)
    requires s != [] && le(s[0], x)
    requires Ties(Insert(x, s[1..], le), le, e) == Ties(s[1..], le, e) + Ties([x], le, e)
    ensures Ties(Insert(x, s, le), le, e) == Ties(s, le, e) + Ties([x], le, e)
  {
    var h, t := s[0], s[1..];
    var r := Insert(x, t, le);
    assert Insert(x, s, le) == [h] + r;
    TiesCons(h, r, le, e);
    assert s == [h] + t;
    TiesCons(h, t, le, e);
    var th := if Tie(le, e, h) then [h] else [];
    assert Ties(Insert(x, s, le), le, e) == th + (Ties(t, le, e) + Ties([x], le, e));
    assert Ties(s, le, e) == th + Ties(t, le, e);
  }

  /** Inserting in front puts `x` before elements that are all greater, so
      none of them ties with what ties with `x`. */
  lemma InsertFront<T(!new)>(x: T, s: seq<T>, le: (T, T) -> bool, e: T)
    requires TotalPreorder(le) && Sorted(s, le)
    requires s != [] && !le(s[0], x)
    ensures Ties(Insert(x, s, le), le, e) == Ties(s, le, e) + Ties([x], le, e)
  {
    if Tie(le, e, x) {
      NoTiesAfter(x, s, le, e);
    }
    FrontTies(x, s, le, e);
  }

  lemma FrontTies<T>(x: T, s: seq<T>, le: (T, T) -> bool, e: T)
    requires s != [] && !le(s[0], x)
    requires Tie(le, e, x) ==> Ties(s, le, e) == []
    ensures Ties(Insert(x, s, le), le, e) == Ties(s, le, e) + Ties([x], le, e)
  {
    assert Insert(x, s, le) == [x] + s;
    TiesCons(x, s, le, e);
    TiesCons(x, [], le, e);
    assert [x] + [] == [x];
    if Tie(le, e, x) {
      assert Ties([x], le, e) == [x];
      assert Ties(Insert(x, s, le), le, e) == [x] + [];
    } else {
      assert Ties([x], le, e) == [];
      assert Ties(Insert(x, s, le), le, e) == Ties(s, le, e);
    }
  }

  /** Stability: the elements that tie with any `e` appear in the sorted
      result in exactly their input order. */
  lemma {:induction false} SortStable<T(!new)>(s: seq<T>, le: (T, T) -> bool, e: T)
    requires TotalPreorder(le)
    ensures Ties(Sort(s, le), le, e) == Ties(s, le, e)
  {
    if s != [] {
      var init, last := s[..|s| - 1], s[|s| - 1];
      SortStable(init, le, e);
      SortSorted(init, le);
      InsertStable(last, Sort(init, le), le, e);
      assert s == init + [last];
      TiesAppend(init, [last], le, e);
    }
  }

  /** A sequence already in order is returned unchanged. */
  lemma {:induction false} SortSortedIdentity<T(!new)>(s: seq<T>, le: (T, T) -> bool)
    requires TotalPreorder(le) && Sorted(s, le)
    ensures Sort(s, le) == s
  {
    if s != [] {
      var init, last := s[..|s| - 1], s[|s| - 1];
      assert Sorted(init, le);
      SortSortedIdentity(init, le);
      InsertAtEnd(last, init, le);
    }
  }

  lemma {:induction false} InsertAtEnd<T>(x: T, s: seq<T>, le: (T, T) -> bool)
    requires forall i :: 0 <= i < |s| ==> le(s[i], x)
    ensures Insert(x, s, le) == s + [x]
  {
    if s != [] {
      InsertAtEnd(x, s[1..], le);
      assert s == [s[0]] + s[1..];
    }
  }

  // ---- string order -------------------------------------------------------

  /** Lexicographic order on strings by character code, the order Python
      uses for `str` comparison and `sorted`. */
  predicate StrLe(a: string, b: string) {
    a == [] || (b != [] && (a[0] < b[0] || (a[0] == b[0] && StrLe(a[1..], b[1..]))))
  }

  lemma {:induction false} StrLeRefl(a: string)
    ensures StrLe(a, a)
  {
    if a != [] {
      StrLeRefl(a[1..]);
    }
  }

  lemma {:induction false} StrLeTotal(a: string, b: string)
    ensures StrLe(a, b) || StrLe(b, a)
  {
    if a != [] && b != [] && a[0] == b[0] {
      StrLeTotal(a[1..], b[1..]);
    }
  }

  lemma {:induction false} StrLeTrans(a: string, b: string, c: string)
    requires StrLe(a, b) && StrLe(b, c)
    ensures StrLe(a, c)
  {
    if a != [] && b != [] && c != [] && a[0] == b[0] == c[0] {
      StrLeTrans(a[1..], b[1..], c[1..]);
    }
  }

  lemma {:induction false} StrLeAntisym(a: string, b: string)
    requires StrLe(a, b) && StrLe(b, a)
    ensures a == b
  {
    if a != [] && b != [] {
      StrLeAntisym(a[1..], b[1..]);
      assert a == [a[0]] + a[1..] && b == [b[0]] + b[1..];
    }
  }

  lemma StrLePreorder()
    ensures TotalPreorder(StrLe)
  {
    forall a, b ensures StrLe(a, b) || StrLe(b, a) {
      StrLeTotal(a, b);
    }
    forall a, b, c | StrLe(a, b) && StrLe(b, c) ensures StrLe(a, c) {
      StrLeTrans(a, b, c);
    }
  }

  /** Descending order of a string key: `a` may precede `b` when its key is
      not smaller. */
  function DescByStr<T>(key: T -> string): (T, T) -> bool {
    (a: T, b: T) => StrLe(key(b), key(a))
  }

  /** Descending order of an integer key. */
  function DescByInt<T>(key: T -> int): (T, T) -> bool {
    (a: T, b: T) => key(b) <= key(a)
  }

  lemma DescByStrPreorder<T(!new)>(key: T -> string)
    ensures TotalPreorder(DescByStr(key))
  {
    var le := DescByStr(key);
    forall a, b ensures le(a, b) || le(b, a) {
      StrLeTotal(key(a), key(b));
    }
    forall a, b, c | le(a, b) && le(b, c) ensures le(a, c) {
      StrLeTrans(key(c), key(b), key(a));
    }
  }

  lemma DescByIntPreorder<T(!new)>(key: T -> int)
    ensures TotalPreorder(DescByInt(key))
  {
  }

  // ---- Python's sorted on values -------------------------------------------

  /** Python's numbers: an `int`, a `float` or a `bool`. */
  predicate IsPyNumber(v: Value) {
    v.Int? || v.Float? || v.Bool?
  }

  /** The value `<` compares a number by, `True` counting as 1. */
  function NumOf(v: Value): real {
    match v
    case Int(i) => i as real
    case Float(f) => f
    case Bool(b) => if b then 1.0 else 0.0
    case _ => 0.0
  }

  function StrOf(v: Value): string {
    if v.Str? then v.s else ""
  }

  /** The order of strings, by code point, as a key order on values. */
  function StrKeyLe(): (Value, Value) -> bool {
    (a: Value, b: Value) => StrLe(StrOf(a), StrOf(b))
  }

  /** The order of numbers, by value, as a key order on values. */
  function NumKeyLe(): (Value, Value) -> bool {
    (a: Value, b: Value) => NumOf(a) <= NumOf(b)
  }

  /** `a <= b` between two values of one class: strings by code point,
      everything else by numeric value. */
  predicate PyLe(a: Value, b: Value) {
    if a.Str? && b.Str? then StrLe(a.s, b.s) else NumOf(a) <= NumOf(b)
  }

  /** The values `sorted` orders without raising: a single value, which it
      never compares, or values that are all strings or all numbers. Any
      other list holds two values that cannot be compared (a string and a
      number, or two values of a type without `<`, such as `None` or a
      dict), and every order of the list puts such a pair next to each
      other, so the sort compares them and raises `TypeError`. */
  predicate PySortable(vs: seq<Value>) {
    |vs| <= 1 || (forall v :: v in vs ==> v.Str?) || (forall v :: v in vs ==> IsPyNumber(v))
  }

  /** `sorted(vs)`, stable, or `None` when it raises. */
  function PySorted(vs: seq<Value>): Option<seq<Value>> {
    if |vs| <= 1 then Some(vs)
    else if forall v :: v in vs ==> v.Str? then Some(Sort(vs, StrKeyLe()))
    else if forall v :: v in vs ==> IsPyNumber(v) then Some(Sort(vs, NumKeyLe()))
    else None
  }

  lemma StrKeyPreorder()
    ensures TotalPreorder(StrKeyLe())
  {
    var le := StrKeyLe();
    forall a, b ensures le(a, b) || le(b, a) {
      StrLeTotal(StrOf(a), StrOf(b));
    }
    forall a, b, c | le(a, b) && le(b, c) ensures le(a, c) {
      StrLeTrans(StrOf(a), StrOf(b), StrOf(c));
    }
  }

  /** `sorted` succeeds exactly on sortable values, and then returns them
      all, each as often as given, in ascending order. */
  lemma PySortedMeaning(vs: seq<Value>)
    ensures PySorted(vs).Some? <==> PySortable(vs)
    ensures PySorted(vs).Some? ==>
      multiset(PySorted(vs).value) == multiset(vs)
      && forall i, j :: 0 <= i < j < |PySorted(vs).value| ==> PyLe(PySorted(vs).value[i], PySorted(vs).value[j])
  {
    if |vs| > 1 {
      if forall v :: v in vs ==> v.Str? {
        StrValuesSorted(vs);
      } else if forall v :: v in vs ==> IsPyNumber(v) {
        NumValuesSorted(vs);
      }
    }
  }

  lemma StrValuesSorted(vs: seq<Value>)
    requires forall v :: v in vs ==> v.Str?
    ensures multiset(Sort(vs, StrKeyLe())) == multiset(vs)
    ensures forall i, j :: 0 <= i < j < |vs| ==> PyLe(Sort(vs, StrKeyLe())[i], Sort(vs, StrKeyLe())[j])
  {
    StrKeyPreorder();
    SortSorted(vs, StrKeyLe());
    SortPermutes(vs, StrKeyLe());
    var s := Sort(vs, StrKeyLe());
    forall i, j | 0 <= i < j < |s| ensures PyLe(s[i], s[j]) {
      assert s[i] in multiset(vs) && s[j] in multiset(vs);
      assert StrKeyLe()(s[i], s[j]);
    }
  }

  lemma NumKeyPreorder()
    ensures TotalPreorder(NumKeyLe())
  {
  }

  lemma NumValuesSorted(vs: seq<Value>)
    requires forall v :: v in vs ==> IsPyNumber(v)
    ensures multiset(Sort(vs, NumKeyLe())) == multiset(vs)
    ensures forall i, j :: 0 <= i < j < |vs| ==> PyLe(Sort(vs, NumKeyLe())[i], Sort(vs, NumKeyLe())[j])
  {
    NumKeyPreorder();
    SortSorted(vs, NumKeyLe());
    SortPermutes(vs, NumKeyLe());
    var s := Sort(vs, NumKeyLe());
    forall v | v in s ensures IsPyNumber(v) {
      assert v in multiset(vs);
    }
    NumSortedPyLe(s);
  }

  lemma NumSortedPyLe(s: seq<Value>)
    requires Sorted(s, NumKeyLe())
    requires forall v :: v in s ==> IsPyNumber(v)
    ensures forall i, j :: 0 <= i < j < |s| ==> PyLe(s[i], s[j])
  {
    forall i, j | 0 <= i < j < |s| ensures PyLe(s[i], s[j]) {
      assert s[i] in s;
      assert NumKeyLe()(s[i], s[j]);
    }
  }

  lemma PyLeRefl(v: Value)
    ensures PyLe(v, v)
  {
    if v.Str? {
      StrLeRefl(v.s);
    }
  }
}
