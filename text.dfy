/** String operations of Python and JavaScript that the platform relies on:
    substring tests, splitting and joining on a separator, replacing every
    occurrence of a pattern, ASCII case mapping, whitespace trimming, integer
    parsing with `int()` and zero-padded formatting with `{:04d}`. */
module Text {
  import opened Common

  predicate IsPrefix(p: string, s: string) {
    |p| <= |s| && s[..|p|] == p
  }

  predicate IsSuffix(p: string, s: string) {
    |p| <= |s| && s[|s| - |p|..] == p
  }

  /** Python `sub in s`, JavaScript `s.includes(sub)`. */
  predicate Contains(s: string, sub: string)
    decreases |s|
  {
    IsPrefix(sub, s) || (s != [] && Contains(s[1..], sub))
  }

  lemma {:induction false} ContainsAt(s: string, sub: string, i: nat)
    requires i + |sub| <= |s| && s[i..i + |sub|] == sub
    ensures Contains(s, sub)
    decreases i
  {
    if i > 0 {
      assert s[1..][i - 1..i - 1 + |sub|] == s[i..i + |sub|];
      ContainsAt(s[1..], sub, i - 1);
    } else {
      assert s[..|sub|] == sub;
    }
  }

  lemma {:induction false} ContainsWitness(s: string, sub: string) returns (i: nat)
    requires Contains(s, sub)
    ensures i + |sub| <= |s| && s[i..i + |sub|] == sub
    decreases |s|
  {
    if IsPrefix(sub, s) {
      i := 0;
    } else {
      var j := ContainsWitness(s[1..], sub);
      assert s[1..][j..j + |sub|] == s[j + 1..j + 1 + |sub|];
      i := j + 1;
    }
  }

  lemma ContainsEmpty(s: string)
    ensures Contains(s, "")
  {
    ContainsAt(s, "", 0);
  }

  lemma {:induction false} ContainsLeft(a: string, b: string, sub: string)
    requires Contains(a, sub)
    ensures Contains(a + b, sub)
  {
    var i := ContainsWitness(a, sub);
    assert (a + b)[i..i + |sub|] == a[i..i + |sub|];
    ContainsAt(a + b, sub, i);
  }

  lemma {:induction false} ContainsRight(a: string, b: string, sub: string)
    requires Contains(b, sub)
    ensures Contains(a + b, sub)
  {
    var i := ContainsWitness(b, sub);
    assert (a + b)[|a| + i..|a| + i + |sub|] == b[i..i + |sub|];
    ContainsAt(a + b, sub, |a| + i);
  }

  /** A one-character pattern occurs exactly when that character does. */
  lemma ContainsChar(s: string, c: char)
    ensures Contains(s, [c]) <==> c in s
  {
    if c in s {
      var i :| 0 <= i < |s| && s[i] == c;
      assert s[i..i + 1] == [c];
      ContainsAt(s, [c], i);
    }
    if Contains(s, [c]) {
      var i := ContainsWitness(s, [c]);
      assert s[i] == s[i..i + 1][0];
    }
  }

  /** An occurrence in `a + [c] + b` of a pattern without `c` lies inside
      `a` or inside `b`. */
  lemma {:induction false} ContainsAcrossSeparator(a: string, c: char, b: string, pat: string)
    requires c !in pat && pat != []
    requires Contains(a + [c] + b, pat)
    ensures Contains(a, pat) || Contains(b, pat)
  {
    var s := a + [c] + b;
    var i := ContainsWitness(s, pat);
    if i + |pat| <= |a| {
      assert a[i..i + |pat|] == s[i..i + |pat|];
      ContainsAt(a, pat, i);
    } else if i > |a| {
      assert b[i - |a| - 1..i - |a| - 1 + |pat|] == s[i..i + |pat|];
      ContainsAt(b, pat, i - |a| - 1);
    } else {
      SliceMember(s, i, pat, |a|);
      assert false;
    }
  }

  lemma SliceMember(s: string, i: nat, pat: string, k: nat)
    requires i + |pat| <= |s| && s[i..i + |pat|] == pat
    requires i <= k < i + |pat|
    ensures s[k] in pat
  {
    assert pat[k - i] == s[k];
  }

  /** Python `s.split(c)` for a one-character separator: empty pieces are
      kept, so there is always at least one piece. */
  function Split(s: string, c: char): (r: seq<string>)
    ensures |r| >= 1
    ensures forall i :: 0 <= i < |r| ==> c !in r[i]
  {
    if s == [] then [""]
    else
      var rest := Split(s[1..], c);
      if s[0] == c then [""] + rest
      else [[s[0]] + rest[0]] + rest[1..]
  }

  /** There is a second piece exactly when the separator occurs. */
  lemma {:induction false} SplitSeparated(s: string, c: char)
    ensures c in s <==> |Split(s, c)| >= 2
  {
    if s != [] {
      SplitSeparated(s[1..], c);
      assert c in s <==> s[0] == c || c in s[1..];
    }
  }

  /** Without the separator the split is the whole string. */
  lemma {:induction false} SplitNone(s: string, c: char)
    requires c !in s
    ensures Split(s, c) == [s]
  {
    if s != [] {
      SplitNone(s[1..], c);
      assert s == [s[0]] + s[1..];
    }
  }

  /** A split has one piece more than there are separators. */
  lemma {:induction false} SplitCount(s: string, c: char)
    ensures |Split(s, c)| == multiset(s)[c] + 1
  {
    if s != [] {
      SplitCount(s[1..], c);
      assert s == [s[0]] + s[1..];
    }
  }

  /** Python `sep.join(parts)`, JavaScript `parts.join(sep)`. */
  function Join(parts: seq<string>, sep: string): string {
    if |parts| == 0 then ""
    else if |parts| == 1 then parts[0]
    else parts[0] + sep + Join(parts[1..], sep)
  }

  /** Joining the pieces of a split with the same separator gives back the
      original string. */
  lemma {:induction false} JoinSplit(s: string, c: char)
    ensures Join(Split(s, c), [c]) == s
  {
    if s != [] {
      JoinSplit(s[1..], c);
      var rest := Split(s[1..], c);
      if s[0] != c && |rest| > 1 {
        assert Join(rest, [c]) == rest[0] + [c] + Join(rest[1..], [c]);
      }
    }
  }

  lemma {:induction false} SplitPrefixFree(a: string, c: char, t: string)
    requires c !in a
    ensures Split(a + t, c) == [a + Split(t, c)[0]] + Split(t, c)[1..]
  {
    if a != [] {
      assert (a + t)[1..] == a[1..] + t;
      assert (a + t)[0] == a[0] && a == [a[0]] + a[1..];
      assert a[0] != c;
      SplitPrefixFree(a[1..], c, t);
      var S := Split(t, c);
      var rest := Split(a[1..] + t, c);
      assert rest[0] == a[1..] + S[0];
      assert rest[1..] == S[1..];
      assert Split(a + t, c) == [[a[0]] + rest[0]] + rest[1..];
      assert [a[0]] + rest[0] == a + S[0];
    } else {
      assert a + t == t;
      var S := Split(t, c);
      assert S == [S[0]] + S[1..];
      assert a + S[0] == S[0];
    }
  }

  /** A separator after a separator-free prefix ends the first piece. */
  lemma SplitAtFirst(a: string, c: char, t: string)
    requires c !in a
    ensures Split(a + [c] + t, c) == [a] + Split(t, c)
  {
    assert a + [c] + t == a + ([c] + t);
    SplitPrefixFree(a, c, [c] + t);
    assert ([c] + t)[1..] == t;
    assert Split([c] + t, c) == [""] + Split(t, c);
    assert a + "" == a;
  }

  /** Splitting a join whose parts do not contain the separator gives back
      the parts. */
  lemma {:induction false} SplitJoin(parts: seq<string>, c: char)
    requires |parts| >= 1
    requires forall i :: 0 <= i < |parts| ==> c !in parts[i]
    ensures Split(Join(parts, [c]), c) == parts
  {
    if |parts| == 1 {
      SplitPrefixFree(parts[0], c, "");
      assert parts[0] + "" == parts[0];
    } else {
      var tail := Join(parts[1..], [c]);
      SplitJoin(parts[1..], c);
      assert Join(parts, [c]) == parts[0] + ([c] + tail);
      SplitPrefixFree(parts[0], c, [c] + tail);
      assert ([c] + tail)[1..] == tail;
      assert Split([c] + tail, c) == [""] + parts[1..];
      assert parts[0] + "" == parts[0];
    }
  }

  /** An occurrence in a joined string of a pattern without the separator
      lies inside one of the parts. */
  lemma {:induction false} ContainsJoin(parts: seq<string>, c: char, pat: string)
    requires c !in pat && pat != []
    requires Contains(Join(parts, [c]), pat)
    ensures exists i :: 0 <= i < |parts| && Contains(parts[i], pat)
  {
    if |parts| == 0 {
      var i := ContainsWitness("", pat);
    } else if |parts| > 1 {
      ContainsAcrossSeparator(parts[0], c, Join(parts[1..], [c]), pat);
      if Contains(parts[0], pat) {
      } else {
        ContainsJoin(parts[1..], c, pat);
        var i :| 0 <= i < |parts[1..]| && Contains(parts[1..][i], pat);
        assert parts[i + 1] == parts[1..][i];
      }
    }
  }

  /** The parts that are not empty, in order (`[p for p in parts if p]`). */
  function NonEmpty(parts: seq<string>): (r: seq<string>)
    ensures |r| <= |parts|
    ensures forall i :: 0 <= i < |r| ==> r[i] != "" && r[i] in parts
  {
    if parts == [] then []
    else if parts[0] == "" then NonEmpty(parts[1..])
    else [parts[0]] + NonEmpty(parts[1..])
  }

  lemma {:induction false} NonEmptyAppend(a: seq<string>, b: seq<string>)
    ensures NonEmpty(a + b) == NonEmpty(a) + NonEmpty(b)
  {
    if a == [] {
      assert a + b == b;
    } else {
      assert (a + b)[1..] == a[1..] + b;
      NonEmptyAppend(a[1..], b);
    }
  }

  /** Parts that are all non-empty are kept as they are. */
  lemma {:induction false} NonEmptyKeeps(parts: seq<string>)
    requires forall i :: 0 <= i < |parts| ==> parts[i] != ""
    ensures NonEmpty(parts) == parts
  {
    if parts != [] {
      NonEmptyKeeps(parts[1..]);
    }
  }

  /** An empty part is dropped, so the result is shorter. */
  lemma {:induction false} NonEmptyShorter(parts: seq<string>, k: nat)
    requires k < |parts| && parts[k] == ""
    ensures |NonEmpty(parts)| < |parts|
  {
    if k > 0 {
      NonEmptyShorter(parts[1..], k - 1);
    }
  }

  /** Python `s.replace(pat, rep)`: a left-to-right scan replacing every
      non-overlapping occurrence. */
  function ReplaceAll(s: string, pat: string, rep: string): string
    requires pat != []
    decreases |s|
  {
    if |s| < |pat| then s
    else if s[..|pat|] == pat then rep + ReplaceAll(s[|pat|..], pat, rep)
    else [s[0]] + ReplaceAll(s[1..], pat, rep)
  }

  /** A string without the pattern is left as it is. */
  lemma {:induction false} ReplaceAbsent(s: string, pat: string, rep: string)
    requires pat != [] && !Contains(s, pat)
    ensures ReplaceAll(s, pat, rep) == s
    decreases |s|
  {
    if |s| >= |pat| && s[..|pat|] != pat {
      ReplaceAbsent(s[1..], pat, rep);
    }
  }

  /** Replacing one character by another character keeps the length and
      leaves no occurrence of the replaced character. */
  lemma {:induction false} ReplaceCharRemoves(s: string, c: char, d: char)
    requires c != d
    ensures |ReplaceAll(s, [c], [d])| == |s|
    ensures c !in ReplaceAll(s, [c], [d])
    decreases |s|
  {
    if s != [] {
      ReplaceCharRemoves(s[1..], c, d);
      assert s[1..] == s[|[c]|..];
    }
  }

  lemma {:induction false} ReplaceCharKeeps(s: string, c: char, d: char, e: char)
    requires e != c && e != d
    ensures (e in ReplaceAll(s, [c], [d])) <==> (e in s)
    decreases |s|
  {
    if s != [] {
      ReplaceCharKeeps(s[1..], c, d, e);
      assert s[1..] == s[|[c]|..];
      assert s == [s[0]] + s[1..];
    }
  }

  /** ASCII case mapping; characters outside `A`..`Z` are unchanged. */
  function LowerChar(c: char): char {
    if 'A' <= c <= 'Z' then (c as int + 32) as char else c
  }

  function UpperChar(c: char): char {
    if 'a' <= c <= 'z' then (c as int - 32) as char else c
  }

  function Lower(s: string): (r: string)
    ensures |r| == |s|
    ensures forall i :: 0 <= i < |s| ==> r[i] == LowerChar(s[i])
  {
    seq(|s|, i requires 0 <= i < |s| => LowerChar(s[i]))
  }

  function Upper(s: string): (r: string)
    ensures |r| == |s|
    ensures forall i :: 0 <= i < |s| ==> r[i] == UpperChar(s[i])
  {
    seq(|s|, i requires 0 <= i < |s| => UpperChar(s[i]))
  }

  lemma LowerIdempotent(s: string)
    ensures Lower(Lower(s)) == Lower(s)
  {
  }

  lemma LowerConcat(a: string, b: string)
    ensures Lower(a + b) == Lower(a) + Lower(b)
  {
    assert Lower(a + b) == Lower(a) + Lower(b);
  }

  /** The characters Python's `str.isspace()` accepts, and so the ones
      `strip()` and `split()` remove. */
  predicate IsPySpace(c: char) {
    var n := c as int;
    (9 <= n <= 13) || (28 <= n <= 32) || n == 0x85 || n == 0xA0 || n == 0x1680
    || (0x2000 <= n <= 0x200A) || n == 0x2028 || n == 0x2029 || n == 0x202F
    || n == 0x205F || n == 0x3000
  }

  /** The characters JavaScript's `String.prototype.trim()` removes
      (WhiteSpace and LineTerminator). */
  predicate IsJsSpace(c: char) {
    var n := c as int;
    (9 <= n <= 13) || n == 32 || n == 0xA0 || n == 0x1680
    || (0x2000 <= n <= 0x200A) || n == 0x2028 || n == 0x2029 || n == 0x202F
    || n == 0x205F || n == 0x3000 || n == 0xFEFF
  }

  function TrimStart(s: string, isSpace: char -> bool): (r: string)
    ensures |r| <= |s| && r == s[|s| - |r|..]
    ensures r == [] || !isSpace(r[0])
  {
    if s != [] && isSpace(s[0]) then TrimStart(s[1..], isSpace) else s
  }

  function TrimEnd(s: string, isSpace: char -> bool): (r: string)
    ensures |r| <= |s| && r == s[..|r|]
    ensures r == [] || !isSpace(r[|r| - 1])
  {
    if s != [] && isSpace(s[|s| - 1]) then TrimEnd(s[..|s| - 1], isSpace) else s
  }

  /** Python `s.strip()`. */
  function PyStrip(s: string): string {
    TrimEnd(TrimStart(s, IsPySpace), IsPySpace)
  }

  /** JavaScript `s.trim()`. */
  function JsTrim(s: string): string {
    TrimEnd(TrimStart(s, IsJsSpace), IsJsSpace)
  }

  /** Trimming removes only white space from either end, and leaves a text
      that neither starts nor ends with it: the trimmed text occurs in `s`
      where its leading white space ends, and everything before and after
      that occurrence is white space. */
  lemma TrimMeaning(s: string, isSpace: char -> bool)
    ensures var k := |s| - |TrimStart(s, isSpace)|; var t := TrimEnd(TrimStart(s, isSpace), isSpace);
      InfixAt(s, k, t) && AllSpace(s, 0, k, isSpace) && AllSpace(s, k + |t|, |s|, isSpace)
      && Unpadded(t, isSpace)
  {
    var u := TrimStart(s, isSpace);
    var t := TrimEnd(u, isSpace);
    TrimStartRemoved(s, isSpace);
    TrimEndRemoved(u, isSpace);
    TrimParts(s, u, t, isSpace);
  }

  /** `t` occurs in `s` at index `k`. */
  predicate InfixAt(s: string, k: int, t: string) {
    0 <= k && k + |t| <= |s| && t == s[k..k + |t|]
  }

  /** Every character of `s` from `lo` up to `hi` is white space. */
  predicate AllSpace(s: string, lo: int, hi: int, isSpace: char -> bool) {
    0 <= lo <= hi <= |s| && forall i :: lo <= i < hi ==> isSpace(s[i])
  }

  /** `t` neither starts nor ends with white space. */
  predicate Unpadded(t: string, isSpace: char -> bool) {
    t == [] || (!isSpace(t[0]) && !isSpace(t[|t| - 1]))
  }

  /** White space cut from the front of `s`, leaving `u`, and from the back
      of `u`, leaving `t`: `t` is the rest of `s` between the two cuts. */
  lemma TrimParts(s: string, u: string, t: string, isSpace: char -> bool)
    requires |u| <= |s| && u == s[|s| - |u|..] && (u == [] || !isSpace(u[0]))
    requires |t| <= |u| && t == u[..|t|] && (t == [] || !isSpace(t[|t| - 1]))
    requires AllSpace(s, 0, |s| - |u|, isSpace)
    requires AllSpace(u, |t|, |u|, isSpace)
    ensures var k := |s| - |u|;
      InfixAt(s, k, t) && AllSpace(s, 0, k, isSpace) && AllSpace(s, k + |t|, |s|, isSpace)
      && Unpadded(t, isSpace)
  {
    var k := |s| - |u|;
    forall i | k + |t| <= i < |s| ensures isSpace(s[i]) {
      assert s[i] == u[i - k];
    }
  }

  lemma {:induction false} TrimStartRemoved(s: string, isSpace: char -> bool)
    ensures AllSpace(s, 0, |s| - |TrimStart(s, isSpace)|, isSpace)
  {
    if s != [] && isSpace(s[0]) {
      TrimStartRemoved(s[1..], isSpace);
      assert forall i :: 1 <= i < |s| ==> s[1..][i - 1] == s[i];
    }
  }

  lemma {:induction false} TrimEndRemoved(s: string, isSpace: char -> bool)
    ensures AllSpace(s, |TrimEnd(s, isSpace)|, |s|, isSpace)
  {
    if s != [] && isSpace(s[|s| - 1]) {
      TrimEndRemoved(s[..|s| - 1], isSpace);
      assert forall i :: 0 <= i < |s| - 1 ==> s[..|s| - 1][i] == s[i];
    }
  }

  lemma TrimNoSpace(s: string, isSpace: char -> bool)
    requires s == [] || (!isSpace(s[0]) && !isSpace(s[|s| - 1]))
    ensures TrimEnd(TrimStart(s, isSpace), isSpace) == s
  {
  }

  /** Python `s.split()` with no argument: the maximal runs of
      non-whitespace characters. */
  function PyWords(s: string): (r: seq<string>)
    ensures forall i :: 0 <= i < |r| ==> r[i] != "" && NoSpace(r[i])
    decreases |s|
  {
    if s == [] then []
    else if IsPySpace(s[0]) then PyWords(s[1..])
    else
      var w := Word(s);
      [w] + PyWords(s[|w|..])
  }

  predicate NoSpace(w: string) {
    forall j :: 0 <= j < |w| ==> !IsPySpace(w[j])
  }

  /** The longest prefix without whitespace. */
  function Word(s: string): (r: string)
    requires s != [] && !IsPySpace(s[0])
    ensures r != [] && |r| <= |s| && r == s[..|r|]
    ensures NoSpace(r)
    ensures |r| == |s| || IsPySpace(s[|r|])
  {
    if |s| == 1 || IsPySpace(s[1]) then s[..1] else [s[0]] + Word(s[1..])
  }

  /** Python slicing `s[i:j]` with non-negative bounds: both ends are
      clamped to the length, so it never fails. */
  function PySlice(s: string, i: nat, j: nat): (r: string)
    ensures |r| == if Min(j, |s|) <= i then 0 else Min(j, |s|) - i
  {
    var lo := Min(i, |s|);
    var hi := Max(lo, Min(j, |s|));
    s[lo..hi]
  }

  // ---- decimal digits ------------------------------------------------------

  predicate IsDigit(c: char) { '0' <= c <= '9' }

  predicate AllDigits(s: string) {
    forall i :: 0 <= i < |s| ==> IsDigit(s[i])
  }

  function DigitChar(d: nat): (c: char)
    requires d < 10
    ensures IsDigit(c) && c as int - '0' as int == d
  {
    (d + '0' as int) as char
  }

  function DigitsValue(s: string): nat
    requires AllDigits(s)
  {
    if s == [] then 0 else DigitsValue(s[..|s| - 1]) * 10 + (s[|s| - 1] as int - '0' as int)
  }

  /** The decimal representation of a natural number, without leading zeros. */
  function NatToString(n: nat): (r: string)
    ensures r != [] && AllDigits(r)
    ensures DigitsValue(r) == n
    ensures |r| > 1 ==> r[0] != '0'
    decreases n
  {
    if n < 10 then [DigitChar(n)]
    else
      var r := NatToString(n / 10) + [DigitChar(n % 10)];
      assert r[..|r| - 1] == NatToString(n / 10);
      r
  }

  lemma NatToStringShort(n: nat)
    ensures n < 10 <==> |NatToString(n)| == 1
    ensures n < 100 <==> |NatToString(n)| <= 2
    ensures n < 1000 <==> |NatToString(n)| <= 3
    ensures n < 10000 <==> |NatToString(n)| <= 4
  {
  }

  function Zeros(k: nat): (r: string)
    ensures |r| == k && forall i :: 0 <= i < k ==> r[i] == '0'
  {
    seq(k, _ => '0')
  }

  /** Leading zeros do not change the value of a digit string. */
  lemma {:induction false} LeadingZerosValue(k: nat, s: string)
    requires AllDigits(s)
    ensures AllDigits(Zeros(k) + s) && DigitsValue(Zeros(k) + s) == DigitsValue(s)
    decreases |s|
  {
    var t := Zeros(k) + s;
    if s == [] {
      assert t == Zeros(k);
      ZerosValue(k);
    } else {
      assert t[..|t| - 1] == Zeros(k) + s[..|s| - 1];
      LeadingZerosValue(k, s[..|s| - 1]);
    }
  }

  lemma {:induction false} ZerosValue(k: nat)
    ensures DigitsValue(Zeros(k)) == 0
  {
    if k > 0 {
      assert Zeros(k)[..k - 1] == Zeros(k - 1);
      ZerosValue(k - 1);
    }
  }

  /** `s` left-padded with zeros to at least `width` characters. */
  function ZeroPad(s: string, width: nat): (r: string)
    ensures |r| == Max(|s|, width)
  {
    if |s| < width then Zeros(width - |s|) + s else s
  }

  /** Python `f"{n:04d}"`: at least four characters, zero-filled after the
      sign. */
  function Pad4(n: int): string {
    if n >= 0 then ZeroPad(NatToString(n), 4) else "-" + ZeroPad(NatToString(-n), 3)
  }

  /** A run of digits with single underscores between digits, as `int()`
      accepts it. */
  predicate DigitRun(s: string) {
    s != [] && IsDigit(s[0]) && IsDigit(s[|s| - 1])
    && (forall i :: 0 <= i < |s| ==> IsDigit(s[i]) || s[i] == '_')
    && (forall i :: 0 < i < |s| && s[i - 1] == '_' ==> IsDigit(s[i]))
  }

  function RemoveUnderscores(s: string): string {
    if s == [] then [] else (if s[0] == '_' then [] else [s[0]]) + RemoveUnderscores(s[1..])
  }

  lemma {:induction false} RemoveUnderscoresDigits(s: string)
    requires forall i :: 0 <= i < |s| ==> IsDigit(s[i]) || s[i] == '_'
    ensures AllDigits(RemoveUnderscores(s))
  {
    if s != [] {
      RemoveUnderscoresDigits(s[1..]);
    }
  }

  lemma {:induction false} RemoveUnderscoresNone(s: string)
    requires AllDigits(s)
    ensures RemoveUnderscores(s) == s
  {
    if s != [] {
      RemoveUnderscoresNone(s[1..]);
    }
  }

  lemma DigitRunChars(s: string)
    requires DigitRun(s)
    ensures forall i :: 0 <= i < |s| ==> IsDigit(s[i]) || s[i] == '_'
  {
  }

  function RunValue(s: string): Option<nat> {
    if DigitRun(s) then
      DigitRunChars(s);
      RemoveUnderscoresDigits(s);
      Some(DigitsValue(RemoveUnderscores(s)))
    else None
  }

  /** Python `int(s)` on a string: surrounding whitespace, an optional sign
      and a decimal digit run; `None` stands for the ValueError. */
  function PyInt(s: string): Option<int> {
    var t := PyStrip(s);
    if t != [] && t[0] == '-' then Signed(RunValue(t[1..]), -1)
    else if t != [] && t[0] == '+' then Signed(RunValue(t[1..]), 1)
    else Signed(RunValue(t), 1)
  }

  function Signed(v: Option<nat>, sign: int): Option<int> {
    match v
    case Some(n) => Some(sign * n)
    case None => None
  }

  lemma {:induction false} PadDigitsValue(n: nat, w: nat)
    ensures AllDigits(ZeroPad(NatToString(n), w))
    ensures DigitsValue(ZeroPad(NatToString(n), w)) == n
  {
    var s := NatToString(n);
    if |s| < w {
      LeadingZerosValue(w - |s|, s);
    }
  }

  /** Formatting with `{:04d}` and parsing back with `int()` is the
      identity, for negative numbers too. */
  lemma PyIntPad4(n: int)
    ensures PyInt(Pad4(n)) == Some(n)
  {
    if n >= 0 {
      Pad4NonNegative(n);
    } else {
      Pad4Negative(n);
    }
  }

  lemma Pad4NonNegative(n: nat)
    ensures PyInt(Pad4(n)) == Some(n as int)
  {
    PyIntOfPadded(n, 4);
  }

  lemma Pad4Negative(n: int)
    requires n < 0
    ensures PyInt(Pad4(n)) == Some(n)
  {
    var m: nat := -n;
    var q := ZeroPad(NatToString(m), 3);
    var p := Pad4(n);
    assert p == "-" + q;
    assert p[1..] == q;
    PadDigitsValue(m, 3);
    NegativeDigits(p);
  }

  /** `int()` of a string with no surrounding whitespace and no sign is the
      value of its digit run. */
  lemma PyIntUnsigned(p: string)
    requires p != [] && !IsPySpace(p[0]) && !IsPySpace(p[|p| - 1])
    requires p[0] != '-' && p[0] != '+'
    ensures PyInt(p) == Signed(RunValue(p), 1)
  {
    StripUnpadded(p);
  }

  lemma StripUnpadded(p: string)
    requires p != [] && !IsPySpace(p[0]) && !IsPySpace(p[|p| - 1])
    ensures PyStrip(p) == p
  {
    TrimNoSpace(p, IsPySpace);
  }

  lemma DigitsRunValue(p: string)
    requires p != [] && AllDigits(p)
    ensures RunValue(p) == Some(DigitsValue(p))
  {
    RemoveUnderscoresNone(p);
  }

  lemma PyIntOfDigits(p: string)
    requires p != [] && AllDigits(p)
    ensures PyInt(p) == Some(DigitsValue(p))
  {
    assert IsDigit(p[0]) && IsDigit(p[|p| - 1]);
    PyIntUnsigned(p);
    DigitsRunValue(p);
  }

  lemma PyIntOfPadded(n: nat, w: nat)
    ensures PyInt(ZeroPad(NatToString(n), w)) == Some(n)
  {
    PadDigitsValue(n, w);
    PyIntOfDigits(ZeroPad(NatToString(n), w));
  }

  lemma NegativeDigits(p: string)
    requires |p| >= 2 && p[0] == '-' && AllDigits(p[1..])
    ensures PyInt(p) == Some(-(DigitsValue(p[1..]) as int))
  {
    assert IsDigit(p[1..][|p| - 2]);
    StripUnpadded(p);
    PyIntNegative(p);
    DigitsRunValue(p[1..]);
  }

  lemma PyIntNegative(p: string)
    requires p != [] && PyStrip(p) == p && p[0] == '-'
    ensures PyInt(p) == Signed(RunValue(p[1..]), -1)
  {
  }

  /** A string with no surrounding whitespace and no sign is rejected by
      `int()` when some character is neither a digit nor `_`. */
  lemma PyIntRejects(p: string, k: nat)
    requires k < |p| && !IsPySpace(p[0]) && !IsPySpace(p[|p| - 1])
    requires p[0] != '-' && p[0] != '+'
    requires !IsDigit(p[k]) && p[k] != '_'
    ensures PyInt(p).None?
  {
    PyIntUnsigned(p);
    assert !DigitRun(p);
  }

  /** A label that starts with a digit and ends with a capital letter, like
      the site labels `1_UL` and `3_C`, is not an integer. */
  lemma PyIntRejectsLabel(p: string)
    requires |p| >= 2 && IsDigit(p[0]) && 'A' <= p[|p| - 1] <= 'Z'
    ensures PyInt(p).None?
  {
    PyIntRejects(p, |p| - 1);
  }

  /** For 0 <= n <= 9999 the padded form is exactly four digits. */
  lemma Pad4Width(n: int)
    requires 0 <= n <= 9999
    ensures |Pad4(n)| == 4 && AllDigits(Pad4(n))
  {
    NatToStringShort(n);
    PadDigitsValue(n, 4);
  }

  // ---- membership ----------------------------------------------------------

  /** Python's `k in v`: a dict key, a list element or a substring; `None`
      is the TypeError of testing a scalar. */
  function PyContains(v: Value, k: string): (r: Option<bool>)
    ensures r.None? <==> v.Int? || v.Float? || v.Bool? || v.Null?
    ensures v.Dict? ==> r == Some(HasKey(v.entries, k))
  {
    match v
    case Dict(es) => Some(HasKey(es, k))
    case List(items) => Some(Str(k) in items)
    case Str(s) => Some(Contains(s, k))
    case _ => None
  }
}
