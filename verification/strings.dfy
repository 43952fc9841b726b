/**
 * The Python string operations the model relies on: `endswith`, `index`, `rfind`,
 * `split`, `join`, `capitalize`, `lower`, `in` (substring), `replace` and `str(int)`.
 * Case mapping is ASCII only.
 */
module Strings {
  import opened Wrappers

  predicate EndsWith(s: string, suffix: string) {
    |suffix| <= |s| && s[|s| - |suffix|..] == suffix
  }

  /** A string ends with whatever was appended to it. */
  lemma EndsWithAppended(p: string, t: string)
    ensures EndsWith(p + t, t)
  {
    assert (p + t)[|p|..] == t;
  }

  /** A string ends with the last two pieces appended to it. */
  lemma EndsWithAppendedTwo(a: string, b: string, c: string)
    ensures EndsWith(a + b + c, b + c)
  {
    assert (a + b + c)[|a|..] == b + c;
  }

  /** A string that ends with `t` ends with `t`'s last character. */
  lemma EndsWithLast(s: string, t: string)
    requires t != [] && s != []
    ensures EndsWith(s, t) ==> s[|s| - 1] == t[|t| - 1]
  {
    if EndsWith(s, t) {
      assert s[|s| - |t|..][|t| - 1] == s[|s| - 1];
    }
  }

  /** `s.find(c)`: the first position of `c`, if any (`s.index(c)` raises where this is `None`). */
  function IndexOf(s: string, c: char): (r: Option<nat>)
    ensures r.Some? ==> r.value < |s| && s[r.value] == c && c !in s[..r.value]
    ensures r.None? <==> c !in s
  {
    if |s| == 0 then None
    else if s[0] == c then Some(0)
    else match IndexOf(s[1..], c)
      case None => None
      case Some(i) => Some(i + 1)
  }

  /** `s.rfind(c)`: the last position of `c`, if any. */
  function LastIndexOf(s: string, c: char): (r: Option<nat>)
    ensures r.Some? ==> r.value < |s| && s[r.value] == c && c !in s[r.value + 1..]
    ensures r.None? <==> c !in s
  {
    if |s| == 0 then None
    else if s[|s| - 1] == c then Some(|s| - 1)
    else
      var r := LastIndexOf(s[..|s| - 1], c);
      assert s == s[..|s| - 1] + [s[|s| - 1]];
      r
  }

  /** In `prefix + [c] + suffix` with no `c` in `suffix`, the last `c` is the one after `prefix`. */
  lemma {:induction false} LastIndexOfJoined(prefix: string, c: char, suffix: string)
    requires c !in suffix
    ensures LastIndexOf(prefix + [c] + suffix, c) == Some(|prefix|)
    decreases |suffix|
  {
    var s := prefix + [c] + suffix;
    if suffix == [] {
      assert s[|s| - 1] == c;
    } else {
      var n := |suffix| - 1;
      assert s[|s| - 1] == suffix[n];
      assert s[..|s| - 1] == prefix + [c] + suffix[..n];
      assert c !in suffix[..n] by {
        assert forall k :: 0 <= k < n ==> suffix[..n][k] == suffix[k];
      }
      LastIndexOfJoined(prefix, c, suffix[..n]);
    }
  }

  /** `s.split(sep)` for a one-character separator: never empty, and no part holds `sep`. */
  function Split(s: string, sep: char): (parts: seq<string>)
    ensures |parts| >= 1
    ensures forall i :: 0 <= i < |parts| ==> sep !in parts[i]
    decreases |s|
  {
    match IndexOf(s, sep)
    case None => [s]
    case Some(i) => [s[..i]] + Split(s[i + 1..], sep)
  }

  /** `sep.join(parts)`. */
  function Join(parts: seq<string>, sep: string): string {
    if |parts| == 0 then ""
    else if |parts| == 1 then parts[0]
    else parts[0] + sep + Join(parts[1..], sep)
  }

  /** Splitting on a character and joining with that character gives the text back. */
  lemma {:induction false} JoinSplit(s: string, sep: char)
    ensures Join(Split(s, sep), [sep]) == s
    decreases |s|
  {
    match IndexOf(s, sep)
    case None =>
    case Some(i) =>
      var rest := Split(s[i + 1..], sep);
      assert Split(s, sep) == [s[..i]] + rest;
      assert ([s[..i]] + rest)[1..] == rest;
      JoinSplit(s[i + 1..], sep);
      assert s == s[..i] + [sep] + s[i + 1..];
  }

  /** A separator placed right after separator-free text is the first one `find` sees. */
  lemma IndexOfAfter(a: string, c: char, b: string)
    requires c !in a
    ensures IndexOf(a + [c] + b, c) == Some(|a|)
  {
    var s := a + [c] + b;
    assert s[|a|] == c;
    assert s[..|a|] == a;
  }

  /** Joining separator-free parts and splitting again gives the parts back. */
  lemma {:induction false} SplitJoin(parts: seq<string>, sep: char)
    requires |parts| >= 1
    requires forall i :: 0 <= i < |parts| ==> sep !in parts[i]
    ensures Split(Join(parts, [sep]), sep) == parts
  {
    if |parts| == 1 {
      assert IndexOf(parts[0], sep).None?;
    } else {
      var rest := Join(parts[1..], [sep]);
      assert Join(parts, [sep]) == parts[0] + [sep] + rest;
      SplitAfter(parts[0], sep, rest);
      SplitJoin(parts[1..], sep);
      assert parts == [parts[0]] + parts[1..];
    }
  }

  lemma SplitAfter(a: string, sep: char, rest: string)
    requires sep !in a
    ensures Split(a + [sep] + rest, sep) == [a] + Split(rest, sep)
  {
    var s := a + [sep] + rest;
    IndexOfAfter(a, sep, rest);
    assert s[..|a|] == a;
    assert s[|a| + 1..] == rest;
  }

  function Upper(c: char): char {
    if 'a' <= c <= 'z' then (c as int - 'a' as int + 'A' as int) as char else c
  }

  function Lower(c: char): char {
    if 'A' <= c <= 'Z' then (c as int - 'A' as int + 'a' as int) as char else c
  }

  /** `s.lower()`. */
  function LowerStr(s: string): (r: string)
    ensures |r| == |s| && forall i :: 0 <= i < |s| ==> r[i] == Lower(s[i])
  {
    seq(|s|, i requires 0 <= i < |s| => Lower(s[i]))
  }

  /** `s.capitalize()`: first character upper case, the rest lower case. */
  function Capitalize(s: string): (r: string)
    ensures |r| == |s|
    ensures |s| > 0 ==> r[0] == Upper(s[0])
    ensures forall i :: 1 <= i < |s| ==> r[i] == Lower(s[i])
  {
    if s == [] then [] else [Upper(s[0])] + LowerStr(s[1..])
  }

  /** `t in s`: `t` occurs in `s` as a contiguous piece. */
  predicate Contains(s: string, t: string)
    decreases |s|
  {
    t <= s || (|s| > 0 && Contains(s[1..], t))
  }

  /** `s.replace(t, w)`: every non-overlapping occurrence of `t`, left to right, becomes `w`. */
  function ReplaceAll(s: string, t: string, w: string): string
    decreases |s|
  {
    if t == [] then
      if s == [] then w else w + [s[0]] + ReplaceAll(s[1..], t, w)
    else if t <= s then w + ReplaceAll(s[|t|..], t, w)
    else if s == [] then []
    else [s[0]] + ReplaceAll(s[1..], t, w)
  }

  /** How many occurrences `s.replace(t, w)` rewrites (`s.count(t)`, and `|s| + 1` for empty `t`). */
  function Count(s: string, t: string): nat
    decreases |s|
  {
    if t == [] then |s| + 1
    else if t <= s then 1 + Count(s[|t|..], t)
    else if s == [] then 0
    else Count(s[1..], t)
  }

  /** Each rewritten occurrence changes the length by `|w| - |t|`. */
  lemma {:induction false} ReplaceAllLength(s: string, t: string, w: string)
    ensures |ReplaceAll(s, t, w)| == |s| + Count(s, t) * (|w| - |t|)
    decreases |s|
  {
    if t == [] {
      if s != [] {
        ReplaceAllLength(s[1..], t, w);
        ReplaceEmptyStep(s, w);
      }
    } else if t <= s {
      ReplaceAllLength(s[|t|..], t, w);
      ReplaceMatchStep(s, t, w);
    } else if s != [] {
      ReplaceAllLength(s[1..], t, w);
      assert ReplaceAll(s, t, w) == [s[0]] + ReplaceAll(s[1..], t, w);
    }
  }

  /** The empty pattern: `w` goes before the first character, then the rest is rewritten. */
  lemma ReplaceEmptyStep(s: string, w: string)
    requires s != []
    requires |ReplaceAll(s[1..], [], w)| == |s[1..]| + Count(s[1..], []) * |w|
    ensures |ReplaceAll(s, [], w)| == |s| + Count(s, []) * |w|
  {
    var c := Count(s[1..], []);
    assert ReplaceAll(s, [], w) == w + [s[0]] + ReplaceAll(s[1..], [], w);
    assert Count(s, []) == c + 1;
    MulSucc(c, |w|);
  }

  /** A match at the front: `w` replaces it, then the rest is rewritten. */
  lemma ReplaceMatchStep(s: string, t: string, w: string)
    requires t != [] && t <= s
    requires |ReplaceAll(s[|t|..], t, w)| == |s[|t|..]| + Count(s[|t|..], t) * (|w| - |t|)
    ensures |ReplaceAll(s, t, w)| == |s| + Count(s, t) * (|w| - |t|)
  {
    var c := Count(s[|t|..], t);
    assert ReplaceAll(s, t, w) == w + ReplaceAll(s[|t|..], t, w);
    assert Count(s, t) == c + 1;
    MulSucc(c, |w| - |t|);
  }

  lemma MulSucc(c: int, d: int)
    ensures (c + 1) * d == d + c * d
  {
  }

  /** A non-empty pattern is rewritten at least once exactly when it occurs. */
  lemma {:induction false} CountPositiveIffContains(s: string, t: string)
    requires t != []
    ensures Count(s, t) > 0 <==> Contains(s, t)
    decreases |s|
  {
    if t <= s {
    } else if s != [] {
      CountPositiveIffContains(s[1..], t);
    }
  }

  /** Text without the pattern is left unchanged by `replace`. */
  lemma {:induction false} ReplaceAllAbsent(s: string, t: string, w: string)
    requires t != [] && !Contains(s, t)
    ensures ReplaceAll(s, t, w) == s
    decreases |s|
  {
    if s != [] {
      ReplaceAllAbsent(s[1..], t, w);
    }
  }

  /** Replacing a one-character pattern with nothing removes exactly that character. */
  lemma {:induction false} ReplaceCharByNothing(s: string, c: char)
    ensures ReplaceAll(s, [c], []) == WithoutChar(s, c)
    ensures c !in ReplaceAll(s, [c], [])
    decreases |s|
  {
    if s != [] {
      ReplaceCharByNothing(s[1..], c);
    }
  }

  /** The characters of `s` other than `c`, in order. */
  function WithoutChar(s: string, c: char): (r: string)
    ensures |r| <= |s|
    decreases |s|
  {
    if s == [] then [] else (if s[0] == c then [] else [s[0]]) + WithoutChar(s[1..], c)
  }

  function DigitChar(d: nat): char
    requires d < 10
  {
    ('0' as int + d) as char
  }

  predicate IsDigit(c: char) {
    '0' <= c <= '9'
  }

  /** `str(n)` for a natural number: decimal digits, no leading zero. */
  function NatToString(n: nat): (r: string)
    ensures |r| >= 1 && forall i :: 0 <= i < |r| ==> IsDigit(r[i])
  {
    if n < 10 then [DigitChar(n)] else NatToString(n / 10) + [DigitChar(n % 10)]
  }

  /** `str(i)` for any integer. */
  function IntToString(i: int): string {
    if i < 0 then "-" + NatToString(-i) else NatToString(i)
  }

  /** The value of a non-empty string of decimal digits. */
  function DigitsValue(s: string): nat
    requires forall i :: 0 <= i < |s| ==> IsDigit(s[i])
  {
    if s == [] then 0
    else
      assert IsDigit(s[|s| - 1]);
      DigitsValue(s[..|s| - 1]) * 10 + (s[|s| - 1] as int - '0' as int)
  }

  /** Reading back the decimal text of a number gives the number: `str` is injective. */
  lemma {:induction false} NatToStringRoundTrip(n: nat)
    ensures DigitsValue(NatToString(n)) == n
  {
    if n >= 10 {
      NatToStringRoundTrip(n / 10);
      var s := NatToString(n);
      assert s[..|s| - 1] == NatToString(n / 10);
    }
  }

  lemma NatToStringInjective(a: nat, b: nat)
    requires NatToString(a) == NatToString(b)
    ensures a == b
  {
    NatToStringRoundTrip(a);
    NatToStringRoundTrip(b);
  }

  /** Python's `<=` on strings: lexicographic by code point. */
  predicate StrLessEq(a: string, b: string)
    decreases |a|
  {
    a == [] || (b != [] && (a[0] < b[0] || (a[0] == b[0] && StrLessEq(a[1..], b[1..]))))
  }

  lemma {:induction false} StrLessEqTotal(a: string, b: string)
    ensures StrLessEq(a, b) || StrLessEq(b, a)
    decreases |a|
  {
    if a != [] && b != [] && a[0] == b[0] {
      StrLessEqTotal(a[1..], b[1..]);
    }
  }

  lemma {:induction false} StrLessEqAntisymmetric(a: string, b: string)
    requires StrLessEq(a, b) && StrLessEq(b, a)
    ensures a == b
    decreases |a|
  {
    if a != [] {
      StrLessEqAntisymmetric(a[1..], b[1..]);
      assert a == [a[0]] + a[1..] && b == [b[0]] + b[1..];
    }
  }

  lemma {:induction false} StrLessEqTransitive(a: string, b: string, c: string)
    requires StrLessEq(a, b) && StrLessEq(b, c)
    ensures StrLessEq(a, c)
    decreases |a|
  {
    if a != [] && a[0] == b[0] && b[0] == c[0] {
      StrLessEqTransitive(a[1..], b[1..], c[1..]);
    }
  }

  predicate SortedStrings(s: seq<string>) {
    forall i :: 0 <= i < |s| - 1 ==> StrLessEq(s[i], s[i + 1])
  }

  function InsertSorted(x: string, s: seq<string>): (r: seq<string>)
    requires SortedStrings(s)
    ensures SortedStrings(r) && multiset(r) == multiset(s) + multiset{x}
    ensures |r| > 0 && (r[0] == x || (|s| > 0 && r[0] == s[0]))
  {
    if s == [] then [x]
    else if StrLessEq(x, s[0]) then [x] + s
    else
      StrLessEqTotal(x, s[0]);
      var rest := InsertSorted(x, s[1..]);
      assert s == [s[0]] + s[1..];
      [s[0]] + rest
  }

  /** `sorted(s)` for strings. */
  function SortStrings(s: seq<string>): (r: seq<string>)
    ensures SortedStrings(r) && multiset(r) == multiset(s)
  {
    if s == [] then []
    else
      assert s == [s[0]] + s[1..];
      InsertSorted(s[0], SortStrings(s[1..]))
  }

  lemma {:induction false} SortedHeadLeast(s: seq<string>, i: nat)
    requires SortedStrings(s) && 0 < i < |s|
    ensures StrLessEq(s[0], s[i])
  {
    if i > 1 {
      SortedHeadLeast(s, i - 1);
      StrLessEqTransitive(s[0], s[i - 1], s[i]);
    }
  }

  lemma SortedHeadsEqual(a: seq<string>, b: seq<string>)
    requires SortedStrings(a) && SortedStrings(b) && multiset(a) == multiset(b) && a != []
    ensures b != [] && a[0] == b[0]
  {
    assert a[0] in multiset(b);
    var i :| 0 <= i < |b| && b[i] == a[0];
    assert b[0] in multiset(a);
    var j :| 0 <= j < |a| && a[j] == b[0];
    if a[0] != b[0] {
      SortedHeadLeast(b, i);
      SortedHeadLeast(a, j);
      StrLessEqAntisymmetric(a[0], b[0]);
    }
  }

  lemma TailMultiset(a: seq<string>)
    requires a != []
    ensures multiset(a[1..]) == multiset(a) - multiset{a[0]}
  {
    assert a == [a[0]] + a[1..];
  }

  /** Two sorted lists holding the same strings are the same list: sorting forgets the input order. */
  lemma {:induction false} SortedUnique(a: seq<string>, b: seq<string>)
    requires SortedStrings(a) && SortedStrings(b) && multiset(a) == multiset(b)
    ensures a == b
    decreases |a|
  {
    if a != [] {
      SortedHeadsEqual(a, b);
      TailMultiset(a);
      TailMultiset(b);
      SortedUnique(a[1..], b[1..]);
      assert a == [a[0]] + a[1..] && b == [b[0]] + b[1..];
    } else {
      assert |b| == |multiset(b)|;
    }
  }

  /** Python's `str.isspace` for one character. */
  predicate IsSpace(c: char) {
    c in {' ', '\t', '\n', '\r', '\U{000B}', '\U{000C}', '\U{001C}', '\U{001D}', '\U{001E}', '\U{001F}',
          '\U{0085}', '\U{00A0}', '\U{1680}', '\U{2028}', '\U{2029}', '\U{202F}', '\U{205F}', '\U{3000}'}
    || ('\U{2000}' <= c <= '\U{200A}')
  }

  function TrimStart(s: string): (r: string)
    ensures |r| <= |s| && r == s[|s| - |r|..]
    ensures forall k :: 0 <= k < |s| - |r| ==> IsSpace(s[k])
    ensures r != [] ==> !IsSpace(r[0])
  {
    if s != [] && IsSpace(s[0]) then TrimStart(s[1..]) else s
  }

  function TrimEnd(s: string): (r: string)
    ensures |r| <= |s| && r == s[..|r|]
    ensures forall k :: |r| <= k < |s| ==> IsSpace(s[k])
    ensures r != [] ==> !IsSpace(r[|r| - 1])
  {
    if s != [] && IsSpace(s[|s| - 1]) then TrimEnd(s[..|s| - 1]) else s
  }

  /** `s.strip()`: the whitespace at both ends removed. */
  function Strip(s: string): (r: string)
    ensures r == [] || (!IsSpace(r[0]) && !IsSpace(r[|r| - 1]))
  {
    TrimEnd(TrimStart(s))
  }

  /** Stripping twice is stripping once. */
  lemma StripIdempotent(s: string)
    ensures Strip(Strip(s)) == Strip(s)
  {
  }

  /**
   * `html_f`: the text in a span carrying its colour and, when `size` is not empty,
   * its size, in bold when `bold`. The helper itself is not part of this model: the
   * markup here is a placeholder, and what matters is that the result is never empty.
   */
  function HtmlF(text: string, color: string, size: string, bold: bool): (r: string)
    ensures |r| > |text|
  {
    var span := "<span style='color:" + color + (if size == "" then "" else "; font-size:" + size) + ";'>"
      + text + "</span>";
    if bold then "<b>" + span + "</b>" else span
  }
}
