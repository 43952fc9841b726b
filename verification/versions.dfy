/**
 * Release versions as `packaging.version` compares them: dotted natural numbers,
 * compared component by component with missing trailing components read as zero
 * (so "0.1" and "0.1.0" are equal).
 */
module Versions {
  import opened Wrappers
  import opened Strings

  type Release = seq<nat>

  predicate AllDigits(s: string) {
    |s| > 0 && forall i :: 0 <= i < |s| ==> IsDigit(s[i])
  }

  function ParseParts(parts: seq<string>): (r: Option<Release>)
    ensures r.Some? ==> |r.value| == |parts|
  {
    if parts == [] then Some([])
    else if !AllDigits(parts[0]) then None
    else match ParseParts(parts[1..])
      case None => None
      case Some(rest) => Some([DigitsValue(parts[0])] + rest)
  }

  /**
   * `version.parse(s)` for plain releases, which may start with the `v` that PEP 440
   * allows; `None` stands for `InvalidVersion`.
   */
  function Parse(s: string): (r: Option<Release>)
    ensures r.Some? ==> |r.value| >= 1
  {
    if |s| > 0 && (s[0] == 'v' || s[0] == 'V') then ParseParts(Split(s[1..], '.'))
    else ParseParts(Split(s, '.'))
  }

  function FormatParts(v: Release): (parts: seq<string>)
    ensures |parts| == |v|
    ensures forall i :: 0 <= i < |v| ==> parts[i] == NatToString(v[i])
  {
    seq(|v|, i requires 0 <= i < |v| => NatToString(v[i]))
  }

  /** The canonical text of a release, e.g. [0, 1, 6] is "0.1.6". */
  function Format(v: Release): string {
    Join(FormatParts(v), ".")
  }

  lemma {:induction false} ParsePartsOfFormatted(v: Release)
    ensures ParseParts(FormatParts(v)) == Some(v)
  {
    if v != [] {
      var parts := FormatParts(v);
      NatToStringRoundTrip(v[0]);
      assert parts[1..] == FormatParts(v[1..]);
      ParsePartsOfFormatted(v[1..]);
      assert v == [v[0]] + v[1..];
    }
  }

  /** Parsing the canonical text of a release gives the release back. */
  lemma ParseFormat(v: Release)
    requires |v| >= 1
    ensures Parse(Format(v)) == Some(v)
  {
    var parts := FormatParts(v);
    forall i | 0 <= i < |parts| ensures '.' !in parts[i] {
      assert forall k :: 0 <= k < |parts[i]| ==> parts[i][k] != '.';
    }
    SplitJoin(parts, '.');
    ParsePartsOfFormatted(v);
    assert |parts| == 1 || Format(v) == parts[0] + "." + Join(parts[1..], ".");
    assert Format(v)[0] == parts[0][0] && IsDigit(parts[0][0]);
  }

  function Head(v: Release): nat {
    if v == [] then 0 else v[0]
  }

  function Tail(v: Release): Release {
    if v == [] then [] else v[1..]
  }

  /** `a <= b` on versions. */
  predicate LessEq(a: Release, b: Release)
    decreases |a| + |b|
  {
    if a == [] && b == [] then true
    else if Head(a) != Head(b) then Head(a) < Head(b)
    else LessEq(Tail(a), Tail(b))
  }

  /** `a > b` on versions. */
  predicate Greater(a: Release, b: Release) {
    !LessEq(a, b)
  }

  /** Any two releases are ordered one way or the other. */
  lemma {:induction false} LessEqTotal(a: Release, b: Release)
    ensures LessEq(a, b) || LessEq(b, a)
    decreases |a| + |b|
  {
    if !(a == [] && b == []) && Head(a) == Head(b) {
      LessEqTotal(Tail(a), Tail(b));
    }
  }

  lemma {:induction false} LessEqTransitive(a: Release, b: Release, c: Release)
    requires LessEq(a, b) && LessEq(b, c)
    ensures LessEq(a, c)
    decreases |a| + |b| + |c|
  {
    if a == [] && b == [] && c == [] {
    } else if Head(a) == Head(b) && Head(b) == Head(c) {
      if !(a == [] && c == []) {
        LessEqTransitive(Tail(a), Tail(b), Tail(c));
      }
    }
  }

  /** `>` is the strict order: it excludes `<=`, and one of the two always holds. */
  lemma GreaterIsStrict(a: Release, b: Release)
    ensures Greater(a, b) ==> LessEq(b, a)
    ensures Greater(a, b) ==> !Greater(b, a)
  {
    LessEqTotal(a, b);
  }
}
