/**
 * The few Python `str` operations the engines rely on: `isspace`, `strip`,
 * `startswith`/`endswith`, `lower`/`upper`.  Strings are `seq<char>`.
 */
module Text {

  /**
   * Python 3's `str.isspace` for one character: tab to carriage return, the
   * four information separators, space, next-line, no-break space and the
   * Unicode space separators.
   */
  predicate IsSpace(c: char)
  {
    var n := c as int;
    || n == 0x20 || 0x09 <= n <= 0x0D || 0x1C <= n <= 0x1F || n == 0x85 || n == 0xA0
    || n == 0x1680 || 0x2000 <= n <= 0x200A || n == 0x2028 || n == 0x2029 || n == 0x202F
    || n == 0x205F || n == 0x3000
  }

  /** Every character of `s` satisfies `sp`. */
  predicate AllOf(sp: char -> bool, s: string)
  {
    forall i :: 0 <= i < |s| ==> sp(s[i])
  }

  /** Neither the first nor the last character satisfies `sp`. */
  predicate TrimmedOf(sp: char -> bool, s: string)
  {
    s == [] || (!sp(s[0]) && !sp(s[|s| - 1]))
  }

  predicate AllSpace(s: string)
  {
    AllOf(IsSpace, s)
  }

  /** Neither the first nor the last character is whitespace. */
  predicate IsStripped(s: string)
  {
    TrimmedOf(IsSpace, s)
  }

  /** `r` is a contiguous slice of `s`. */
  ghost predicate IsInfix(r: string, s: string)
  {
    exists i, j :: 0 <= i <= j <= |s| && s[i..j] == r
  }

  lemma InfixTransitive(a: string, b: string, c: string)
    requires IsInfix(a, b) && IsInfix(b, c)
    ensures IsInfix(a, c)
  {
    var i, j :| 0 <= i <= j <= |b| && b[i..j] == a;
    var k, l :| 0 <= k <= l <= |c| && c[k..l] == b;
    forall m | 0 <= m < j - i ensures c[k + i..k + j][m] == a[m] {
      assert a[m] == b[i + m] == c[k + i + m];
    }
    assert 0 <= k + i <= k + j <= |c| && c[k + i..k + j] == a;
  }

  lemma InfixSelf(s: string)
    ensures IsInfix(s, s)
  {
    assert s[0..|s|] == s;
  }

  /** Every slice `s[i..j]` is an infix of `s`. */
  lemma InfixSlice(s: string, i: nat, j: nat)
    requires i <= j <= |s|
    ensures IsInfix(s[i..j], s)
  {
  }

  /** How many characters satisfying `sp` the string starts with. */
  function LeadingCount(sp: char -> bool, s: string): (n: nat)
    ensures n <= |s|
    ensures forall i :: 0 <= i < n ==> sp(s[i])
    ensures n < |s| ==> !sp(s[n])
  {
    if s != [] && sp(s[0]) then 1 + LeadingCount(sp, s[1..]) else 0
  }

  /** How many characters satisfying `sp` the string ends with. */
  function TrailingCount(sp: char -> bool, s: string): (n: nat)
    ensures n <= |s|
    ensures forall i :: |s| - n <= i < |s| ==> sp(s[i])
    ensures n < |s| ==> !sp(s[|s| - 1 - n])
  {
    if s != [] && sp(s[|s| - 1]) then 1 + TrailingCount(sp, s[..|s| - 1]) else 0
  }

  /** `s` without the characters satisfying `sp` at either end. */
  function StripOf(sp: char -> bool, s: string): (r: string)
    ensures TrimmedOf(sp, r)
    ensures IsInfix(r, s) && |r| <= |s|
    ensures r == [] <==> AllOf(sp, s)
  {
    var i := LeadingCount(sp, s);
    if i == |s| then
      assert s[0..0] == [];
      []
    else
      var j := |s| - TrailingCount(sp, s);
      TrailingStops(sp, s, i);
      SliceTrimmed(sp, s, i, j);
      s[i..j]
  }

  /** A slice that starts and ends with characters outside `sp` is trimmed and non-empty. */
  lemma SliceTrimmed(sp: char -> bool, s: string, i: nat, j: nat)
    requires i < j <= |s| && !sp(s[i]) && !sp(s[j - 1])
    ensures TrimmedOf(sp, s[i..j]) && s[i..j] != [] && !AllOf(sp, s)
  {
    var r := s[i..j];
    assert r[0] == s[i];
    assert r[|r| - 1] == s[j - 1];
  }

  /** The trailing run ends after any character that does not satisfy `sp`. */
  lemma TrailingStops(sp: char -> bool, s: string, k: nat)
    requires k < |s| && !sp(s[k])
    ensures k < |s| - TrailingCount(sp, s)
  {
  }

  /** Stripping leaves a string that is already trimmed unchanged. */
  lemma StripOfTrimmed(sp: char -> bool, s: string)
    requires TrimmedOf(sp, s)
    ensures StripOf(sp, s) == s
  {
    if s != [] {
      assert LeadingCount(sp, s) == 0;
      assert TrailingCount(sp, s) == 0;
      assert s[0..|s|] == s;
    }
  }

  /**
   * Python's `s.strip()`: the result is a slice of `s` without leading or
   * trailing whitespace, and only whitespace is cut off either end; it is
   * empty exactly when `s` is all whitespace.
   */
  function Strip(s: string): (r: string)
    ensures IsStripped(r)
    ensures IsInfix(r, s) && |r| <= |s|
    ensures r == [] <==> AllSpace(s)
  {
    StripOf(IsSpace, s)
  }

  /** `strip` cuts nothing but whitespace, and only off the two ends. */
  lemma StripCutsOnlyEnds(s: string)
    ensures exists i, j :: 0 <= i <= j <= |s| && Strip(s) == s[i..j] && AllSpace(s[..i]) && AllSpace(s[j..])
  {
    var i := LeadingCount(IsSpace, s);
    if i == |s| {
      assert Strip(s) == [] == s[|s|..|s|];
      assert AllSpace(s[..|s|]) && AllSpace(s[|s|..]);
    } else {
      var j := |s| - TrailingCount(IsSpace, s);
      TrailingStops(IsSpace, s, i);
      assert Strip(s) == s[i..j];
      assert AllSpace(s[..i]) && AllSpace(s[j..]);
    }
  }

  /** Stripping an already stripped string changes nothing. */
  lemma StripStripped(s: string)
    requires IsStripped(s)
    ensures Strip(s) == s
  {
    StripOfTrimmed(IsSpace, s);
  }

  lemma StripIdempotent(s: string)
    ensures Strip(Strip(s)) == Strip(s)
  {
    StripStripped(Strip(s));
  }

  /** Python's `s.startswith(p)`. */
  predicate StartsWith(s: string, p: string)
  {
    |p| <= |s| && s[..|p|] == p
  }

  /** Python's `s.endswith(p)`. */
  predicate EndsWith(s: string, p: string)
  {
    |p| <= |s| && s[|s| - |p|..] == p
  }

  /**
   * A character-wise case mapping applied to a whole string (Python's
   * `lower`/`upper` where every character maps to exactly one character).
   */
  function MapChars(f: char -> char, s: string): (r: string)
    ensures |r| == |s|
    ensures forall i :: 0 <= i < |s| ==> r[i] == f(s[i])
  {
    seq(|s|, i requires 0 <= i < |s| => f(s[i]))
  }

  /** Python's `upper` on ASCII letters; every other character is left alone. */
  function AsciiUpper(c: char): (u: char)
  {
    if 'a' <= c <= 'z' then (c as int - 32) as char else c
  }
}
