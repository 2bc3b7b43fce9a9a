/**
 * The few Python `str` operations the core relies on, over Dafny's `string`.
 * `strip` uses Python's own whitespace set; `lower`, `title` and `isdigit`
 * are modelled over ASCII.
 */
module Text {

  /** Python's `str.isspace()` for one character. */
  predicate IsSpace(c: char) {
    || ('\t' <= c <= '\r')
    || ('\U{1C}' <= c <= '\U{1F}')
    || c == ' ' || c == '\U{85}' || c == '\U{A0}' || c == '\U{1680}'
    || ('\U{2000}' <= c <= '\U{200A}')
    || c == '\U{2028}' || c == '\U{2029}' || c == '\U{202F}' || c == '\U{205F}' || c == '\U{3000}'
  }

  /** Every character is whitespace (so `s.strip()` is empty); true of "". */
  predicate IsBlank(s: string) {
    forall i :: 0 <= i < |s| ==> IsSpace(s[i])
  }

  predicate IsDigit(c: char) { '0' <= c <= '9' }

  predicate IsUpper(c: char) { 'A' <= c <= 'Z' }

  predicate IsLower(c: char) { 'a' <= c <= 'z' }

  predicate IsLetter(c: char) { IsUpper(c) || IsLower(c) }

  /** Python's `s.isdigit()` over ASCII: non-empty and all digits. */
  predicate IsDigits(s: string) {
    |s| > 0 && forall i :: 0 <= i < |s| ==> IsDigit(s[i])
  }

  function LowerChar(c: char): char {
    if IsUpper(c) then (c as int + 32) as char else c
  }

  function UpperChar(c: char): char {
    if IsLower(c) then (c as int - 32) as char else c
  }

  /** `s.lower()` over ASCII. */
  function Lower(s: string): (r: string)
    ensures |r| == |s|
    ensures forall i :: 0 <= i < |s| ==> r[i] == LowerChar(s[i])
  {
    seq(|s|, i requires 0 <= i < |s| => LowerChar(s[i]))
  }

  /** `s.lstrip()`: the longest suffix of `s` that does not start with whitespace. */
  function LStrip(s: string): (r: string)
    ensures |r| <= |s| && r == s[|s| - |r|..]
    ensures r == [] || !IsSpace(r[0])
    ensures IsBlank(s[..|s| - |r|])
  {
    if |s| > 0 && IsSpace(s[0]) then
      var r := LStrip(s[1..]);
      assert s[1..][..|s[1..]| - |r|] == s[1..|s| - |r|];
      r
    else s
  }

  /** `s.rstrip()`: the longest prefix of `s` that does not end with whitespace. */
  function RStrip(s: string): (r: string)
    ensures |r| <= |s| && r == s[..|r|]
    ensures r == [] || !IsSpace(r[|r| - 1])
    ensures IsBlank(s[|r|..])
  {
    if |s| > 0 && IsSpace(s[|s| - 1]) then
      var r := RStrip(s[..|s| - 1]);
      assert s[..|s| - 1][|r|..] == s[|r|..|s| - 1];
      assert forall i :: |r| <= i < |s| ==> IsSpace(s[i]) by {
        forall i | |r| <= i < |s| ensures IsSpace(s[i]) {
          if i < |s| - 1 { assert s[i] == s[|r|..|s| - 1][i - |r|]; }
        }
      }
      r
    else s
  }

  /** `s.strip()`. */
  function Strip(s: string): (r: string)
    ensures r == [] || (!IsSpace(r[0]) && !IsSpace(r[|r| - 1]))
    ensures forall c :: c in r ==> c in s
  {
    RStrip(LStrip(s))
  }

  /** Leading whitespace is dropped by `lstrip`. */
  lemma {:induction false} LStripBlankPrefix(a: string, v: string)
    requires IsBlank(a)
    ensures LStrip(a + v) == LStrip(v)
  {
    if a != [] {
      assert (a + v)[0] == a[0] && IsSpace(a[0]);
      assert (a + v)[1..] == a[1..] + v;
      LStripBlankPrefix(a[1..], v);
    } else {
      assert a + v == v;
    }
  }

  /** Trailing whitespace is dropped by `rstrip`. */
  lemma {:induction false} RStripBlankSuffix(v: string, b: string)
    requires IsBlank(b)
    ensures RStrip(v + b) == RStrip(v)
  {
    if b != [] {
      assert (v + b)[|v + b| - 1] == b[|b| - 1] && IsSpace(b[|b| - 1]);
      assert (v + b)[..|v + b| - 1] == v + b[..|b| - 1];
      RStripBlankSuffix(v, b[..|b| - 1]);
    } else {
      assert v + b == v;
    }
  }

  /** Whitespace appended after `v` survives `lstrip` unless `v` itself is all whitespace. */
  lemma {:induction false} LStripAppend(v: string, b: string)
    requires IsBlank(b)
    ensures LStrip(v + b) == if LStrip(v) == [] then [] else LStrip(v) + b
  {
    if v == [] {
      assert b + [] == b;
      LStripBlankPrefix(b, []);
    } else if IsSpace(v[0]) {
      assert (v + b)[1..] == v[1..] + b;
      LStripAppend(v[1..], b);
    }
  }

  /** Surrounding whitespace never changes what `strip` keeps. */
  lemma StripIgnoresSurroundingSpace(a: string, v: string, b: string)
    requires IsBlank(a) && IsBlank(b)
    ensures Strip(a + v + b) == Strip(v)
  {
    assert a + v + b == a + (v + b);
    LStripBlankPrefix(a, v + b);
    LStripAppend(v, b);
    if LStrip(v) != [] {
      RStripBlankSuffix(LStrip(v), b);
    }
  }

  lemma StripIgnoresTrailingSpace(v: string, b: string)
    requires IsBlank(b)
    ensures Strip(v + b) == Strip(v)
  {
    LStripAppend(v, b);
    if LStrip(v) != [] {
      RStripBlankSuffix(LStrip(v), b);
    }
  }

  /** A string that neither starts nor ends with whitespace is its own `strip()`. */
  lemma StripOfUnpadded(v: string)
    requires v != [] && !IsSpace(v[0]) && !IsSpace(v[|v| - 1])
    ensures Strip(v) == v
  {
  }

  /** Index of the first `c` in `s` at or after `from`, or `|s|` when there is none. */
  function IndexFrom(s: string, c: char, from: nat): (r: nat)
    requires from <= |s|
    ensures from <= r <= |s|
    ensures forall k :: from <= k < r ==> s[k] != c
    ensures r < |s| ==> s[r] == c
    decreases |s| - from
  {
    if from == |s| || s[from] == c then from else IndexFrom(s, c, from + 1)
  }

  /** Index of the first `c` in `s`, or `|s|` when there is none. */
  function FirstIndex(s: string, c: char): (r: nat)
    ensures r <= |s|
    ensures c !in s[..r]
    ensures r < |s| ==> s[r] == c
  {
    var r := IndexFrom(s, c, 0);
    assert forall k :: 0 <= k < r ==> s[..r][k] == s[k];
    r
  }

  /** `FirstIndex` finds the stop character right after a prefix free of it. */
  lemma FirstIndexAfterField(f: string, c: char, rest: string)
    requires c !in f
    ensures FirstIndex(f + [c] + rest, c) == |f|
  {
    assert (f + [c] + rest)[|f|] == c;
  }

  /** `s.split(c)[0]`: everything before the first `c`. */
  function BeforeFirst(s: string, c: char): (r: string)
    ensures r == s[..FirstIndex(s, c)]
  {
    s[..FirstIndex(s, c)]
  }

  /** `s.startswith(p)`. */
  predicate HasPrefix(s: string, p: string) {
    |p| <= |s| && s[..|p|] == p
  }

  /** `s.endswith(p)`. */
  predicate HasSuffix(s: string, p: string) {
    |p| <= |s| && s[|s| - |p|..] == p
  }

  /** Python's `t in s` for strings: `t` occurs in `s` at some position. */
  predicate Contains(s: string, t: string)
    decreases |s|
  {
    HasPrefix(s, t) || (|s| > 0 && Contains(s[1..], t))
  }

  /** `t` occurs in `s` starting at index `i`. */
  predicate OccursAt(s: string, t: string, i: int) {
    0 <= i && i + |t| <= |s| && s[i..i + |t|] == t
  }

  /** `t in s` holds exactly when `t` occurs in `s` at some index. */
  lemma {:induction false} ContainsSpec(s: string, t: string)
    ensures Contains(s, t) <==> exists i :: OccursAt(s, t, i)
    decreases |s|
  {
    if HasPrefix(s, t) {
      assert OccursAt(s, t, 0);
    } else if |s| > 0 {
      ContainsSpec(s[1..], t);
      if Contains(s[1..], t) {
        var j :| OccursAt(s[1..], t, j);
        assert s[1..][j..j + |t|] == s[j + 1..j + 1 + |t|];
        assert OccursAt(s, t, j + 1);
      }
      if i :| OccursAt(s, t, i) && i > 0 {
        assert s[1..][i - 1..i - 1 + |t|] == s[i..i + |t|];
        assert OccursAt(s[1..], t, i - 1);
      }
    }
  }
}
