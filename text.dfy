/** The operations of Python's `str` that the intake code applies to model
    replies, error messages and identifiers: `in`, `startswith`, `lower`,
    `strip`, `replace(old, "")` and decimal formatting of an integer. */
module Text {

  /** `s.startswith(p)` */
  predicate StartsWith(s: string, p: string) {
    |p| <= |s| && s[..|p|] == p
  }

  /** `p` occurs in `s` at index `i`. */
  predicate OccursAt(s: string, p: string, i: nat) {
    i + |p| <= |s| && s[i..i + |p|] == p
  }

  /** `p in s`, scanning `s` from the left. */
  predicate Contains(s: string, p: string)
    decreases |s|
  {
    StartsWith(s, p) || (|s| > 0 && Contains(s[1..], p))
  }

  /** The scan finds `p` exactly when `p` occurs somewhere in `s`. */
  lemma {:induction false} ContainsIffOccurs(s: string, p: string)
    ensures Contains(s, p) <==> exists i: nat :: OccursAt(s, p, i)
    decreases |s|
  {
    if StartsWith(s, p) {
      assert OccursAt(s, p, 0);
    } else if |s| == 0 {
      assert forall i: nat :: !OccursAt(s, p, i);
    } else {
      ContainsIffOccurs(s[1..], p);
      if Contains(s[1..], p) {
        var i: nat :| OccursAt(s[1..], p, i);
        assert s[i + 1..i + 1 + |p|] == s[1..][i..i + |p|];
        assert OccursAt(s, p, i + 1);
      }
      forall i: nat | OccursAt(s, p, i) ensures i >= 1 && OccursAt(s[1..], p, i - 1) {
        assert s[..|p|] == s[0..|p|];
        assert i >= 1;
        assert s[1..][i - 1..i - 1 + |p|] == s[i..i + |p|];
      }
    }
  }

  /** Whatever surrounds `p`, it is found. */
  lemma ContainsInfix(a: string, p: string, b: string)
    ensures Contains(a + p + b, p)
  {
    var s := a + p + b;
    assert s[|a|..|a| + |p|] == p;
    assert OccursAt(s, p, |a|);
    ContainsIffOccurs(s, p);
  }

  /** A string without the character `c` contains no pattern holding `c`. */
  lemma NoCharNoContains(s: string, p: string, c: char)
    requires c in p && c !in s
    ensures !Contains(s, p)
  {
    var k :| 0 <= k < |p| && p[k] == c;
    forall i: nat ensures !OccursAt(s, p, i) {
      if i + |p| <= |s| {
        assert s[i..i + |p|][k] == s[i + k] != c;
      }
    }
    ContainsIffOccurs(s, p);
  }

  /** ASCII case folding of one character. */
  function LowerChar(c: char): char {
    if 'A' <= c <= 'Z' then ((c as int) + 32) as char else c
  }

  /** `s.lower()`, folding the ASCII letters. */
  function Lower(s: string): string {
    seq(|s|, i requires 0 <= i < |s| => LowerChar(s[i]))
  }

  /** `c.isspace()`: the characters Python's `str.strip()` removes by default
      (ASCII whitespace, the information separators 0x1C-0x1F and the Unicode
      space separators). */
  predicate IsSpace(c: char) {
    var n := c as int;
    (9 <= n <= 13) || (28 <= n <= 32) || n == 0x85 || n == 0xA0 || n == 0x1680
    || (0x2000 <= n <= 0x200A) || n == 0x2028 || n == 0x2029 || n == 0x202F
    || n == 0x205F || n == 0x3000
  }

  /** `s.lstrip()`: the suffix left after dropping leading whitespace. */
  function StripLeading(s: string): (r: string)
    ensures |r| <= |s|
    ensures forall k :: 0 <= k < |s| - |r| ==> IsSpace(s[k])
    ensures r == [] || !IsSpace(r[0])
    decreases |s|
  {
    if |s| > 0 && IsSpace(s[0]) then StripLeading(s[1..]) else s
  }

  /** What `lstrip()` keeps is a suffix of its input. */
  lemma {:induction false} StripLeadingIsSuffix(s: string)
    ensures StripLeading(s) == s[|s| - |StripLeading(s)|..]
    decreases |s|
  {
    if |s| > 0 && IsSpace(s[0]) {
      StripLeadingIsSuffix(s[1..]);
      assert s[1..][|s| - 1 - |StripLeading(s)|..] == s[|s| - |StripLeading(s)|..];
    }
  }

  /** `s.rstrip()`: the prefix left after dropping trailing whitespace. */
  function StripTrailing(s: string): (r: string)
    ensures |r| <= |s|
    ensures forall k :: |r| <= k < |s| ==> IsSpace(s[k])
    ensures r == [] || !IsSpace(r[|r| - 1])
    decreases |s|
  {
    if |s| > 0 && IsSpace(s[|s| - 1]) then StripTrailing(s[..|s| - 1]) else s
  }

  /** What `rstrip()` keeps is a prefix of its input. */
  lemma {:induction false} StripTrailingIsPrefix(s: string)
    ensures StripTrailing(s) == s[..|StripTrailing(s)|]
    decreases |s|
  {
    if |s| > 0 && IsSpace(s[|s| - 1]) {
      StripTrailingIsPrefix(s[..|s| - 1]);
      assert s[..|s| - 1][..|StripTrailing(s)|] == s[..|StripTrailing(s)|];
    }
  }

  /** `s.strip()` */
  function Strip(s: string): string {
    StripTrailing(StripLeading(s))
  }

  /** `strip()` yields the empty string exactly for all-whitespace input, and
      otherwise a string that neither starts nor ends with whitespace. */
  lemma StripEmptyIffBlank(s: string)
    ensures Strip(s) == [] <==> forall k :: 0 <= k < |s| ==> IsSpace(s[k])
    ensures Strip(s) == [] || (!IsSpace(Strip(s)[0]) && !IsSpace(Strip(s)[|Strip(s)| - 1]))
  {
    var l := StripLeading(s);
    var r := Strip(s);
    StripLeadingIsSuffix(s);
    StripTrailingIsPrefix(l);
    if r != [] {
      assert r[0] == l[0];
    }
  }

  /** A string that neither starts nor ends with whitespace is its own
      `strip()`. */
  lemma StripKeepsTrimmed(s: string)
    requires s == [] || (!IsSpace(s[0]) && !IsSpace(s[|s| - 1]))
    ensures Strip(s) == s
  {
  }

  /** `s.replace(pat, "")`: every leftmost non-overlapping occurrence of `pat`
      is removed. */
  function RemoveAll(s: string, pat: string): (r: string)
    requires |pat| > 0
    ensures |r| <= |s|
    ensures !Contains(s, pat) ==> r == s
    decreases |s|
  {
    if |s| < |pat| then s
    else if s[..|pat|] == pat then RemoveAll(s[|pat|..], pat)
    else [s[0]] + RemoveAll(s[1..], pat)
  }

  /** A first character that cannot start a match passes through. */
  lemma RemoveAllPlainHead(c: char, u: string, pat: string)
    requires |pat| > 0 && c != pat[0]
    ensures RemoveAll([c] + u, pat) == [c] + RemoveAll(u, pat)
  {
    var s := [c] + u;
    assert s[1..] == u;
    if |s| >= |pat| {
      assert s[..|pat|][0] == c;
    }
  }

  /** A prefix that cannot start a match passes through unchanged. */
  lemma {:induction false} RemoveAllSkipsPlainPrefix(b: string, t: string, pat: string)
    requires |pat| > 0
    requires forall k :: 0 <= k < |b| ==> b[k] != pat[0]
    ensures RemoveAll(b + t, pat) == b + RemoveAll(t, pat)
    decreases |b|
  {
    if b == [] {
      assert b + t == t;
    } else {
      var head, rest := b[0], b[1..];
      RemoveAllSkipsPlainPrefix(rest, t, pat);
      RemoveAllPlainStep(head, rest, t, pat);
      assert [head] + rest == b;
    }
  }

  /** One step of `RemoveAllSkipsPlainPrefix`: a plain character in front of
      a prefix that already passes through. */
  lemma RemoveAllPlainStep(head: char, rest: string, t: string, pat: string)
    requires |pat| > 0 && head != pat[0]
    requires RemoveAll(rest + t, pat) == rest + RemoveAll(t, pat)
    ensures RemoveAll([head] + rest + t, pat) == [head] + rest + RemoveAll(t, pat)
  {
    RemoveAllPlainHead(head, rest + t, pat);
    assert [head] + rest + t == [head] + (rest + t);
  }

  const Fence: string := "```"

  /** A character other than a backtick survives as the first character. */
  lemma FenceRemovalKeepsFirst(s: string)
    requires |s| > 0 && s[0] != '`'
    ensures |RemoveAll(s, Fence)| > 0 && RemoveAll(s, Fence)[0] == s[0]
  {
    if |s| >= |Fence| {
      assert s[..3][0] == s[0];
    }
  }

  /** ... and so does a second character other than a backtick. */
  lemma FenceRemovalKeepsSecond(s: string)
    requires |s| >= 2 && s[1] != '`'
    ensures |RemoveAll(s, Fence)| >= 2 && RemoveAll(s, Fence)[1] == s[1]
  {
    if |s| >= |Fence| {
      assert s[..3][1] == s[1];
      FenceRemovalKeepsFirst(s[1..]);
    }
  }

  /** Removing every "```" leaves none: unlike removal of an arbitrary
      pattern, the pieces left between removed fences cannot join into a new
      fence, because a piece followed by a fence never ends in a backtick. */
  lemma {:induction false} NoFenceAfterRemoval(s: string)
    ensures !Contains(RemoveAll(s, Fence), Fence)
    decreases |s|
  {
    var r := RemoveAll(s, Fence);
    if |s| < 3 {
      ContainsIffOccurs(s, Fence);
    } else if s[..3] == Fence {
      NoFenceAfterRemoval(s[3..]);
    } else {
      var rest := RemoveAll(s[1..], Fence);
      NoFenceAfterRemoval(s[1..]);
      assert r == [s[0]] + rest && r[1..] == rest;
      assert s[..3] == [s[0], s[1], s[2]];
      if |r| >= 3 {
        if s[0] != '`' {
          assert r[..3][0] != '`';
        } else if s[1] != '`' {
          FenceRemovalKeepsFirst(s[1..]);
          assert r[..3][1] != '`';
        } else {
          FenceRemovalKeepsSecond(s[1..]);
          assert r[..3][2] != '`';
        }
      }
    }
  }

  predicate IsDigit(c: char) {
    48 <= c as int <= 57
  }

  function DigitChar(d: nat): (c: char)
    requires d < 10
    ensures IsDigit(c) && (c as int) - 48 == d
  {
    (48 + d) as char
  }

  /** `str(n)` for a non-negative integer: its decimal digits, most
      significant first, with no leading zero. */
  function Decimal(n: nat): (r: string)
    ensures |r| >= 1 && forall k :: 0 <= k < |r| ==> IsDigit(r[k])
    ensures r[0] == '0' ==> n == 0
    decreases n
  {
    if n < 10 then [DigitChar(n)] else Decimal(n / 10) + [DigitChar(n % 10)]
  }

  /** `int(s)` for a string of decimal digits. */
  function DecimalValue(s: string): nat
    requires forall k :: 0 <= k < |s| ==> IsDigit(s[k])
    decreases |s|
  {
    if s == [] then 0
    else
      assert IsDigit(s[|s| - 1]);
      DecimalValue(s[..|s| - 1]) * 10 + ((s[|s| - 1] as int) - 48)
  }

  /** Reading back the digits of `n` gives `n`. */
  lemma {:induction false} DecimalRoundTrip(n: nat)
    ensures DecimalValue(Decimal(n)) == n
    decreases n
  {
    var s := Decimal(n);
    if n >= 10 {
      assert s[..|s| - 1] == Decimal(n / 10);
      DecimalRoundTrip(n / 10);
    } else {
      assert s[..|s| - 1] == [];
    }
  }

  /** Distinct numbers have distinct decimal forms. */
  lemma DecimalInjective(a: nat, b: nat)
    requires a != b
    ensures Decimal(a) != Decimal(b)
  {
    DecimalRoundTrip(a);
    DecimalRoundTrip(b);
  }
}
