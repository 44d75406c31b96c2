/**
 * The few Python built-ins that the client's pure logic relies on:
 * `str.strip` (with an explicit character set and with no argument),
 * `oct` on a non-negative integer, the slice `s[-3:]` and `int` on a string.
 * Python strings are sequences of code points, modelled as `string`.
 */
module Builtins {
  import opened Wrappers

  // ---------------------------------------------------------------------
  // str.strip
  // ---------------------------------------------------------------------

  /** Every character of `s` belongs to `cs`. */
  predicate AllIn(s: string, cs: set<char>) {
    forall k :: 0 <= k < |s| ==> s[k] in cs
  }

  /** `s` neither begins nor ends with a character of `cs`. */
  predicate IsStripped(s: string, cs: set<char>) {
    s == [] || (s[0] !in cs && s[|s| - 1] !in cs)
  }

  /** `s.lstrip(cs)`: the longest suffix of `s` that does not start with a character of `cs`. */
  function StripLeading(s: string, cs: set<char>): (r: string)
    ensures |r| <= |s| && r == s[|s| - |r|..]
    ensures AllIn(s[..|s| - |r|], cs)
    ensures r == [] || r[0] !in cs
  {
    if s != [] && s[0] in cs then
      var r := StripLeading(s[1..], cs);
      assert s[1..][|s| - 1 - |r|..] == s[|s| - |r|..];
      assert forall k :: 1 <= k < |s| - |r| ==> s[k] == s[1..][..|s| - 1 - |r|][k - 1];
      r
    else
      s
  }

  /** `s.rstrip(cs)`: the longest prefix of `s` that does not end with a character of `cs`. */
  function StripTrailing(s: string, cs: set<char>): (r: string)
    ensures |r| <= |s| && r == s[..|r|]
    ensures AllIn(s[|r|..], cs)
    ensures r == [] || r[|r| - 1] !in cs
  {
    if s != [] && s[|s| - 1] in cs then
      var r := StripTrailing(s[..|s| - 1], cs);
      assert s[..|s| - 1][..|r|] == s[..|r|];
      assert forall k :: |r| <= k < |s| - 1 ==> s[k] == s[..|s| - 1][|r|..][k - |r|];
      r
    else
      s
  }

  /** `s.strip(cs)`: both ends of `s` cut back to a character outside `cs`. */
  function Strip(s: string, cs: set<char>): (r: string)
    ensures |r| <= |s|
    ensures IsStripped(r, cs)
  {
    StripTrailing(StripLeading(s, cs), cs)
  }

  /** `r` is `s` with a run of characters from `cs` cut from each end, and nothing more to cut. */
  ghost predicate IsTrimOf(r: string, s: string, cs: set<char>) {
    && IsStripped(r, cs)
    && exists i :: 0 <= i <= |s| - |r| && s[i..i + |r|] == r && AllIn(s[..i], cs) && AllIn(s[i + |r|..], cs)
  }

  lemma {:induction false} StripLeadingSkips(pre: string, t: string, cs: set<char>)
    requires AllIn(pre, cs)
    ensures StripLeading(pre + t, cs) == StripLeading(t, cs)
  {
    if pre != [] {
      assert (pre + t)[0] == pre[0] && pre[0] in cs;
      assert (pre + t)[1..] == pre[1..] + t;
      assert StripLeading(pre + t, cs) == StripLeading(pre[1..] + t, cs);
      StripLeadingSkips(pre[1..], t, cs);
    } else {
      assert pre + t == t;
    }
  }

  lemma {:induction false} StripTrailingSkips(t: string, post: string, cs: set<char>)
    requires AllIn(post, cs)
    ensures StripTrailing(t + post, cs) == StripTrailing(t, cs)
  {
    if post != [] {
      var u := t + post;
      assert u[|u| - 1] == post[|post| - 1] && post[|post| - 1] in cs;
      assert u[..|u| - 1] == t + post[..|post| - 1];
      assert StripTrailing(u, cs) == StripTrailing(t + post[..|post| - 1], cs);
      StripTrailingSkips(t, post[..|post| - 1], cs);
    } else {
      assert t + post == t;
    }
  }

  /** Cutting any runs of `cs` characters from the two ends of a stripped string gives it back. */
  lemma StripPadded(pre: string, r: string, post: string, cs: set<char>)
    requires AllIn(pre, cs) && AllIn(post, cs) && IsStripped(r, cs)
    ensures Strip(pre + r + post, cs) == r
  {
    assert pre + r + post == pre + (r + post);
    StripLeadingSkips(pre, r + post, cs);
    if r == [] {
      assert r + post == [] + post;
      StripLeadingSkips(post, [], cs);
    } else {
      StripTrailingSkips(r, post, cs);
    }
  }

  /** What `Strip` returns is `s` with its `cs` runs cut from both ends. */
  lemma StripIsTrim(s: string, cs: set<char>)
    ensures IsTrimOf(Strip(s, cs), s, cs)
  {
    var t := StripLeading(s, cs);
    var r := Strip(s, cs);
    var i := |s| - |t|;
    assert t == s[i..];
    assert r == t[..|r|];
    assert s[i..i + |r|] == r;
    assert AllIn(s[..i], cs);
    assert s[i + |r|..] == t[|r|..];
  }

  /** A trim of `s` is what `Strip` returns. */
  lemma TrimIsStrip(r: string, s: string, cs: set<char>)
    requires IsTrimOf(r, s, cs)
    ensures Strip(s, cs) == r
  {
    var i :| 0 <= i <= |s| - |r| && s[i..i + |r|] == r && AllIn(s[..i], cs) && AllIn(s[i + |r|..], cs);
    assert s == s[..i] + r + s[i + |r|..];
    StripPadded(s[..i], r, s[i + |r|..], cs);
  }

  /** `Strip(s, cs) == r` exactly when `r` is `s` with its `cs` runs cut from both ends. */
  lemma StripCharacterization(s: string, r: string, cs: set<char>)
    ensures Strip(s, cs) == r <==> IsTrimOf(r, s, cs)
  {
    StripIsTrim(s, cs);
    if IsTrimOf(r, s, cs) {
      TrimIsStrip(r, s, cs);
    }
  }

  /** Appending to `s` extends what `StripLeading` keeps of it, unless it keeps nothing. */
  lemma {:induction false} StripLeadingAppend(s: string, post: string, cs: set<char>)
    ensures StripLeading(s + post, cs)
         == if StripLeading(s, cs) == [] then StripLeading(post, cs) else StripLeading(s, cs) + post
  {
    if s == [] {
      assert s + post == post;
    } else if s[0] in cs {
      assert (s + post)[0] == s[0];
      assert (s + post)[1..] == s[1..] + post;
      StripLeadingAppend(s[1..], post, cs);
    } else {
      assert (s + post)[0] == s[0];
    }
  }

  /** Extra characters of `cs` at either end of `s` do not change what `Strip` returns. */
  lemma StripAbsorbsEdges(pre: string, s: string, post: string, cs: set<char>)
    requires AllIn(pre, cs) && AllIn(post, cs)
    ensures Strip(pre + s + post, cs) == Strip(s, cs)
  {
    assert pre + s + post == pre + (s + post);
    StripLeadingSkips(pre, s + post, cs);
    StripLeadingAppend(s, post, cs);
    var t := StripLeading(s, cs);
    if t != [] {
      StripTrailingSkips(t, post, cs);
    }
  }

  /** Stripping twice is stripping once. */
  lemma StripIdempotent(s: string, cs: set<char>)
    ensures Strip(Strip(s, cs), cs) == Strip(s, cs)
  {
    var r := Strip(s, cs);
    assert [] + r + [] == r;
    StripPadded([], r, [], cs);
  }

  /**
   * The characters for which Python's `str.isspace` holds, which `str.strip()`
   * with no argument removes.
   */
  const Whitespace: set<char> := {
    '\t', '\n', '\U{b}', '\U{c}', '\r', '\U{1c}', '\U{1d}', '\U{1e}', '\U{1f}', ' ',
    '\U{85}', '\U{a0}', '\U{1680}',
    '\U{2000}', '\U{2001}', '\U{2002}', '\U{2003}', '\U{2004}', '\U{2005}',
    '\U{2006}', '\U{2007}', '\U{2008}', '\U{2009}', '\U{200a}',
    '\U{2028}', '\U{2029}', '\U{202f}', '\U{205f}', '\U{3000}'
  }

  // ---------------------------------------------------------------------
  // oct, s[-3:] and int
  // ---------------------------------------------------------------------

  predicate IsDigit(c: char) {
    '0' <= c <= '9'
  }

  function DigitValue(c: char): nat
    requires IsDigit(c)
  {
    c as int - '0' as int
  }

  function OctalDigit(d: nat): (c: char)
    requires d < 8
    ensures IsDigit(c) && DigitValue(c) == d
  {
    ('0' as int + d) as char
  }

  /** The value of the digit string `t` read in base `b`. */
  function DigitsValue(t: string, b: nat): nat
    requires forall k :: 0 <= k < |t| ==> IsDigit(t[k])
  {
    if t == [] then 0 else b * DigitsValue(t[..|t| - 1], b) + DigitValue(t[|t| - 1])
  }

  /** The base-8 digits of `n`, most significant first, without leading zeros ("0" for 0). */
  function OctalDigits(n: nat): (s: string)
    ensures |s| >= 1
    ensures forall k :: 0 <= k < |s| ==> IsDigit(s[k])
    ensures (n < 8) == (|s| == 1)
    ensures s[|s| - 1] == OctalDigit(n % 8)
  {
    if n < 8 then [OctalDigit(n)] else OctalDigits(n / 8) + [OctalDigit(n % 8)]
  }

  /** Reading the digits of `OctalDigits(n)` in base 8 gives `n` back. */
  lemma {:induction false} OctalDigitsValue(n: nat)
    ensures DigitsValue(OctalDigits(n), 8) == n
  {
    if n >= 8 {
      var s := OctalDigits(n);
      assert s[..|s| - 1] == OctalDigits(n / 8);
      OctalDigitsValue(n / 8);
    }
  }

  /** Python's `oct(n)` for `n >= 0`: the prefix "0o" followed by the base-8 digits. */
  function Oct(n: nat): string {
    "0o" + OctalDigits(n)
  }

  /** Python's `s[-3:]`: the last three characters, or all of `s` when it is shorter. */
  function LastThree(s: string): string {
    if |s| < 3 then s else s[|s| - 3..]
  }

  /**
   * Python's `int(t)` in base 10 on the strings `LastThree(Oct(n))` can be:
   * the value of a non-empty run of ASCII digits, or `None` where `int`
   * raises `ValueError`.
   */
  function ParseInt(t: string): (r: Option<nat>)
  {
    if t != [] && forall k :: 0 <= k < |t| ==> IsDigit(t[k]) then Some(DigitsValue(t, 10)) else None
  }

  /** Appending a digit to a parsed digit string multiplies its value by ten and adds the digit. */
  lemma ParseIntAppendDigit(t: string, c: char)
    requires ParseInt(t).Some? && IsDigit(c)
    ensures ParseInt(t + [c]) == Some(10 * ParseInt(t).value + DigitValue(c))
  {
    assert (t + [c])[..|t|] == t;
  }

  /** A three-digit string parses to its decimal value, leading zeros included (`int("007") == 7`). */
  lemma ParseIntThreeDigits(t: string)
    requires |t| == 3 && IsDigit(t[0]) && IsDigit(t[1]) && IsDigit(t[2])
    ensures ParseInt(t) == Some(100 * DigitValue(t[0]) + 10 * DigitValue(t[1]) + DigitValue(t[2]))
  {
    var one := [t[0]];
    assert one[..|one| - 1] == [];
    assert DigitsValue(one, 10) == DigitValue(t[0]);
    ParseIntAppendDigit([t[0]], t[1]);
    assert [t[0]] + [t[1]] + [t[2]] == t;
    ParseIntAppendDigit([t[0]] + [t[1]], t[2]);
  }

  /** For `n >= 64`, `oct(n)[-3:]` is exactly the three lowest octal digits of `n`. */
  lemma OctLastThree(n: nat)
    requires n >= 64
    ensures LastThree(Oct(n)) == [OctalDigit(n / 64 % 8), OctalDigit(n / 8 % 8), OctalDigit(n % 8)]
  {
    var hi := OctalDigits(n / 64);
    assert OctalDigits(n / 8) == hi + [OctalDigit(n / 8 % 8)];
    assert OctalDigits(n) == hi + [OctalDigit(n / 8 % 8)] + [OctalDigit(n % 8)];
    assert (n / 8) / 8 == n / 64;
    var s := Oct(n);
    assert s == "0o" + hi + [OctalDigit(n / 8 % 8), OctalDigit(n % 8)];
    assert s[|s| - 3] == hi[|hi| - 1];
  }

  /**
   * `int(oct(n)[-3:])` is defined exactly when `n >= 64`, and then reads the
   * three lowest octal digits of `n` as a decimal number.
   */
  lemma OctLastThreeAsDecimal(n: nat)
    ensures ParseInt(LastThree(Oct(n))).Some? <==> n >= 64
    ensures n >= 64 ==> ParseInt(LastThree(Oct(n))).value == (n / 64 % 8) * 100 + (n / 8 % 8) * 10 + n % 8
  {
    var t := LastThree(Oct(n));
    if n >= 64 {
      OctLastThree(n);
      ParseIntThreeDigits(t);
    } else {
      assert t[|t| - |OctalDigits(n)| - 1] == 'o';
    }
  }
}
