/** Character classes and string helpers shared by the validators and the report formatter. */
module Text {

  /** Python's `str.isspace()` (also the `\s` class of a `str` regex): the Unicode
      whitespace characters. */
  predicate IsSpace(c: char) {
    c == ' ' || ('\t' <= c <= '\r') || ('\U{1c}' <= c <= '\U{1f}')
    || c == '\U{85}' || c == '\U{a0}' || c == '\U{1680}'
    || ('\U{2000}' <= c <= '\U{200a}') || c == '\U{2028}' || c == '\U{2029}'
    || c == '\U{202f}' || c == '\U{205f}' || c == '\U{3000}'
  }

  /** Python's `\d` restricted to the ASCII digits (see README, "Left out"). */
  predicate IsDigit(c: char) {
    '0' <= c <= '9'
  }

  function DigitValue(c: char): (v: int)
    requires IsDigit(c)
    ensures 0 <= v <= 9
  {
    c as int - '0' as int
  }

  function DigitChar(v: int): (c: char)
    requires 0 <= v <= 9
    ensures IsDigit(c) && DigitValue(c) == v
  {
    ('0' as int + v) as char
  }

  /** `s.lstrip()`: a suffix of `s` that does not start with whitespace. */
  function TrimLeft(s: string): (r: string)
    ensures |r| <= |s| && r == s[|s| - |r|..]
    ensures r == [] || !IsSpace(r[0])
    decreases |s|
  {
    if s != [] && IsSpace(s[0]) then TrimLeft(s[1..]) else s
  }

  /** What `lstrip()` drops is all whitespace, so it drops the longest such prefix. */
  lemma {:induction false} TrimLeftDropsSpaces(s: string)
    ensures forall i :: 0 <= i < |s| - |TrimLeft(s)| ==> IsSpace(s[i])
    decreases |s|
  {
    if s != [] && IsSpace(s[0]) {
      TrimLeftDropsSpaces(s[1..]);
      forall i | 1 <= i < |s| - |TrimLeft(s)|
        ensures IsSpace(s[i])
      {
        assert s[i] == s[1..][i - 1];
      }
    }
  }

  /** `s.rstrip()`: a prefix of `s` that does not end with whitespace. */
  function TrimRight(s: string): (r: string)
    ensures |r| <= |s| && r == s[..|r|]
    ensures r == [] || !IsSpace(r[|r| - 1])
    decreases |s|
  {
    if s != [] && IsSpace(s[|s| - 1]) then TrimRight(s[..|s| - 1]) else s
  }

  /** What `rstrip()` drops is all whitespace, so it drops the longest such suffix. */
  lemma {:induction false} TrimRightDropsSpaces(s: string)
    ensures forall i :: |TrimRight(s)| <= i < |s| ==> IsSpace(s[i])
    decreases |s|
  {
    if s != [] && IsSpace(s[|s| - 1]) {
      TrimRightDropsSpaces(s[..|s| - 1]);
      forall i | |TrimRight(s)| <= i < |s| - 1
        ensures IsSpace(s[i])
      {
        assert s[i] == s[..|s| - 1][i];
      }
    }
  }

  /** `pat` occurs in `text` starting at index `i`. */
  predicate OccursAt(text: string, pat: string, i: int) {
    0 <= i <= |text| - |pat| && text[i..i + |pat|] == pat
  }

  /** `s.strip()`: no whitespace at either end. */
  function Strip(s: string): (r: string)
    ensures r == [] || (!IsSpace(r[0]) && !IsSpace(r[|r| - 1]))
  {
    var l := TrimLeft(s);
    var r := TrimRight(l);
    assert r != [] ==> r[0] == l[0];
    r
  }

  /** What `strip()` keeps is one contiguous piece of the text: the part after the
      leading whitespace, cut short before the trailing whitespace. */
  lemma StripIsPiece(s: string)
    ensures OccursAt(s, Strip(s), |s| - |TrimLeft(s)|)
  {
    var l := TrimLeft(s);
    PrefixOfSuffix(s, l, TrimRight(l));
  }

  /** `r` occurs in `s` at `i` with nothing but whitespace before and after it. */
  predicate SpacedAround(s: string, r: string, i: int) {
    OccursAt(s, r, i)
    && (forall k :: 0 <= k < i ==> IsSpace(s[k]))
    && (forall k :: i + |r| <= k < |s| ==> IsSpace(s[k]))
  }

  /** `strip()` takes off whitespace and nothing else. */
  lemma StripDropsOnlySpaces(s: string)
    ensures SpacedAround(s, Strip(s), |s| - |TrimLeft(s)|)
  {
    var l := TrimLeft(s);
    StripIsPiece(s);
    TrimLeftDropsSpaces(s);
    TrimRightDropsSpaces(l);
    SpacesOfSuffix(s, l, |TrimRight(l)|);
  }

  /** Whitespace at the end of a suffix is whitespace at the end of the whole text. */
  lemma SpacesOfSuffix(s: string, l: string, n: int)
    requires |l| <= |s| && l == s[|s| - |l|..] && 0 <= n <= |l|
    requires forall i :: n <= i < |l| ==> IsSpace(l[i])
    ensures forall k :: |s| - |l| + n <= k < |s| ==> IsSpace(s[k])
  {
    forall k | |s| - |l| + n <= k < |s|
      ensures IsSpace(s[k])
    {
      assert s[k] == l[k - (|s| - |l|)];
    }
  }

  /** A prefix of a suffix of `s` occurs in `s` where the suffix starts. */
  lemma PrefixOfSuffix(s: string, l: string, r: string)
    requires |l| <= |s| && l == s[|s| - |l|..]
    requires |r| <= |l| && r == l[..|r|]
    ensures OccursAt(s, r, |s| - |l|)
  {
    var off := |s| - |l|;
    assert s[off..][..|r|] == s[off..off + |r|];
  }

  /** Stripping a string that already has no whitespace at its ends changes nothing. */
  lemma StripNoop(s: string)
    requires s == [] || (!IsSpace(s[0]) && !IsSpace(s[|s| - 1]))
    ensures Strip(s) == s
  {
  }

  /** Whitespace around a piece that neither starts nor ends with whitespace is exactly
      what `strip()` removes. */
  lemma StripPadded(pre: string, x: string, post: string)
    requires forall i :: 0 <= i < |pre| ==> IsSpace(pre[i])
    requires forall i :: 0 <= i < |post| ==> IsSpace(post[i])
    requires x != [] && !IsSpace(x[0]) && !IsSpace(x[|x| - 1])
    ensures Strip(pre + x + post) == x
  {
    var s := pre + x + post;
    assert s == pre + (x + post);
    TrimLeftPadded(pre, x + post);
    TrimRightPadded(x, post);
    assert TrimRight(TrimLeft(s)) == x;
  }

  lemma {:induction false} TrimLeftPadded(pre: string, y: string)
    requires forall i :: 0 <= i < |pre| ==> IsSpace(pre[i])
    requires y != [] && !IsSpace(y[0])
    ensures TrimLeft(pre + y) == y
    decreases |pre|
  {
    if pre != [] {
      assert (pre + y)[1..] == pre[1..] + y;
      TrimLeftPadded(pre[1..], y);
    } else {
      assert pre + y == y;
    }
  }

  lemma {:induction false} TrimRightPadded(y: string, post: string)
    requires forall i :: 0 <= i < |post| ==> IsSpace(post[i])
    requires y != [] && !IsSpace(y[|y| - 1])
    ensures TrimRight(y + post) == y
    decreases |post|
  {
    if post != [] {
      assert (y + post)[..|y + post| - 1] == y + post[..|post| - 1];
      TrimRightPadded(y, post[..|post| - 1]);
    } else {
      assert y + post == y;
    }
  }

  /** Python's `pat in text` on strings: `pat` occurs as a contiguous substring. */
  predicate Contains(text: string, pat: string)
    decreases |text|
  {
    pat <= text || (text != [] && Contains(text[1..], pat))
  }

  /** A text shorter than the pattern never contains it. */
  lemma {:induction false} ShorterNeverContains(text: string, pat: string)
    requires |text| < |pat|
    ensures !Contains(text, pat)
    decreases |text|
  {
    if text != [] {
      ShorterNeverContains(text[1..], pat);
    }
  }

  /** A text in which the pattern's first character never occurs does not contain it. */
  lemma {:induction false} LacksFirstCharacter(text: string, pat: string)
    requires pat != []
    requires forall i :: 0 <= i < |text| ==> text[i] != pat[0]
    ensures !Contains(text, pat)
    decreases |text|
  {
    if text != [] {
      assert text[0] != pat[0];
      assert !(pat <= text);
      LacksFirstCharacter(text[1..], pat);
    }
  }

  /** `Contains` agrees with the definition "some window of `text` equals `pat`". */
  lemma {:induction false} ContainsIffWindow(text: string, pat: string)
    ensures Contains(text, pat) <==> exists i :: OccursAt(text, pat, i)
    decreases |text|
  {
    if pat <= text {
      assert OccursAt(text, pat, 0);
    } else if text != [] {
      ContainsIffWindow(text[1..], pat);
      assert !OccursAt(text, pat, 0);
      forall i | OccursAt(text, pat, i)
        ensures OccursAt(text[1..], pat, i - 1)
      {
        OccursAtTail(text, pat, i);
      }
      forall i | OccursAt(text[1..], pat, i)
        ensures OccursAt(text, pat, i + 1)
      {
        OccursAtTail(text, pat, i + 1);
      }
    }
  }

  /** A window past the first character is a window of the tail, one place earlier. */
  lemma OccursAtTail(text: string, pat: string, i: int)
    requires text != [] && 1 <= i
    ensures OccursAt(text, pat, i) <==> OccursAt(text[1..], pat, i - 1)
  {
    if i <= |text| - |pat| {
      assert text[1..][i - 1..i - 1 + |pat|] == text[i..i + |pat|];
    }
  }

  /** Python's `str(n)` for a natural number: decimal digits, no leading zeros. */
  function NatToString(n: nat): (s: string)
    ensures |s| >= 1 && forall i :: 0 <= i < |s| ==> IsDigit(s[i])
    ensures (|s| > 1 ==> s[0] != '0')
    decreases n
  {
    if n < 10 then [DigitChar(n)] else NatToString(n / 10) + [DigitChar(n % 10)]
  }

  /** Decimal rendering is injective: different numbers never print the same. */
  lemma {:induction false} NatToStringInjective(a: nat, b: nat)
    requires NatToString(a) == NatToString(b)
    ensures a == b
    decreases a
  {
    var s := NatToString(a);
    if a < 10 || b < 10 {
      assert DigitValue(s[0]) == a && DigitValue(s[0]) == b;
    } else {
      var sa, sb := NatToString(a / 10), NatToString(b / 10);
      assert sa == s[..|s| - 1] == sb;
      NatToStringInjective(a / 10, b / 10);
      assert DigitValue(s[|s| - 1]) == a % 10 == b % 10;
    }
  }

  /** Python's `str(n)` for any integer: a `-` sign before the digits of `|n|`. */
  function IntToString(n: int): (s: string)
    ensures |s| >= 1
    ensures s[0] == '-' <==> n < 0
  {
    if n < 0 then "-" + NatToString(-n) else NatToString(n)
  }

  lemma IntToStringInjective(a: int, b: int)
    requires IntToString(a) == IntToString(b)
    ensures a == b
  {
    if a < 0 && b < 0 {
      assert NatToString(-a) == IntToString(a)[1..] == NatToString(-b);
      NatToStringInjective(-a, -b);
    } else if a >= 0 && b >= 0 {
      NatToStringInjective(a, b);
    }
  }

  /** Two-digit zero-padded rendering (`%02d`) of a number below 100. */
  function Pad2(n: int): (s: string)
    requires 0 <= n < 100
    ensures |s| == 2 && IsDigit(s[0]) && IsDigit(s[1])
    ensures DigitValue(s[0]) * 10 + DigitValue(s[1]) == n
  {
    [DigitChar(n / 10), DigitChar(n % 10)]
  }
}
