/** The string operations the engine relies on: Python's `str.lower`,
    substring membership (`needle in s`), the order Python uses to compare
    strings (code point by code point), and `str()` of an integer. */
module Text {

  /** Python's `str.lower` on one character, for the characters that can
      matter here: every text this model lower-cases is afterwards searched
      for an ASCII keyword or compared with an ASCII extension, and the only
      code points whose lower case is an ASCII letter are 'A'..'Z' and the
      KELVIN SIGN (U+212A), which lower-cases to 'k'. One more code point
      yields an ASCII letter, but only with a tail: U+0130 (capital I with
      dot above) lower-cases to 'i' followed by U+0307 (combining dot
      above). No keyword and no extension has an 'i' followed by a
      combining mark, or an 'i' at its end, so no search or comparison
      here can tell that apart from the character kept as it is. Every
      other character is left as it is. */
  function Lower(c: char): (r: char)
    ensures 'a' <= r <= 'z' ==> r == c || 'A' <= c <= 'Z' || c == '\U{212A}'
    ensures !('A' <= r <= 'Z')
  {
    if 'A' <= c <= 'Z' then (c as int + 32) as char
    else if c == '\U{212A}' then 'k'
    else c
  }

  /** `str.lower` on a string, character by character. */
  function LowerStr(s: string): (r: string)
    ensures |r| == |s|
  {
    seq(|s|, i requires 0 <= i < |s| => Lower(s[i]))
  }

  /** What lower-casing does to each character: ASCII capitals become
      their small letters, every character that is neither an ASCII
      capital nor the KELVIN SIGN is kept, and no ASCII capital is left. */
  lemma LowerStrChars(s: string)
    ensures var r := LowerStr(s);
      && (forall i :: 0 <= i < |s| && 'A' <= s[i] <= 'Z' ==> r[i] as int == s[i] as int + 32)
      && (forall i :: 0 <= i < |s| && !('A' <= s[i] <= 'Z') && s[i] != '\U{212A}' ==> r[i] == s[i])
      && (forall i :: 0 <= i < |r| ==> !('A' <= r[i] <= 'Z'))
  {
  }

  /** Lower-casing distributes over concatenation, so it can be applied piece by piece. */
  lemma LowerStrConcat(a: string, b: string)
    ensures LowerStr(a + b) == LowerStr(a) + LowerStr(b)
  {
  }

  /** Lower-casing twice is lower-casing once. */
  lemma LowerStrIdempotent(s: string)
    ensures LowerStr(LowerStr(s)) == LowerStr(s)
  {
  }

  /** Python's `needle in s` for strings: `needle` occurs as a contiguous
      block of `s` (the empty string occurs in every string). */
  predicate Contains(s: string, needle: string)
    ensures needle <= s ==> Contains(s, needle)
    ensures Contains(s, needle) ==> |needle| <= |s|
    decreases |s|
  {
    needle <= s || (|s| > 0 && Contains(s[1..], needle))
  }

  /** A reference reading of `Contains`: there is a position at which
      `needle` starts. */
  lemma {:induction false} ContainsIffOccurs(s: string, needle: string)
    ensures Contains(s, needle) <==> exists i :: 0 <= i <= |s| && needle <= s[i..]
    decreases |s|
  {
    if needle <= s {
      assert needle <= s[0..];
    } else if |s| > 0 {
      ContainsIffOccurs(s[1..], needle);
      if exists i :: 0 <= i <= |s| && needle <= s[i..] {
        var i :| 0 <= i <= |s| && needle <= s[i..];
        assert i != 0;
        assert s[1..][i - 1..] == s[i..];
      }
      if exists i :: 0 <= i <= |s[1..]| && needle <= s[1..][i..] {
        var i :| 0 <= i <= |s[1..]| && needle <= s[1..][i..];
        assert s[1..][i..] == s[i + 1..];
      }
    } else {
      assert forall i :: 0 <= i <= |s| ==> s[i..] == s;
    }
  }

  /** A text that has `needle` spelled out in its middle contains it. */
  lemma {:induction false} ContainsInfix(a: string, needle: string, b: string)
    ensures Contains(a + needle + b, needle)
    decreases |a|
  {
    if a == [] {
      assert a + needle + b == needle + b;
    } else {
      assert (a + needle + b)[1..] == a[1..] + needle + b;
      ContainsInfix(a[1..], needle, b);
    }
  }

  /** The case-insensitive form: a text containing any spelling `k` of
      `needle` (any mix of cases) contains `needle` once lower-cased. */
  lemma ContainsAnyCase(a: string, k: string, b: string, needle: string)
    requires LowerStr(k) == needle
    ensures Contains(LowerStr(a + k + b), needle)
  {
    LowerStrConcat(a + k, b);
    LowerStrConcat(a, k);
    ContainsInfix(LowerStr(a), needle, LowerStr(b));
  }

  /** Python's `<` on strings: lexicographic on code points, a proper prefix
      comes first. Pandas sorts string group keys by it. */
  predicate StrLess(a: string, b: string)
    decreases |a|
  {
    |b| > 0 && (|a| == 0 || a[0] < b[0] || (a[0] == b[0] && StrLess(a[1..], b[1..])))
  }

  lemma {:induction false} StrLessIrreflexive(a: string)
    ensures !StrLess(a, a)
    decreases |a|
  {
    if |a| > 0 {
      StrLessIrreflexive(a[1..]);
    }
  }

  lemma {:induction false} StrLessTransitive(a: string, b: string, c: string)
    requires StrLess(a, b) && StrLess(b, c)
    ensures StrLess(a, c)
    decreases |a|
  {
    if |a| > 0 && a[0] == b[0] && b[0] == c[0] {
      StrLessTransitive(a[1..], b[1..], c[1..]);
    }
  }

  lemma {:induction false} StrLessTotal(a: string, b: string)
    requires a != b
    ensures StrLess(a, b) || StrLess(b, a)
    decreases |a|
  {
    if |a| > 0 && |b| > 0 && a[0] == b[0] {
      assert a == [a[0]] + a[1..] && b == [b[0]] + b[1..];
      StrLessTotal(a[1..], b[1..]);
    }
  }

  /** Strictly increasing in Python's string order (hence without repeats). */
  ghost predicate StrictlySorted(s: seq<string>)
  {
    forall i, j :: 0 <= i < j < |s| ==> StrLess(s[i], s[j])
  }

  /** No string occurs twice. */
  ghost predicate Distinct(ks: seq<string>)
  {
    forall i, j :: 0 <= i < j < |ks| ==> ks[i] != ks[j]
  }

  function DigitChar(d: nat): char
    requires d < 10
  {
    (48 + d) as char
  }

  /** `str(n)` for a natural number: its decimal digits, most significant first. */
  function NatToString(n: nat): (s: string)
    ensures |s| > 0
    ensures forall i :: 0 <= i < |s| ==> '0' <= s[i] <= '9'
    ensures |s| > 1 ==> s[0] != '0'
  {
    if n < 10 then [DigitChar(n)] else NatToString(n / 10) + [DigitChar(n % 10)]
  }

  /** `str(i)` for an integer. */
  function IntToString(i: int): (s: string)
    ensures |s| > 0
    ensures i < 0 <==> s[0] == '-'
  {
    if i < 0 then "-" + NatToString(-i) else NatToString(i)
  }

  /** The value a string of decimal digits denotes. */
  function DigitsValue(s: string): int
  {
    if s == [] then 0 else DigitsValue(s[..|s| - 1]) * 10 + (s[|s| - 1] as int - 48)
  }

  /** `str(n)` can be read back: its digits denote `n`. */
  lemma {:induction false} NatToStringRoundTrip(n: nat)
    ensures DigitsValue(NatToString(n)) == n
  {
    if n >= 10 {
      NatToStringRoundTrip(n / 10);
      var s := NatToString(n);
      assert s[..|s| - 1] == NatToString(n / 10);
    }
  }
}
