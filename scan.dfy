/**
 * Character classes, maximal-munch scanning and decimal numerals shared by the
 * two coordinate validators and by the fence exporter's generated names.
 *
 * Whitespace and digits are the ASCII ones: space, tab, line feed, vertical
 * tab, form feed and carriage return; '0' to '9'.
 */
module Scan {
  import opened Results

  /** The answer the validators print for each coordinate string. */
  datatype Verdict = InvalidFormat | OutsideThailand | ValidInThailand

  predicate IsSpace(c: char) {
    c == ' ' || '\t' <= c <= '\r'
  }

  predicate IsDigit(c: char) {
    '0' <= c <= '9'
  }

  predicate AllSpace(s: string) {
    forall i :: 0 <= i < |s| ==> IsSpace(s[i])
  }

  predicate AllDigits(s: string) {
    forall i :: 0 <= i < |s| ==> IsDigit(s[i])
  }

  /** A non-empty run of digits: what Python's int() accepts among ASCII strings of digits. */
  predicate IsNumeral(s: string) {
    |s| > 0 && AllDigits(s)
  }

  /** Splits off the longest whitespace prefix (the greedy `\s*`). */
  function SplitSpace(s: string): (r: (string, string))
    ensures r.0 + r.1 == s
    ensures AllSpace(r.0)
    ensures r.1 == [] || !IsSpace(r.1[0])
  {
    if s != [] && IsSpace(s[0]) then
      var (run, rest) := SplitSpace(s[1..]);
      assert ([s[0]] + run) + rest == s by {
        assert s == [s[0]] + s[1..];
        assert ([s[0]] + run) + rest == [s[0]] + (run + rest);
      }
      assert AllSpace([s[0]] + run) by {
        forall i | 0 <= i < |run| + 1
          ensures IsSpace(([s[0]] + run)[i])
        {
          if i > 0 { assert ([s[0]] + run)[i] == run[i - 1]; }
        }
      }
      ([s[0]] + run, rest)
    else
      ([], s)
  }

  /** Splits off the longest digit prefix (the greedy `\d+`, empty when no digit leads). */
  function SplitDigits(s: string): (r: (string, string))
    ensures r.0 + r.1 == s
    ensures AllDigits(r.0)
    ensures r.1 == [] || !IsDigit(r.1[0])
  {
    if s != [] && IsDigit(s[0]) then
      var (run, rest) := SplitDigits(s[1..]);
      assert ([s[0]] + run) + rest == s by {
        assert s == [s[0]] + s[1..];
        assert ([s[0]] + run) + rest == [s[0]] + (run + rest);
      }
      assert AllDigits([s[0]] + run) by {
        forall i | 0 <= i < |run| + 1
          ensures IsDigit(([s[0]] + run)[i])
        {
          if i > 0 { assert ([s[0]] + run)[i] == run[i - 1]; }
        }
      }
      ([s[0]] + run, rest)
    else
      ([], s)
  }

  /** A whitespace run followed by text that does not start with whitespace splits exactly there. */
  lemma {:induction false} SplitSpaceOf(w: string, t: string)
    requires AllSpace(w)
    requires t == [] || !IsSpace(t[0])
    ensures SplitSpace(w + t) == (w, t)
  {
    if w != [] {
      assert (w + t)[1..] == w[1..] + t;
      SplitSpaceOf(w[1..], t);
      assert w == [w[0]] + w[1..];
      assert (w + t)[0] == w[0];
    } else {
      assert w + t == t;
    }
  }

  /** A digit run followed by text that does not start with a digit splits exactly there. */
  lemma {:induction false} SplitDigitsOf(d: string, t: string)
    requires AllDigits(d)
    requires t == [] || !IsDigit(t[0])
    ensures SplitDigits(d + t) == (d, t)
  {
    if d != [] {
      assert (d + t)[1..] == d[1..] + t;
      SplitDigitsOf(d[1..], t);
      assert d == [d[0]] + d[1..];
      assert (d + t)[0] == d[0];
    } else {
      assert d + t == t;
    }
  }

  /** `\s*,\s*`: the whitespace before a comma, the whitespace after it, and what follows. */
  function ParseComma(s: string): (r: Option<(string, string, string)>)
    ensures r.Some? ==> AllSpace(r.value.0) && AllSpace(r.value.1)
    ensures r.Some? ==> r.value.0 + ([','] + (r.value.1 + r.value.2)) == s
  {
    var (before, a) := SplitSpace(s);
    if a == [] || a[0] != ',' then None
    else
      var (after, rest) := SplitSpace(a[1..]);
      assert a == [','] + a[1..];
      Some((before, after, rest))
  }

  /** `\s*,\s*` reads back the whitespace on either side of a comma. */
  lemma ParseCommaOf(before: string, after: string, rest: string)
    requires AllSpace(before) && AllSpace(after)
    requires rest == [] || !IsSpace(rest[0])
    ensures ParseComma(before + ([','] + (after + rest))) == Some((before, after, rest))
  {
    SplitSpaceOf(before, [','] + (after + rest));
    assert ([','] + (after + rest))[1..] == after + rest;
    SplitSpaceOf(after, rest);
  }

  function DigitValue(c: char): (v: nat)
    requires IsDigit(c)
    ensures v < 10
  {
    c as int - '0' as int
  }

  function DigitChar(v: nat): (c: char)
    requires v < 10
    ensures IsDigit(c) && DigitValue(c) == v
  {
    ('0' as int + v) as char
  }

  function Pow10(n: nat): (r: nat)
    ensures r >= 1
  {
    if n == 0 then 1 else 10 * Pow10(n - 1)
  }

  /** The value of a string of decimal digits, most significant first (Python's int() on such a string). */
  function DigitsValue(s: string): (v: nat)
    requires AllDigits(s)
    ensures v < Pow10(|s|)
  {
    if s == [] then 0
    else
      var p := DigitsValue(s[..|s| - 1]);
      assert p + 1 <= Pow10(|s| - 1);
      p * 10 + DigitValue(s[|s| - 1])
  }

  /** Appending a digit multiplies the value so far by ten and adds the digit. */
  lemma DigitsValueSnoc(s: string, c: char)
    requires AllDigits(s) && IsDigit(c)
    ensures AllDigits(s + [c]) && DigitsValue(s + [c]) == DigitsValue(s) * 10 + DigitValue(c)
  {
    assert (s + [c])[..|s|] == s;
  }

  /** The value of a one-digit numeral is its digit's value. */
  lemma OneDigitValue(s: string)
    requires IsNumeral(s) && |s| == 1
    ensures DigitsValue(s) == DigitValue(s[0])
  {
    assert s[..0] == [];
  }

  lemma TwoDigitValue(s: string)
    requires IsNumeral(s) && |s| == 2
    ensures DigitsValue(s) == DigitValue(s[0]) * 10 + DigitValue(s[1])
  {
    assert s[..0] == [];
    DigitsValuePrefix(s, 0);
    assert s[..2] == s;
  }

  lemma ThreeDigitValue(s: string)
    requires IsNumeral(s) && |s| == 3
    ensures DigitsValue(s) == DigitValue(s[0]) * 100 + DigitValue(s[1]) * 10 + DigitValue(s[2])
  {
    assert s[..0] == [];
    DigitsValuePrefix(s, 0);
    DigitsValuePrefix(s, 1);
    assert s[..3] == s;
  }

  /** One more digit of a numeral: the value of a prefix extended by the next character. */
  lemma DigitsValuePrefix(s: string, k: nat)
    requires AllDigits(s) && k < |s|
    ensures DigitsValue(s[..k + 1]) == DigitsValue(s[..k]) * 10 + DigitValue(s[k])
  {
    assert s[..k + 1][..k] == s[..k];
  }

  /** The positional value of a six-digit numeral. */
  lemma SixDigitValue(s: string)
    requires IsNumeral(s) && |s| == 6
    ensures DigitsValue(s) == DigitValue(s[0]) * 100000 + DigitValue(s[1]) * 10000 + DigitValue(s[2]) * 1000
                            + DigitValue(s[3]) * 100 + DigitValue(s[4]) * 10 + DigitValue(s[5])
  {
    assert s[..0] == [];
    DigitsValuePrefix(s, 0);
    DigitsValuePrefix(s, 1);
    DigitsValuePrefix(s, 2);
    DigitsValuePrefix(s, 3);
    DigitsValuePrefix(s, 4);
    DigitsValuePrefix(s, 5);
    assert s[..6] == s;
  }

  /** The positional value of a seven-digit numeral. */
  lemma SevenDigitValue(s: string)
    requires IsNumeral(s) && |s| == 7
    ensures DigitsValue(s) == DigitValue(s[0]) * 1000000 + DigitsValue(s[1..])
    ensures DigitsValue(s[1..]) == DigitValue(s[1]) * 100000 + DigitValue(s[2]) * 10000 + DigitValue(s[3]) * 1000
                                 + DigitValue(s[4]) * 100 + DigitValue(s[5]) * 10 + DigitValue(s[6])
  {
    var t := s[1..];
    SixDigitValue(t);
    assert s[..0] == [];
    DigitsValuePrefix(s, 0);
    DigitsValuePrefix(s, 1);
    DigitsValuePrefix(s, 2);
    DigitsValuePrefix(s, 3);
    DigitsValuePrefix(s, 4);
    DigitsValuePrefix(s, 5);
    DigitsValuePrefix(s, 6);
    assert s[..7] == s;
  }

  /** The canonical decimal text of a natural number, as Python's str() writes it. */
  function DecimalText(n: nat): (s: string)
    ensures IsNumeral(s)
    ensures DigitsValue(s) == n
    ensures s[0] != '0' || n == 0
    decreases n
  {
    if n < 10 then
      [DigitChar(n)]
    else
      var t := DecimalText(n / 10);
      DigitsValueSnoc(t, DigitChar(n % 10));
      t + [DigitChar(n % 10)]
  }

  /** Distinct numbers have distinct decimal texts. */
  lemma DecimalTextDistinct(m: nat, n: nat)
    requires m != n
    ensures DecimalText(m) != DecimalText(n)
  {
  }
}
