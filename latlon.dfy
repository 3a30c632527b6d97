/**
 * The decimal latitude/longitude validator: the anchored pattern
 *   optional whitespace, number, optional whitespace, comma,
 *   optional whitespace, number, optional whitespace
 * where a number is an optional '-', one or more digits and an optional
 * '.' followed by one or more digits; the first number is the latitude and
 * the second the longitude. A match is then checked against Thailand's
 * inclusive bounding box, and each string receives one of three verdicts.
 *
 * Parsed numbers are exact decimals (reals), not binary floating point.
 */
module DecimalValidator {
  import opened Results
  import opened Scan

  /** A number token: its sign, its integer digits and its fraction digits (empty when there is no `.digits` part). */
  datatype Number = Number(negative: bool, whole: string, fraction: string)

  /** The two capture groups of the pattern: latitude first, longitude second. */
  datatype Coordinates = Coordinates(latitude: Number, longitude: Number)

  /** One way of reading a string against the pattern: every whitespace run and both numbers, in order. */
  datatype LatLonLayout = LatLonLayout(
    lead: string, latitude: Number, beforeComma: string, afterComma: string,
    longitude: Number, trail: string)

  const MinLat: real := 5.0
  const MaxLat: real := 21.0
  const MinLon: real := 97.0
  const MaxLon: real := 106.0

  /** `-?\d+(?:\.\d+)?`: at least one integer digit; the fraction, when present, has at least one digit. */
  predicate WellFormedNumber(n: Number) {
    IsNumeral(n.whole) && AllDigits(n.fraction)
  }

  function SignText(negative: bool): string {
    if negative then ['-'] else []
  }

  function FractionText(fraction: string): string {
    if fraction == [] then [] else ['.'] + fraction
  }

  function NumberText(n: Number): string {
    SignText(n.negative) + (n.whole + FractionText(n.fraction))
  }

  predicate WellFormed(l: LatLonLayout) {
    && AllSpace(l.lead) && WellFormedNumber(l.latitude)
    && AllSpace(l.beforeComma) && AllSpace(l.afterComma)
    && WellFormedNumber(l.longitude) && AllSpace(l.trail)
  }

  function Render(l: LatLonLayout): string {
    l.lead + (NumberText(l.latitude) + (l.beforeComma + ([','] + (l.afterComma + (NumberText(l.longitude) + l.trail)))))
  }

  /** The strings the pattern describes. */
  ghost predicate Matches(s: string) {
    exists l :: WellFormed(l) && Render(l) == s
  }

  /** The optional `.digits` part: taken only when a digit follows the point. */
  function ParseFraction(b: string): (r: (string, string))
    ensures AllDigits(r.0) && FractionText(r.0) + r.1 == b
  {
    if |b| >= 2 && b[0] == '.' && IsDigit(b[1]) then
      var (fraction, c) := SplitDigits(b[1..]);
      PointSplit(b, fraction, c);
      (fraction, c)
    else
      ([], b)
  }

  lemma PointSplit(b: string, fraction: string, c: string)
    requires |b| >= 2 && b[0] == '.' && IsDigit(b[1])
    requires fraction + c == b[1..] && (c == [] || !IsDigit(c[0]))
    ensures FractionText(fraction) + c == b
  {
    assert fraction != [];
    assert b == ['.'] + b[1..];
  }

  /** `\d+(?:\.\d+)?`, greedily: the integer digits, the fraction digits and the rest. */
  function ParseUnsigned(a: string): (r: Option<(string, string, string)>)
    ensures r.Some? ==> IsNumeral(r.value.0) && AllDigits(r.value.1)
    ensures r.Some? ==> r.value.0 + (FractionText(r.value.1) + r.value.2) == a
  {
    var (whole, b) := SplitDigits(a);
    if whole == [] then None
    else
      var (fraction, c) := ParseFraction(b);
      Some((whole, fraction, c))
  }

  /** Reads one number token greedily: the sign if present, every digit, and a fraction only when a digit follows the point. */
  function ParseNumber(s: string): (r: Option<(Number, string)>)
    ensures r.Some? ==> WellFormedNumber(r.value.0) && NumberText(r.value.0) + r.value.1 == s
  {
    var negative := s != [] && s[0] == '-';
    var a := if negative then s[1..] else s;
    match ParseUnsigned(a)
    case None => None
    case Some((whole, fraction, c)) =>
      SignSplit(s, negative, a, whole + (FractionText(fraction) + c));
      NumberTextAppend(Number(negative, whole, fraction), c);
      Some((Number(negative, whole, fraction), c))
  }

  lemma SignSplit(s: string, negative: bool, a: string, b: string)
    requires negative == (s != [] && s[0] == '-')
    requires a == (if negative then s[1..] else s) && a == b
    ensures SignText(negative) + b == s
  {
    if negative {
      assert s == [s[0]] + s[1..];
    }
  }

  lemma NumberTextAppend(n: Number, rest: string)
    ensures NumberText(n) + rest == SignText(n.negative) + (n.whole + (FractionText(n.fraction) + rest))
  {
  }

  /** A left-to-right recogniser for the pattern that keeps every whitespace run it skips. */
  function Parse(s: string): (r: Option<LatLonLayout>)
    ensures r.Some? ==> WellFormed(r.value) && Render(r.value) == s
  {
    var (lead, a) := SplitSpace(s);
    match ParseNumber(a)
    case None => None
    case Some((latitude, b)) =>
      match ParseComma(b)
      case None => None
      case Some((beforeComma, afterComma, c)) =>
        match ParseNumber(c)
        case None => None
        case Some((longitude, d)) =>
          var (trail, e) := SplitSpace(d);
          if e != [] then None
          else
            assert trail + e == trail;
            Some(LatLonLayout(lead, latitude, beforeComma, afterComma, longitude, trail))
  }

  /** `lat_long_pattern.match(s)`, reduced to its two groups. */
  function Match(s: string): (r: Option<Coordinates>)
    ensures r.Some? ==> WellFormedNumber(r.value.latitude) && WellFormedNumber(r.value.longitude)
  {
    match Parse(s)
    case None => None
    case Some(l) => Some(Coordinates(l.latitude, l.longitude))
  }

  /** A fraction part followed by text that cannot continue it reads back as itself. */
  lemma ParseFractionOf(fraction: string, rest: string)
    requires AllDigits(fraction)
    requires rest == [] || !(IsDigit(rest[0]) || rest[0] == '.')
    ensures ParseFraction(FractionText(fraction) + rest) == (fraction, rest)
  {
    if fraction != [] {
      var b := FractionText(fraction) + rest;
      assert b == ['.'] + (fraction + rest);
      assert b[1..] == fraction + rest;
      assert b[1] == fraction[0];
      SplitDigitsOf(fraction, rest);
    } else {
      assert FractionText(fraction) + rest == rest;
    }
  }

  lemma ParseUnsignedOf(whole: string, fraction: string, rest: string)
    requires IsNumeral(whole) && AllDigits(fraction)
    requires rest == [] || !(IsDigit(rest[0]) || rest[0] == '.')
    ensures ParseUnsigned(whole + (FractionText(fraction) + rest)) == Some((whole, fraction, rest))
  {
    var b := FractionText(fraction) + rest;
    assert b == [] || !IsDigit(b[0]) by {
      if fraction != [] { assert b[0] == '.'; }
    }
    SplitDigitsOf(whole, b);
    ParseFractionOf(fraction, rest);
  }

  /** A number token followed by text that cannot continue it reads back as itself. */
  lemma ParseNumberOf(n: Number, rest: string)
    requires WellFormedNumber(n)
    requires rest == [] || !(IsDigit(rest[0]) || rest[0] == '.')
    ensures ParseNumber(NumberText(n) + rest) == Some((n, rest))
  {
    var s := NumberText(n) + rest;
    var a := n.whole + (FractionText(n.fraction) + rest);
    assert s == SignText(n.negative) + a;
    assert a[0] == n.whole[0];
    assert (if s != [] && s[0] == '-' then s[1..] else s) == a by {
      if n.negative { assert s[1..] == a; } else { assert s == a; }
    }
    ParseUnsignedOf(n.whole, n.fraction, rest);
  }

  /** Reading back a rendered well-formed layout gives the layout itself. */
  lemma ParseRender(l: LatLonLayout)
    requires WellFormed(l)
    ensures Parse(Render(l)) == Some(l)
  {
    var lonOn := NumberText(l.longitude) + l.trail;
    var commaOn := l.beforeComma + ([','] + (l.afterComma + lonOn));
    var latOn := NumberText(l.latitude) + commaOn;
    SplitSpaceOf(l.lead, latOn);
    assert latOn[0] == NumberText(l.latitude)[0];
    ParseNumberOf(l.latitude, commaOn);
    ParseCommaOf(l.beforeComma, l.afterComma, lonOn);
    assert lonOn[0] == NumberText(l.longitude)[0];
    ParseNumberOf(l.longitude, l.trail);
    SplitSpaceOf(l.trail, []);
    assert l.trail + [] == l.trail;
  }

  /** The recogniser accepts exactly the strings the pattern describes, with the groups of the unique reading. */
  lemma PatternExact(s: string, g: Coordinates)
    ensures Match(s) == Some(g) <==>
      exists l :: WellFormed(l) && Render(l) == s && g == Coordinates(l.latitude, l.longitude)
  {
    if l :| WellFormed(l) && Render(l) == s && g == Coordinates(l.latitude, l.longitude) {
      ParseRender(l);
    }
  }

  /** The magnitude of a number token as an exact decimal: integer digits plus fraction digits over a power of ten. */
  function Magnitude(n: Number): real
    requires WellFormedNumber(n)
  {
    DigitsValue(n.whole) as real + DigitsValue(n.fraction) as real / Pow10(|n.fraction|) as real
  }

  /** `float()` of a number token, exactly. */
  function Value(n: Number): (r: real)
    requires WellFormedNumber(n)
    ensures n.negative ==> r <= 0.0
    ensures !n.negative ==> r >= 0.0
    ensures DigitsValue(n.whole) as real <= (if n.negative then -r else r) < DigitsValue(n.whole) as real + 1.0
  {
    MagnitudeBounds(n);
    if n.negative then -Magnitude(n) else Magnitude(n)
  }

  /** The fraction never reaches a whole unit: the integer digits fix the value to within one. */
  lemma MagnitudeBounds(n: Number)
    requires WellFormedNumber(n)
    ensures DigitsValue(n.whole) as real <= Magnitude(n) < DigitsValue(n.whole) as real + 1.0
    ensures Magnitude(n) == DigitsValue(n.whole) as real <==> DigitsValue(n.fraction) == 0
  {
    var f, p := DigitsValue(n.fraction) as real, Pow10(|n.fraction|) as real;
    assert 0.0 <= f < p;
    FractionBelow(f, p);
    FractionNonNegative(f, p);
  }

  lemma FractionBelow(f: real, p: real)
    requires 0.0 <= f < p
    ensures f / p < 1.0
  {
  }

  lemma FractionNonNegative(f: real, p: real)
    requires 0.0 <= f < p
    ensures 0.0 <= f / p
    ensures f / p == 0.0 <==> f == 0.0
  {
  }

  /** `is_within_thailand`: inclusive bounds on both coordinates. */
  function IsWithinThailand(lat: real, lon: real): bool {
    MinLat <= lat <= MaxLat && MinLon <= lon <= MaxLon
  }

  /** The verdict for one string: the pattern first, the bounding box only for a match. */
  function Classify(s: string): Verdict {
    match Match(s)
    case None => InvalidFormat
    case Some(g) =>
      if IsWithinThailand(Value(g.latitude), Value(g.longitude)) then ValidInThailand else OutsideThailand
  }

  /** The verdict of a string read through a well-formed layout, in terms of the exact values of its numbers. */
  lemma VerdictOfLayout(l: LatLonLayout, s: string)
    requires WellFormed(l) && Render(l) == s
    ensures Classify(s) ==
      if IsWithinThailand(Value(l.latitude), Value(l.longitude)) then ValidInThailand else OutsideThailand
  {
    ParseRender(l);
  }

  /** The verdict, stated against the pattern rather than the recogniser. */
  lemma ClassifyAgainstPattern(s: string)
    ensures Classify(s) == InvalidFormat <==> !Matches(s)
    ensures Classify(s) == ValidInThailand <==>
      exists l :: WellFormed(l) && Render(l) == s && IsWithinThailand(Value(l.latitude), Value(l.longitude))
  {
    forall l | WellFormed(l) && Render(l) == s
      ensures Parse(s) == Some(l)
    {
      ParseRender(l);
    }
  }

  /**
   * The characters a matching string may hold, each in its place: whitespace,
   * digits and the comma anywhere; a '-' only right before a digit; a '.' only
   * between two digits. So no '+', no exponent, no point without digits on
   * both sides.
   */
  predicate CharInPlace(s: string, i: nat)
    requires i < |s|
  {
    || IsSpace(s[i]) || IsDigit(s[i]) || s[i] == ','
    || (s[i] == '-' && i + 1 < |s| && IsDigit(s[i + 1]))
    || (s[i] == '.' && 0 < i && i + 1 < |s| && IsDigit(s[i - 1]) && IsDigit(s[i + 1]))
  }

  predicate AllInPlace(s: string) {
    forall i :: 0 <= i < |s| ==> CharInPlace(s, i)
  }

  /** Every character keeps its place when more text is put on either side. */
  lemma InPlaceAppend(a: string, b: string)
    requires AllInPlace(a) && AllInPlace(b)
    ensures AllInPlace(a + b)
  {
    var s := a + b;
    forall i | 0 <= i < |s|
      ensures CharInPlace(s, i)
    {
      if i < |a| {
        assert CharInPlace(a, i);
        if i + 1 < |a| { assert s[i + 1] == a[i + 1]; }
        if 0 < i { assert s[i - 1] == a[i - 1]; }
      } else {
        var j := i - |a|;
        assert CharInPlace(b, j);
        if j + 1 < |b| { assert s[i + 1] == b[j + 1]; }
        if 0 < j { assert s[i - 1] == b[j - 1]; }
      }
    }
  }

  lemma SpacesInPlace(w: string)
    requires AllSpace(w)
    ensures AllInPlace(w)
  {
  }

  /** A number token is an optional '-', digits, and an optional point between digits. */
  lemma NumberInPlace(n: Number)
    requires WellFormedNumber(n)
    ensures AllInPlace(NumberText(n))
  {
    var frac := FractionText(n.fraction);
    var digitsOn := n.whole + frac;
    forall i | 0 <= i < |digitsOn|
      ensures CharInPlace(digitsOn, i)
    {
      if i == |n.whole| {
        assert digitsOn[i - 1] == n.whole[i - 1];
        assert digitsOn[i + 1] == n.fraction[0];
      }
    }
    if n.negative {
      var s := ['-'] + digitsOn;
      assert NumberText(n) == s;
      forall i | 0 <= i < |s|
        ensures CharInPlace(s, i)
      {
        if i == 0 {
          assert s[1] == n.whole[0];
        } else {
          assert CharInPlace(digitsOn, i - 1);
          if i + 1 < |s| { assert s[i + 1] == digitsOn[i]; }
          if 1 < i { assert s[i - 1] == digitsOn[i - 2]; }
        }
      }
    } else {
      assert NumberText(n) == digitsOn;
    }
  }

  /** Every character of a matching string is in its place. */
  lemma MatchedCharactersInPlace(s: string)
    requires Parse(s).Some?
    ensures AllInPlace(s)
  {
    var l := Parse(s).value;
    SpacesInPlace(l.lead);
    NumberInPlace(l.latitude);
    SpacesInPlace(l.beforeComma);
    assert AllInPlace([',']);
    SpacesInPlace(l.afterComma);
    NumberInPlace(l.longitude);
    SpacesInPlace(l.trail);
    InPlaceAppend(NumberText(l.longitude), l.trail);
    InPlaceAppend(l.afterComma, NumberText(l.longitude) + l.trail);
    InPlaceAppend([','], l.afterComma + (NumberText(l.longitude) + l.trail));
    InPlaceAppend(l.beforeComma, [','] + (l.afterComma + (NumberText(l.longitude) + l.trail)));
    InPlaceAppend(NumberText(l.latitude), l.beforeComma + ([','] + (l.afterComma + (NumberText(l.longitude) + l.trail))));
    InPlaceAppend(l.lead, NumberText(l.latitude) + (l.beforeComma + ([','] + (l.afterComma + (NumberText(l.longitude) + l.trail)))));
  }

  /** A string with a character out of place is rejected: '+', an exponent, a point without digits on both sides, a letter. */
  lemma OutOfPlaceRejected(s: string, i: nat)
    requires i < |s| && !CharInPlace(s, i)
    ensures Classify(s) == InvalidFormat
  {
    if Parse(s).Some? {
      MatchedCharactersInPlace(s);
      assert false;
    }
  }

  lemma LastOfAppend(a: string, b: string)
    requires b != []
    ensures (a + b)[|a + b| - 1] == b[|b| - 1]
  {
  }

  /** A number token starts with '-' or a digit and ends with a digit. */
  lemma NumberTextEnds(n: Number)
    requires WellFormedNumber(n)
    ensures |NumberText(n)| > 0
    ensures NumberText(n)[0] == '-' || IsDigit(NumberText(n)[0])
    ensures IsDigit(NumberText(n)[|NumberText(n)| - 1])
  {
    var t := NumberText(n);
    var digitsOn := n.whole + FractionText(n.fraction);
    assert t == SignText(n.negative) + digitsOn;
    assert digitsOn[0] == n.whole[0];
    if n.fraction == [] {
      assert t[|t| - 1] == n.whole[|n.whole| - 1];
    } else {
      assert t[|t| - 1] == n.fraction[|n.fraction| - 1];
    }
  }

  /** A matching string starts with whitespace, '-' or a digit. */
  lemma RenderStart(l: LatLonLayout)
    requires AllSpace(l.lead) && WellFormedNumber(l.latitude)
    ensures |Render(l)| > 0
    ensures IsSpace(Render(l)[0]) || IsDigit(Render(l)[0]) || Render(l)[0] == '-'
  {
    NumberTextEnds(l.latitude);
    var lat := NumberText(l.latitude);
    var latOn := lat + (l.beforeComma + ([','] + (l.afterComma + (NumberText(l.longitude) + l.trail))));
    assert latOn[0] == lat[0];
    assert Render(l) == l.lead + latOn;
    if l.lead != [] {
      assert Render(l)[0] == l.lead[0];
    }
  }

  /** A matching string ends with whitespace or a digit. */
  lemma RenderEnd(l: LatLonLayout)
    requires WellFormedNumber(l.longitude) && AllSpace(l.trail)
    ensures |Render(l)| > 0
    ensures IsSpace(Render(l)[|Render(l)| - 1]) || IsDigit(Render(l)[|Render(l)| - 1])
  {
    var lon := NumberText(l.longitude);
    NumberTextEnds(l.longitude);
    var tail := lon + l.trail;
    var afterComma := l.afterComma + tail;
    var comma := [','] + afterComma;
    var beforeComma := l.beforeComma + comma;
    var latOn := NumberText(l.latitude) + beforeComma;
    if l.trail == [] {
      assert tail == lon;
    } else {
      LastOfAppend(lon, l.trail);
    }
    LastOfAppend(l.afterComma, tail);
    LastOfAppend([','], afterComma);
    LastOfAppend(l.beforeComma, comma);
    LastOfAppend(NumberText(l.latitude), beforeComma);
    LastOfAppend(l.lead, latOn);
  }

  /** The match is anchored: a character after the pattern, or before it, that the pattern cannot absorb makes the string invalid. */
  lemma Anchored(s: string, c: char)
    ensures !IsSpace(c) && !IsDigit(c) ==> Classify(s + [c]) == InvalidFormat
    ensures !IsSpace(c) && !IsDigit(c) && c != '-' ==> Classify([c] + s) == InvalidFormat
  {
    if !IsSpace(c) && !IsDigit(c) && Parse(s + [c]).Some? {
      RenderEnd(Parse(s + [c]).value);
      assert false;
    }
    if !IsSpace(c) && !IsDigit(c) && c != '-' && Parse([c] + s).Some? {
      RenderStart(Parse([c] + s).value);
      assert false;
    }
  }

  /** The seven strings the validator is run on and their verdicts (t_dd.py lines 21-27). */
  lemma SourceCases()
    ensures Classify("13.701819140103558, 100.54416756337254") == ValidInThailand
    ensures Classify("20.0, 105.0") == ValidInThailand
    ensures Classify("4.9, 100.0") == OutsideThailand
    ensures Classify("22.0, 100.0") == OutsideThailand
    ensures Classify("13.5, 96.9") == OutsideThailand
    ensures Classify("13.5, 106.1") == OutsideThailand
    ensures Classify("latitude, longitude") == InvalidFormat
  {
    CaseLine21(); CaseLine22(); CaseLine23(); CaseLine24(); CaseLine25(); CaseLine26();
    CaseLine27();
  }

  /**
   * The bounds are inclusive, the first number is the latitude, and the
   * number grammar refuses '+', a bare or trailing point, and exponents.
   */
  lemma BoundaryAndShapeCases()
    ensures Classify("5,97") == ValidInThailand
    ensures Classify("21,106") == ValidInThailand
    ensures Classify("13.7,100.5") == ValidInThailand
    ensures Classify("100.5,13.7") == OutsideThailand
    ensures Classify("+13.5, 100.5") == InvalidFormat
    ensures Classify(".5, 100.5") == InvalidFormat
    ensures Classify("13., 100.5") == InvalidFormat
    ensures Classify("1e1, 100.5") == InvalidFormat
  {
    CaseInclusiveLow(); CaseInclusiveHigh(); CaseBangkok(); CaseSwapped();
    CaseExplicitPlus(); CaseBarePoint(); CaseTrailingPoint(); CaseExponent();
  }

  lemma CaseLine27()
    ensures Classify("latitude, longitude") == InvalidFormat
  {
    OutOfPlaceRejected("latitude, longitude", 0);
  }

  lemma CaseExplicitPlus()
    ensures Classify("+13.5, 100.5") == InvalidFormat
  {
    OutOfPlaceRejected("+13.5, 100.5", 0);
  }

  lemma CaseBarePoint()
    ensures Classify(".5, 100.5") == InvalidFormat
  {
    OutOfPlaceRejected(".5, 100.5", 0);
  }

  lemma CaseTrailingPoint()
    ensures Classify("13., 100.5") == InvalidFormat
  {
    OutOfPlaceRejected("13., 100.5", 2);
  }

  lemma CaseExponent()
    ensures Classify("1e1, 100.5") == InvalidFormat
  {
    OutOfPlaceRejected("1e1, 100.5", 1);
  }

  const Line21 := LatLonLayout("", Number(false, "13", "701819140103558"), "", " ", Number(false, "100", "54416756337254"), "")

  lemma Line21Latitude()
    ensures NumberText(Line21.latitude) == "13.701819140103558"
  {
  }

  lemma Line21Longitude()
    ensures NumberText(Line21.longitude) == "100.54416756337254"
  {
  }

  lemma RenderLine21()
    ensures Render(Line21) == "13.701819140103558, 100.54416756337254"
  {
    Line21Latitude();
    Line21Longitude();
    Line21Join();
    assert Render(Line21) == "13.701819140103558" + (", " + "100.54416756337254");
  }

  lemma Line21Join()
    ensures "13.701819140103558" + (", " + "100.54416756337254") == "13.701819140103558, 100.54416756337254"
  {
  }

  /**
   * A matched pair of non-negative numbers whose whole parts lie in [5, 21)
   * and [97, 106) is inside, whatever their fractional digits.
   */
  lemma InsideByWholeParts(l: LatLonLayout, s: string, lat: nat, lon: nat)
    requires WellFormed(l) && Render(l) == s
    requires !l.latitude.negative && DigitsValue(l.latitude.whole) == lat && 5 <= lat < 21
    requires !l.longitude.negative && DigitsValue(l.longitude.whole) == lon && 97 <= lon < 106
    ensures Classify(s) == ValidInThailand
  {
    MagnitudeBounds(l.latitude);
    MagnitudeBounds(l.longitude);
    VerdictOfLayout(l, s);
  }

  lemma CaseLine21()
    ensures Classify("13.701819140103558, 100.54416756337254") == ValidInThailand
  {
    assert DigitsValue("13") == 13 by { TwoDigitValue("13"); }
    assert DigitsValue("100") == 100 by { ThreeDigitValue("100"); }
    RenderLine21();
    InsideByWholeParts(Line21, "13.701819140103558, 100.54416756337254", 13, 100);
  }

  const Line22 := LatLonLayout("", Number(false, "20", "0"), "", " ", Number(false, "105", "0"), "")

  lemma RenderLine22()
    ensures Render(Line22) == "20.0, 105.0"
  {
  }

  lemma CaseLine22()
    ensures Classify("20.0, 105.0") == ValidInThailand
  {
    assert DigitsValue("20") == 20 by { TwoDigitValue("20"); }
    assert DigitsValue("0") == 0 by { OneDigitValue("0"); }
    MagnitudeBounds(Line22.latitude);
    assert DigitsValue("105") == 105 by { ThreeDigitValue("105"); }
    assert DigitsValue("0") == 0 by { OneDigitValue("0"); }
    MagnitudeBounds(Line22.longitude);
    RenderLine22();
    VerdictOfLayout(Line22, "20.0, 105.0");
  }

  const Line23 := LatLonLayout("", Number(false, "4", "9"), "", " ", Number(false, "100", "0"), "")

  lemma RenderLine23()
    ensures Render(Line23) == "4.9, 100.0"
  {
  }

  lemma CaseLine23()
    ensures Classify("4.9, 100.0") == OutsideThailand
  {
    assert DigitsValue("4") == 4 by { OneDigitValue("4"); }
    assert DigitsValue("9") == 9 by { OneDigitValue("9"); }
    MagnitudeBounds(Line23.latitude);
    assert DigitsValue("100") == 100 by { ThreeDigitValue("100"); }
    assert DigitsValue("0") == 0 by { OneDigitValue("0"); }
    MagnitudeBounds(Line23.longitude);
    RenderLine23();
    VerdictOfLayout(Line23, "4.9, 100.0");
  }

  const Line24 := LatLonLayout("", Number(false, "22", "0"), "", " ", Number(false, "100", "0"), "")

  lemma RenderLine24()
    ensures Render(Line24) == "22.0, 100.0"
  {
  }

  lemma CaseLine24()
    ensures Classify("22.0, 100.0") == OutsideThailand
  {
    assert DigitsValue("22") == 22 by { TwoDigitValue("22"); }
    assert DigitsValue("0") == 0 by { OneDigitValue("0"); }
    MagnitudeBounds(Line24.latitude);
    assert DigitsValue("100") == 100 by { ThreeDigitValue("100"); }
    assert DigitsValue("0") == 0 by { OneDigitValue("0"); }
    MagnitudeBounds(Line24.longitude);
    RenderLine24();
    VerdictOfLayout(Line24, "22.0, 100.0");
  }

  const Line25 := LatLonLayout("", Number(false, "13", "5"), "", " ", Number(false, "96", "9"), "")

  lemma RenderLine25()
    ensures Render(Line25) == "13.5, 96.9"
  {
  }

  lemma CaseLine25()
    ensures Classify("13.5, 96.9") == OutsideThailand
  {
    assert DigitsValue("13") == 13 by { TwoDigitValue("13"); }
    assert DigitsValue("5") == 5 by { OneDigitValue("5"); }
    MagnitudeBounds(Line25.latitude);
    assert DigitsValue("96") == 96 by { TwoDigitValue("96"); }
    assert DigitsValue("9") == 9 by { OneDigitValue("9"); }
    MagnitudeBounds(Line25.longitude);
    RenderLine25();
    VerdictOfLayout(Line25, "13.5, 96.9");
  }

  const Line26 := LatLonLayout("", Number(false, "13", "5"), "", " ", Number(false, "106", "1"), "")

  lemma RenderLine26()
    ensures Render(Line26) == "13.5, 106.1"
  {
  }

  lemma CaseLine26()
    ensures Classify("13.5, 106.1") == OutsideThailand
  {
    assert DigitsValue("13") == 13 by { TwoDigitValue("13"); }
    assert DigitsValue("5") == 5 by { OneDigitValue("5"); }
    MagnitudeBounds(Line26.latitude);
    assert DigitsValue("106") == 106 by { ThreeDigitValue("106"); }
    assert DigitsValue("1") == 1 by { OneDigitValue("1"); }
    MagnitudeBounds(Line26.longitude);
    RenderLine26();
    VerdictOfLayout(Line26, "13.5, 106.1");
  }

  const InclusiveLow := LatLonLayout("", Number(false, "5", ""), "", "", Number(false, "97", ""), "")

  lemma RenderInclusiveLow()
    ensures Render(InclusiveLow) == "5,97"
  {
  }

  lemma CaseInclusiveLow()
    ensures Classify("5,97") == ValidInThailand
  {
    assert DigitsValue("5") == 5 by { OneDigitValue("5"); }
    MagnitudeBounds(InclusiveLow.latitude);
    assert DigitsValue("97") == 97 by { TwoDigitValue("97"); }
    MagnitudeBounds(InclusiveLow.longitude);
    RenderInclusiveLow();
    VerdictOfLayout(InclusiveLow, "5,97");
  }

  const InclusiveHigh := LatLonLayout("", Number(false, "21", ""), "", "", Number(false, "106", ""), "")

  lemma RenderInclusiveHigh()
    ensures Render(InclusiveHigh) == "21,106"
  {
  }

  lemma CaseInclusiveHigh()
    ensures Classify("21,106") == ValidInThailand
  {
    assert DigitsValue("21") == 21 by { TwoDigitValue("21"); }
    MagnitudeBounds(InclusiveHigh.latitude);
    assert DigitsValue("106") == 106 by { ThreeDigitValue("106"); }
    MagnitudeBounds(InclusiveHigh.longitude);
    RenderInclusiveHigh();
    VerdictOfLayout(InclusiveHigh, "21,106");
  }

  const Bangkok := LatLonLayout("", Number(false, "13", "7"), "", "", Number(false, "100", "5"), "")

  lemma RenderBangkok()
    ensures Render(Bangkok) == "13.7,100.5"
  {
  }

  lemma CaseBangkok()
    ensures Classify("13.7,100.5") == ValidInThailand
  {
    assert DigitsValue("13") == 13 by { TwoDigitValue("13"); }
    assert DigitsValue("7") == 7 by { OneDigitValue("7"); }
    MagnitudeBounds(Bangkok.latitude);
    assert DigitsValue("100") == 100 by { ThreeDigitValue("100"); }
    assert DigitsValue("5") == 5 by { OneDigitValue("5"); }
    MagnitudeBounds(Bangkok.longitude);
    RenderBangkok();
    VerdictOfLayout(Bangkok, "13.7,100.5");
  }

  const Swapped := LatLonLayout("", Number(false, "100", "5"), "", "", Number(false, "13", "7"), "")

  lemma RenderSwapped()
    ensures Render(Swapped) == "100.5,13.7"
  {
  }

  lemma CaseSwapped()
    ensures Classify("100.5,13.7") == OutsideThailand
  {
    assert DigitsValue("100") == 100 by { ThreeDigitValue("100"); }
    assert DigitsValue("5") == 5 by { OneDigitValue("5"); }
    MagnitudeBounds(Swapped.latitude);
    assert DigitsValue("13") == 13 by { TwoDigitValue("13"); }
    assert DigitsValue("7") == 7 by { OneDigitValue("7"); }
    MagnitudeBounds(Swapped.longitude);
    RenderSwapped();
    VerdictOfLayout(Swapped, "100.5,13.7");
  }

  const CompactSouth := LatLonLayout("", Number(false, "4", "9"), "", "", Number(false, "100", "0"), "")

  lemma RenderCompactSouth()
    ensures Render(CompactSouth) == "4.9,100.0"
  {
  }

  /** Without the space after the comma: still a match, still south of the box. */
  lemma CaseCompactSouth()
    ensures Classify("4.9,100.0") == OutsideThailand
  {
    assert DigitsValue("4") == 4 by { OneDigitValue("4"); }
    MagnitudeBounds(CompactSouth.latitude);
    assert DigitsValue("100") == 100 by { ThreeDigitValue("100"); }
    assert DigitsValue("0") == 0 by { OneDigitValue("0"); }
    MagnitudeBounds(CompactSouth.longitude);
    RenderCompactSouth();
    VerdictOfLayout(CompactSouth, "4.9,100.0");
  }

  const SouthernHemisphere := LatLonLayout("", Number(true, "13", "5"), "", " ", Number(false, "100", "5"), "")

  lemma RenderSouthernHemisphere()
    ensures Render(SouthernHemisphere) == "-13.5, 100.5"
  {
  }

  /** A leading '-' is part of the number: the latitude is -13.5, south of the box. */
  lemma CaseSouthernHemisphere()
    ensures Match("-13.5, 100.5") == Some(Coordinates(Number(true, "13", "5"), Number(false, "100", "5")))
    ensures Value(Number(true, "13", "5")) == -13.5
    ensures Classify("-13.5, 100.5") == OutsideThailand
  {
    assert DigitsValue("13") == 13 by { TwoDigitValue("13"); }
    MagnitudeBounds(SouthernHemisphere.latitude);
    assert DigitsValue("100") == 100 by { ThreeDigitValue("100"); }
    MagnitudeBounds(SouthernHemisphere.longitude);
    assert DigitsValue("5") == 5 by { OneDigitValue("5"); }
    assert Value(SouthernHemisphere.latitude) == -13.5;
    RenderSouthernHemisphere();
    ParseRender(SouthernHemisphere);
    VerdictOfLayout(SouthernHemisphere, "-13.5, 100.5");
  }
}
