/**
 * The UTM coordinate validator: the anchored pattern
 *   optional whitespace, zone 47 or 48, optional whitespace, comma,
 *   optional whitespace, a 6-digit easting, optional whitespace, comma,
 *   optional whitespace, a 6- or 7-digit northing, optional whitespace
 * followed by an inclusive range check shared by both zones, and the
 * three-way verdict given to each coordinate string.
 */
module UtmValidator {
  import opened Results
  import opened Scan

  /** The three capture groups of the pattern, as text: what `match.groups()` yields. */
  datatype UtmGroups = UtmGroups(zone: string, easting: string, northing: string)

  /**
   * One way of reading a string against the pattern: every whitespace run
   * and every group, in order. A string matches exactly when it is the
   * rendering of a well-formed layout.
   */
  datatype UtmLayout = UtmLayout(
    lead: string, zone: string, beforeFirstComma: string, afterFirstComma: string,
    easting: string, beforeSecondComma: string, afterSecondComma: string,
    northing: string, trail: string)

  const MinEasting := 166000
  const MaxEasting := 833000
  const MinNorthing := 600000
  const MaxNorthing := 2200000

  predicate IsZoneToken(z: string) {
    z == "47" || z == "48"
  }

  /** Every part of the layout is of the kind the pattern allows, except that the widths of the two numbers are free. */
  predicate WellShaped(l: UtmLayout) {
    && AllSpace(l.lead) && IsZoneToken(l.zone)
    && AllSpace(l.beforeFirstComma) && AllSpace(l.afterFirstComma)
    && IsNumeral(l.easting)
    && AllSpace(l.beforeSecondComma) && AllSpace(l.afterSecondComma)
    && IsNumeral(l.northing) && AllSpace(l.trail)
  }

  /** The pattern: a well-shaped layout with a 6-digit easting and a 6- or 7-digit northing. */
  predicate WellFormed(l: UtmLayout) {
    WellShaped(l) && |l.easting| == 6 && 6 <= |l.northing| <= 7
  }

  function Render(l: UtmLayout): string {
    l.lead + (l.zone + (l.beforeFirstComma + ([','] + (l.afterFirstComma + (l.easting
      + (l.beforeSecondComma + ([','] + (l.afterSecondComma + (l.northing + l.trail)))))))))
  }

  function Groups(l: UtmLayout): UtmGroups {
    UtmGroups(l.zone, l.easting, l.northing)
  }

  /** The strings the pattern describes. */
  ghost predicate Matches(s: string) {
    exists l :: WellFormed(l) && Render(l) == s
  }

  /** `(\d{6,7})\s*$`: the northing and the trailing whitespace, which must reach the end. */
  function ParseNorthing(s: string): (r: Option<(string, string)>)
    ensures r.Some? ==> IsNumeral(r.value.0) && 6 <= |r.value.0| <= 7 && AllSpace(r.value.1)
    ensures r.Some? ==> r.value.0 + r.value.1 == s
  {
    var (northing, a) := SplitDigits(s);
    if !(6 <= |northing| <= 7) then None
    else
      var (trail, rest) := SplitSpace(a);
      if rest != [] then None
      else
        assert trail + rest == trail;
        Some((northing, trail))
  }

  /** Everything after the zone: `\s*,\s*(\d{6})\s*,\s*(\d{6,7})\s*$`. */
  function ParseAfterZone(s: string): (r: Option<UtmLayout>)
    ensures r.Some? ==> var l := r.value;
      && AllSpace(l.beforeFirstComma) && AllSpace(l.afterFirstComma) && IsNumeral(l.easting) && |l.easting| == 6
      && AllSpace(l.beforeSecondComma) && AllSpace(l.afterSecondComma)
      && IsNumeral(l.northing) && 6 <= |l.northing| <= 7 && AllSpace(l.trail)
      && l.beforeFirstComma + ([','] + (l.afterFirstComma + (l.easting + (l.beforeSecondComma
           + ([','] + (l.afterSecondComma + (l.northing + l.trail))))))) == s
  {
    match ParseComma(s)
    case None => None
    case Some((w1, w2, a)) =>
      var (easting, b) := SplitDigits(a);
      if |easting| != 6 then None
      else
        match ParseComma(b)
        case None => None
        case Some((w3, w4, c)) =>
          match ParseNorthing(c)
          case None => None
          case Some((northing, trail)) =>
            Some(UtmLayout([], [], w1, w2, easting, w3, w4, northing, trail))
  }

  /** A left-to-right recogniser for the pattern that keeps every whitespace run it skips. */
  function Parse(s: string): (r: Option<UtmLayout>)
    ensures r.Some? ==> WellFormed(r.value) && Render(r.value) == s
  {
    var (lead, a) := SplitSpace(s);
    if |a| < 2 || !IsZoneToken(a[..2]) then None
    else
      match ParseAfterZone(a[2..])
      case None => None
      case Some(l) =>
        assert a == a[..2] + a[2..];
        Some(l.(lead := lead, zone := a[..2]))
  }

  /** `utm_pattern.match(s)`, reduced to its groups. */
  function Match(s: string): (r: Option<UtmGroups>)
    ensures r.Some? ==> IsZoneToken(r.value.zone)
    ensures r.Some? ==> IsNumeral(r.value.easting) && |r.value.easting| == 6
    ensures r.Some? ==> IsNumeral(r.value.northing) && 6 <= |r.value.northing| <= 7
  {
    match Parse(s)
    case None => None
    case Some(l) => Some(Groups(l))
  }

  /**
   * Reading back a rendered layout gives the layout itself when its numbers
   * have the widths the pattern asks for, and no match at all otherwise: a 5-
   * or 7-digit easting or an 8-digit northing is rejected, never truncated.
   */
  lemma {:induction false} ParseRender(l: UtmLayout)
    requires WellShaped(l)
    ensures Parse(Render(l)) == if |l.easting| == 6 && 6 <= |l.northing| <= 7 then Some(l) else None
  {
    var secondComma := l.beforeSecondComma + ([','] + (l.afterSecondComma + (l.northing + l.trail)));
    var eastingOn := l.easting + secondComma;
    var afterZone := l.beforeFirstComma + ([','] + (l.afterFirstComma + eastingOn));
    var zoneOn := l.zone + afterZone;
    assert Render(l) == l.lead + zoneOn;
    SplitSpaceOf(l.lead, zoneOn);
    assert zoneOn[..2] == l.zone && zoneOn[2..] == afterZone;
    ParseCommaOf(l.beforeFirstComma, l.afterFirstComma, eastingOn);
    SplitDigitsOf(l.easting, secondComma);
    if |l.easting| == 6 {
      ParseCommaOf(l.beforeSecondComma, l.afterSecondComma, l.northing + l.trail);
      ParseNorthingOf(l.northing, l.trail);
    }
  }

  /** The northing group takes every digit, so a northing outside 6 to 7 digits is no match. */
  lemma ParseNorthingOf(northing: string, trail: string)
    requires IsNumeral(northing) && AllSpace(trail)
    ensures ParseNorthing(northing + trail) == if 6 <= |northing| <= 7 then Some((northing, trail)) else None
  {
    SplitDigitsOf(northing, trail);
    SplitSpaceOf(trail, []);
    assert trail + [] == trail;
  }

  /** The recogniser accepts exactly the strings the pattern describes, with the groups of the unique reading. */
  lemma PatternExact(s: string, g: UtmGroups)
    ensures Match(s) == Some(g) <==> exists l :: WellFormed(l) && Render(l) == s && Groups(l) == g
  {
    if l :| WellFormed(l) && Render(l) == s && Groups(l) == g {
      ParseRender(l);
    }
  }

  /** `is_within_thailand_utm`: the zone and the two coordinates, converted with int(), checked against inclusive bounds. */
  function IsWithinThailandUtm(zone: string, easting: string, northing: string): bool
    requires IsNumeral(zone) && IsNumeral(easting) && IsNumeral(northing)
  {
    var z, e, n := DigitsValue(zone), DigitsValue(easting), DigitsValue(northing);
    (z == 47 || z == 48) && MinEasting <= e <= MaxEasting && MinNorthing <= n <= MaxNorthing
  }

  /** The verdict for one string: the pattern first, the range only for a match. */
  function Classify(s: string): Verdict {
    match Match(s)
    case None => InvalidFormat
    case Some(g) =>
      if IsWithinThailandUtm(g.zone, g.easting, g.northing) then ValidInThailand else OutsideThailand
  }

  /**
   * For a matched string the zone conjunct always holds: only the easting and
   * the northing decide the range check. (A string matches exactly when it
   * renders a well-formed layout: PatternExact.)
   */
  lemma MatchedZoneAlwaysInRange(l: UtmLayout)
    requires WellFormed(l)
    ensures DigitsValue(l.zone) == 47 || DigitsValue(l.zone) == 48
    ensures IsWithinThailandUtm(l.zone, l.easting, l.northing)
        <==> MinEasting <= DigitsValue(l.easting) <= MaxEasting && MinNorthing <= DigitsValue(l.northing) <= MaxNorthing
  {
    ZoneValue();
  }

  /** The numeric values of the two zone tokens. */
  lemma ZoneValue()
    ensures IsNumeral("47") && DigitsValue("47") == 47
    ensures IsNumeral("48") && DigitsValue("48") == 48
  {
    DigitsValueSnoc("4", '7');
    DigitsValueSnoc("4", '8');
    assert "4" + ['7'] == "47" && "4" + ['8'] == "48";
  }

  /** The bounds are the same for zone 47 and zone 48: swapping the zone of a matched string never changes its verdict. */
  lemma ZoneSwapKeepsVerdict(l: UtmLayout)
    requires WellFormed(l)
    ensures Classify(Render(l)) == Classify(Render(l.(zone := "47")))
    ensures Classify(Render(l)) == Classify(Render(l.(zone := "48")))
  {
    ParseRender(l);
    ParseRender(l.(zone := "47"));
    ParseRender(l.(zone := "48"));
    ZoneValue();
  }

  /** The verdict of a string read through a well-formed layout. */
  lemma ClassifyLayout(l: UtmLayout)
    requires WellFormed(l)
    ensures Classify(Render(l)) == if IsWithinThailandUtm(l.zone, l.easting, l.northing) then ValidInThailand else OutsideThailand
  {
    ParseRender(l);
  }

  /** The verdict of a string read through a well-formed layout, in terms of the values of its numbers. */
  lemma VerdictOfLayout(l: UtmLayout, s: string)
    requires WellFormed(l) && Render(l) == s
    ensures Classify(s) ==
      if MinEasting <= DigitsValue(l.easting) <= MaxEasting && MinNorthing <= DigitsValue(l.northing) <= MaxNorthing
      then ValidInThailand else OutsideThailand
  {
    ParseRender(l);
    ZoneValue();
  }

  /** The verdict, stated against the pattern rather than the recogniser. */
  lemma ClassifyAgainstPattern(s: string)
    ensures Classify(s) == InvalidFormat <==> !Matches(s)
    ensures Classify(s) == ValidInThailand <==>
      exists l :: WellFormed(l) && Render(l) == s && IsWithinThailandUtm(l.zone, l.easting, l.northing)
  {
    forall l | WellFormed(l) && Render(l) == s
      ensures Parse(s) == Some(l)
    {
      ParseRender(l);
    }
  }

  /** The first character of a matching string is whitespace or the zone's '4'; the last is whitespace or a digit of the northing. */
  lemma RenderEnds(l: UtmLayout)
    requires WellFormed(l)
    ensures |Render(l)| > 0
    ensures IsSpace(Render(l)[0]) || Render(l)[0] == '4'
    ensures IsSpace(Render(l)[|Render(l)| - 1]) || IsDigit(Render(l)[|Render(l)| - 1])
  {
    var s := Render(l);
    var tail := l.northing + l.trail;
    assert s[|s| - 1] == tail[|tail| - 1];
    assert s[0] == (l.lead + l.zone)[0];
  }

  /** The match is anchored: a character after the pattern, or before it, that the pattern cannot absorb makes the string invalid. */
  lemma Anchored(s: string, c: char)
    ensures !IsSpace(c) && !IsDigit(c) ==> Classify(s + [c]) == InvalidFormat
    ensures !IsSpace(c) && c != '4' ==> Classify([c] + s) == InvalidFormat
  {
    if !IsSpace(c) && !IsDigit(c) && Parse(s + [c]).Some? {
      var t := s + [c];
      RenderEnds(Parse(t).value);
      assert false;
    }
    if !IsSpace(c) && c != '4' && Parse([c] + s).Some? {
      RenderEnds(Parse([c] + s).value);
      assert false;
    }
  }

  /** The ten strings the validator is run on and their verdicts (zone 49 is refused by the pattern, not by the range). */
  lemma SourceCases()
    ensures Classify("47,666666,1523456") == ValidInThailand
    ensures Classify("  47 , 666666 , 1523456 ") == ValidInThailand
    ensures Classify("\t47\t,\t500000\t,\t987654") == ValidInThailand
    ensures Classify("47 ,100000 ,1500000") == OutsideThailand
    ensures Classify("48, 900000, 2000000") == OutsideThailand
    ensures Classify("49 , 500000 , 1000000") == InvalidFormat
    ensures Classify("47, 600000, 3000000") == OutsideThailand
    ensures Classify("47, 600000, 500000") == OutsideThailand
    ensures Classify("48, 500000, 1500000") == ValidInThailand
    ensures Classify("zone , easting , northing") == InvalidFormat
  {
    CaseLine29(); CaseLine30(); CaseLine31(); CaseLine32(); CaseLine33();
    CaseLines34And38();
    CaseLine35(); CaseLine36(); CaseLine37();
  }

  const Line29 := UtmLayout("", "47", "", "", "666666", "", "", "1523456", "")

  lemma RenderLine29()
    ensures Render(Line29) == "47,666666,1523456"
  {
  }

  lemma CaseLine29()
    ensures Classify("47,666666,1523456") == ValidInThailand
  {
    assert DigitsValue("666666") == 666666 by { SixDigitValue("666666"); }
    assert DigitsValue("1523456") == 1523456 by { SevenDigitValue("1523456"); }
    RenderLine29();
    VerdictOfLayout(Line29, "47,666666,1523456");
  }

  const Line30 := UtmLayout("  ", "47", " ", " ", "666666", " ", " ", "1523456", " ")

  lemma RenderLine30()
    ensures Render(Line30) == "  47 , 666666 , 1523456 "
  {
  }

  lemma CaseLine30()
    ensures Classify("  47 , 666666 , 1523456 ") == ValidInThailand
  {
    assert DigitsValue("666666") == 666666 by { SixDigitValue("666666"); }
    assert DigitsValue("1523456") == 1523456 by { SevenDigitValue("1523456"); }
    RenderLine30();
    VerdictOfLayout(Line30, "  47 , 666666 , 1523456 ");
  }

  const Line31 := UtmLayout("\t", "47", "\t", "\t", "500000", "\t", "\t", "987654", "")

  lemma RenderLine31()
    ensures Render(Line31) == "\t47\t,\t500000\t,\t987654"
  {
  }

  lemma CaseLine31()
    ensures Classify("\t47\t,\t500000\t,\t987654") == ValidInThailand
  {
    assert DigitsValue("500000") == 500000 by { SixDigitValue("500000"); }
    assert DigitsValue("987654") == 987654 by { SixDigitValue("987654"); }
    RenderLine31();
    VerdictOfLayout(Line31, "\t47\t,\t500000\t,\t987654");
  }

  const Line32 := UtmLayout("", "47", " ", "", "100000", " ", "", "1500000", "")

  lemma RenderLine32()
    ensures Render(Line32) == "47 ,100000 ,1500000"
  {
  }

  lemma CaseLine32()
    ensures Classify("47 ,100000 ,1500000") == OutsideThailand
  {
    assert DigitsValue("100000") == 100000 by { SixDigitValue("100000"); }
    assert DigitsValue("1500000") == 1500000 by { SevenDigitValue("1500000"); }
    RenderLine32();
    VerdictOfLayout(Line32, "47 ,100000 ,1500000");
  }

  const Line33 := UtmLayout("", "48", "", " ", "900000", "", " ", "2000000", "")

  lemma RenderLine33()
    ensures Render(Line33) == "48, 900000, 2000000"
  {
  }

  lemma CaseLine33()
    ensures Classify("48, 900000, 2000000") == OutsideThailand
  {
    assert DigitsValue("900000") == 900000 by { SixDigitValue("900000"); }
    assert DigitsValue("2000000") == 2000000 by { SevenDigitValue("2000000"); }
    RenderLine33();
    VerdictOfLayout(Line33, "48, 900000, 2000000");
  }

  const Line35 := UtmLayout("", "47", "", " ", "600000", "", " ", "3000000", "")

  lemma RenderLine35()
    ensures Render(Line35) == "47, 600000, 3000000"
  {
  }

  lemma CaseLine35()
    ensures Classify("47, 600000, 3000000") == OutsideThailand
  {
    assert DigitsValue("600000") == 600000 by { SixDigitValue("600000"); }
    assert DigitsValue("3000000") == 3000000 by { SevenDigitValue("3000000"); }
    RenderLine35();
    VerdictOfLayout(Line35, "47, 600000, 3000000");
  }

  const Line36 := UtmLayout("", "47", "", " ", "600000", "", " ", "500000", "")

  lemma RenderLine36()
    ensures Render(Line36) == "47, 600000, 500000"
  {
  }

  lemma CaseLine36()
    ensures Classify("47, 600000, 500000") == OutsideThailand
  {
    assert DigitsValue("600000") == 600000 by { SixDigitValue("600000"); }
    assert DigitsValue("500000") == 500000 by { SixDigitValue("500000"); }
    RenderLine36();
    VerdictOfLayout(Line36, "47, 600000, 500000");
  }

  const Line37 := UtmLayout("", "48", "", " ", "500000", "", " ", "1500000", "")

  lemma RenderLine37()
    ensures Render(Line37) == "48, 500000, 1500000"
  {
  }

  lemma CaseLine37()
    ensures Classify("48, 500000, 1500000") == ValidInThailand
  {
    assert DigitsValue("500000") == 500000 by { SixDigitValue("500000"); }
    assert DigitsValue("1500000") == 1500000 by { SevenDigitValue("1500000"); }
    RenderLine37();
    VerdictOfLayout(Line37, "48, 500000, 1500000");
  }

  /** A string whose first two characters, with no whitespace before them, are not a zone is rejected. */
  lemma BadZoneRejected(s: string)
    requires s != [] && !IsSpace(s[0])
    requires |s| < 2 || !IsZoneToken(s[..2])
    ensures Classify(s) == InvalidFormat
  {
    SplitSpaceOf([], s);
    assert [] + s == s;
  }

  lemma CaseLines34And38()
    ensures Classify("49 , 500000 , 1000000") == InvalidFormat
    ensures Classify("zone , easting , northing") == InvalidFormat
  {
    var s := "49 , 500000 , 1000000";
    assert s[..2][1] == '9';
    BadZoneRejected(s);
    BadZoneRejected("zone , easting , northing");
  }

  /** An easting of 5 or 7 digits, a northing of 8 digits and trailing text are all rejected by the pattern. */
  lemma WidthAndTrailingRejections()
    ensures Classify("47,66666,1523456") == InvalidFormat
    ensures Classify("47,6666666,1523456") == InvalidFormat
    ensures Classify("47,666666,15234567") == InvalidFormat
    ensures Classify("47,666666,1523456 m") == InvalidFormat
  {
    ShortEastingRejected();
    LongEastingRejected();
    LongNorthingRejected();
    TrailingTextRejected();
  }

  const ShortEasting := UtmLayout("", "47", "", "", "66666", "", "", "1523456", "")

  lemma RenderShortEasting()
    ensures Render(ShortEasting) == "47,66666,1523456"
  {
  }

  lemma ShortEastingRejected()
    ensures Classify("47,66666,1523456") == InvalidFormat
  {
    RenderShortEasting();
    RejectLayout(ShortEasting, "47,66666,1523456");
  }

  const LongEasting := UtmLayout("", "47", "", "", "6666666", "", "", "1523456", "")

  lemma RenderLongEasting()
    ensures Render(LongEasting) == "47,6666666,1523456"
  {
  }

  lemma LongEastingRejected()
    ensures Classify("47,6666666,1523456") == InvalidFormat
  {
    RenderLongEasting();
    RejectLayout(LongEasting, "47,6666666,1523456");
  }

  const LongNorthing := UtmLayout("", "47", "", "", "666666", "", "", "15234567", "")

  lemma RenderLongNorthing()
    ensures Render(LongNorthing) == "47,666666,15234567"
  {
  }

  lemma LongNorthingRejected()
    ensures Classify("47,666666,15234567") == InvalidFormat
  {
    RenderLongNorthing();
    RejectLayout(LongNorthing, "47,666666,15234567");
  }

  lemma TrailingTextRejected()
    ensures Classify("47,666666,1523456 m") == InvalidFormat
  {
    assert "47,666666,1523456 " + ['m'] == "47,666666,1523456 m";
    Anchored("47,666666,1523456 ", 'm');
  }

  /** A well-shaped layout whose numbers have the wrong widths renders to a string the pattern rejects. */
  lemma RejectLayout(l: UtmLayout, s: string)
    requires WellShaped(l) && Render(l) == s
    requires !(|l.easting| == 6 && 6 <= |l.northing| <= 7)
    ensures Classify(s) == InvalidFormat
  {
    ParseRender(l);
  }

  /** The same strings written without spaces: the zone 49 is refused by the pattern; a 3000000 northing matches and is out of range. */
  lemma CompactCases()
    ensures Classify("49,500000,1000000") == InvalidFormat
    ensures Classify("47,600000,3000000") == OutsideThailand
  {
    var s := "49,500000,1000000";
    assert s[..2][1] == '9';
    BadZoneRejected(s);
    CaseCompactNorthing();
  }

  const CompactNorthing := UtmLayout("", "47", "", "", "600000", "", "", "3000000", "")

  lemma RenderCompactNorthing()
    ensures Render(CompactNorthing) == "47,600000,3000000"
  {
  }

  lemma CaseCompactNorthing()
    ensures Classify("47,600000,3000000") == OutsideThailand
  {
    assert DigitsValue("600000") == 600000 by { SixDigitValue("600000"); }
    assert DigitsValue("3000000") == 3000000 by { SevenDigitValue("3000000"); }
    RenderCompactNorthing();
    VerdictOfLayout(CompactNorthing, "47,600000,3000000");
  }
}
