# GeofenceForCBS core, modelled in Dafny

This project models the checkable logic of a small geo-fencing toolkit for Thailand. The toolkit is used for community-based surveillance. Three pieces are modelled:

- **UTM coordinate validator** (`t_utm.py`).
  - It matches `zone,easting,northing` against an anchored pattern. The zone is `47` or `48`, the easting has 6 digits and the northing 6 or 7. Whitespace is free around the commas and at both ends.
  - It then checks a matched string against Thailand's inclusive UTM ranges. The ranges are the same for both zones.
  - Each string gets one of three verdicts: invalid format, valid but outside Thailand, or valid in Thailand.
- **Decimal latitude/longitude validator** (`t_dd.py`).
  - It matches `lat,lon`. A number is an optional `-`, digits, and an optional `.digits`.
  - It then checks the pair against the inclusive box of 5 to 21 degrees north and 97 to 106 degrees east.
  - The verdicts are the same three.
- **Fence exporter** (`ThGeoFence.py`).
  - It looks up a fence record by province code (`HASC_1` in layer `Changwat`), district code (`HASC_2` in layer `Amphoe`) or GeoHash code (`gh` in layer `Geohash<length>`).
  - It turns the record's polygon or multi-polygon into KML features:
    - one blue-filled polygon per part, named `Polygon` or `Polygon 1`, `Polygon 2`, …;
    - the first feature carries an HTML table of the record's attributes as its description.

Modules:

- `Results` (`results.dfy`): `Option` and `Result`.
- `Scan` (`scan.dfy`):
  - ASCII character classes;
  - greedy whitespace and digit runs, and the `\s*,\s*` separator;
  - the value of a digit string, as Python's `int()` gives it;
  - the decimal text of a natural number, as `str()` gives it.
- `UtmValidator` (`utm.dfy`), `DecimalValidator` (`latlon.dfy`): the two validators.
- `KmlExport` (`kml.dfy`): `PlotKML` and `_add_polygon_to_kml`. The KML document is a class `Kml` whose `features` list grows in place.
- `FenceLookup` (`fence.dfy`): the exact-match lookups, the layer chosen by the option, and the export run.

How the patterns are modelled:

- Each regular expression is a deterministic recogniser, `Parse`. It returns a *layout*: every whitespace run and every group of the string, in order.
- `Render` turns a layout back into text.
- A string is described by the pattern (`Matches`) exactly when it is the rendering of a well-formed layout.
- `PatternExact` proves that the recogniser accepts exactly those strings, with the groups of the reading.

Parsed decimal numbers are exact rational values (`real`), not binary floating point. Whitespace is the ASCII set: space, tab, line feed, vertical tab, form feed and carriage return. Digits are `0` to `9`.

Where a comment in the source and the code disagree, the model follows the code. The test case at `t_utm.py:35` is commented `# invalid northing`, but the string matches the pattern and fails only the range check, so the program prints it as a valid format outside the range. `UtmValidator.CaseLine35` proves that verdict, and `UtmValidator.CompactCases` proves it for the same string without spaces.

## Model

| member | source | states |
|---|---|---|
| Scan.SplitSpace | t_utm.py:5 | `\s*` taken greedily: the run is all whitespace, the rest does not start with whitespace, and run + rest is the input |
| Scan.SplitDigits | t_utm.py:8 | `\d` taken greedily: the run is all digits, the rest does not start with a digit, and run + rest is the input |
| Scan.SplitSpaceOf | t_utm.py:7 | a whitespace run followed by non-whitespace splits exactly at the boundary |
| Scan.SplitDigitsOf | t_utm.py:8 | a digit run followed by a non-digit splits exactly at the boundary |
| Scan.ParseComma | t_utm.py:7 | `\s*,\s*`: the whitespace before and after the comma, and the rest, reassemble the input |
| Scan.ParseCommaOf | t_utm.py:9 | reading `\s*,\s*` back returns the same two whitespace runs and the rest |
| Scan.DigitsValue | t_utm.py:16-18 | `int()` of a digit string is below 10 to the power of its length |
| Scan.DigitsValueSnoc | t_utm.py:16-18 | appending a digit multiplies the value by ten and adds the digit |
| Scan.DecimalText | ThGeoFence.py:58 | the decimal text of n is a numeral whose value is n, with no leading zero |
| Scan.DecimalTextDistinct | ThGeoFence.py:58 | distinct numbers have distinct decimal texts |
| UtmValidator.ParseNorthing | t_utm.py:10-11 | `(\d{6,7})\s*$`: a 6- or 7-digit northing, then whitespace to the end |
| UtmValidator.ParseAfterZone | t_utm.py:7-11 | everything after the zone: separators, a 6-digit easting, separators, northing, trailing whitespace; the parts reassemble the input |
| UtmValidator.Parse | t_utm.py:4-12 | an accepted string yields a well-formed layout that renders back to that string |
| UtmValidator.ParseNorthingOf | t_utm.py:10-11 | a rendered northing reads back when it has 6 or 7 digits, and no other width is accepted |
| UtmValidator.ParseRender | t_utm.py:4-12 | a rendered layout reads back as itself when the widths fit, and is rejected (never truncated) otherwise |
| UtmValidator.PatternExact | t_utm.py:4-12 | the match yields groups g exactly when the string renders a well-formed layout with groups g |
| UtmValidator.Match | t_utm.py:43-45 | a match yields the zone `47` or `48`, a 6-digit easting and a 6- or 7-digit northing |
| UtmValidator.IsWithinThailandUtm | t_utm.py:15-25 | `int()` of the zone, easting and northing: the zone is 47 or 48, 166000 <= easting <= 833000 and 600000 <= northing <= 2200000, all inclusive |
| UtmValidator.Classify | t_utm.py:42-51 | invalid format when there is no match; otherwise valid when the range check holds and outside when it does not |
| UtmValidator.MatchedZoneAlwaysInRange | t_utm.py:15-25 | for a matched string the zone is 47 or 48, so the range check holds exactly when easting and northing are within their inclusive bounds |
| UtmValidator.ZoneSwapKeepsVerdict | t_utm.py:20-25 | replacing the zone of a matched string by 47 or by 48 never changes its verdict |
| UtmValidator.ClassifyLayout | t_utm.py:42-51 | a matched string is valid exactly when the range check holds, otherwise outside |
| UtmValidator.VerdictOfLayout | t_utm.py:42-51 | the verdict of a matched string, in terms of the easting and northing values |
| UtmValidator.ClassifyAgainstPattern | t_utm.py:42-51 | invalid format exactly when the pattern does not describe the string; valid exactly when some reading is within range |
| UtmValidator.RenderEnds | t_utm.py:5-11 | a matching string starts with whitespace or the zone's 4 and ends with whitespace or a digit |
| UtmValidator.Anchored | t_utm.py:5-11 | a character the pattern cannot absorb, appended or prepended, makes any string invalid |
| UtmValidator.BadZoneRejected | t_utm.py:6 | a string whose first two characters are not 47 or 48 and has no leading whitespace is invalid |
| UtmValidator.RejectLayout | t_utm.py:8-10 | a layout whose easting is not 6 digits, or whose northing is not 6 or 7, renders to an invalid string |
| UtmValidator.SourceCases | t_utm.py:28-39 | the ten listed strings get verdicts valid, valid, valid, outside, outside, invalid, outside, outside, valid, invalid |
| UtmValidator.CaseLine29 | t_utm.py:29 | `"47,666666,1523456"` is valid |
| UtmValidator.CaseLine30 | t_utm.py:30 | leading, trailing and inner spaces: valid |
| UtmValidator.CaseLine31 | t_utm.py:31 | tab-separated, with a 6-digit northing: valid |
| UtmValidator.CaseLine32 | t_utm.py:32 | easting 100000 is below the range: outside |
| UtmValidator.CaseLine33 | t_utm.py:33 | easting 900000 is above the range: outside |
| UtmValidator.CaseLines34And38 | t_utm.py:34-38 | zone 49 and a non-numeric string are invalid format |
| UtmValidator.CaseLine35 | t_utm.py:35 | northing 3000000 is above the range: outside |
| UtmValidator.CaseLine36 | t_utm.py:36 | northing 500000 is below the range: outside |
| UtmValidator.CaseLine37 | t_utm.py:37 | zone 48 within range: valid |
| UtmValidator.CompactCases | t_utm.py:34-35 | the same zone-49 and large-northing strings without spaces: invalid, and outside |
| UtmValidator.CaseCompactNorthing | t_utm.py:35 | `"47,600000,3000000"` matches and is outside |
| UtmValidator.WidthAndTrailingRejections | t_utm.py:8-11 | a 5- or 7-digit easting, an 8-digit northing and trailing text are each invalid format |
| UtmValidator.ShortEastingRejected | t_utm.py:8 | a 5-digit easting is invalid format |
| UtmValidator.LongEastingRejected | t_utm.py:8 | a 7-digit easting is invalid format |
| UtmValidator.LongNorthingRejected | t_utm.py:10 | an 8-digit northing is invalid format |
| UtmValidator.TrailingTextRejected | t_utm.py:11 | text after the trailing whitespace is invalid format |
| DecimalValidator.ParseFraction | t_dd.py:6 | `(?:\.\d+)?`: a point is taken only with the digits after it; the fraction is all digits and reassembles the input |
| DecimalValidator.ParseUnsigned | t_dd.py:6 | `\d+(?:\.\d+)?`: at least one integer digit, then the optional fraction, reassembling the input |
| DecimalValidator.ParseNumber | t_dd.py:6 | `-?\d+(?:\.\d+)?`: a well-formed number token whose text, followed by the rest, is the input |
| DecimalValidator.ParseFractionOf | t_dd.py:6 | a rendered fraction part reads back as itself |
| DecimalValidator.ParseUnsignedOf | t_dd.py:6 | rendered integer and fraction digits read back as themselves |
| DecimalValidator.ParseNumberOf | t_dd.py:8 | a rendered number token followed by a non-digit, non-point reads back as itself |
| DecimalValidator.Parse | t_dd.py:4-10 | an accepted string yields a well-formed layout that renders back to that string |
| DecimalValidator.ParseRender | t_dd.py:4-10 | every well-formed layout reads back as itself |
| DecimalValidator.PatternExact | t_dd.py:4-10 | the match yields (latitude, longitude) exactly when the string renders a well-formed layout with those numbers, first latitude then longitude |
| DecimalValidator.Match | t_dd.py:32-34 | a match yields two well-formed number tokens, latitude first |
| DecimalValidator.Value | t_dd.py:34 | the exact value of a token: never positive with '-' and never negative without it, and its integer part is the integer digits |
| DecimalValidator.IsWithinThailand | t_dd.py:12-17 | 5 <= lat <= 21 and 97 <= lon <= 106, bounds inclusive |
| DecimalValidator.Classify | t_dd.py:31-40 | invalid format when there is no match; otherwise valid when both exact values lie in the box and outside when they do not |
| DecimalValidator.MagnitudeBounds | t_dd.py:34 | a number's value lies between its integer part and the next integer, and equals the integer part exactly when the fraction is zero |
| DecimalValidator.VerdictOfLayout | t_dd.py:13-17 | a matched string is valid exactly when 5 <= lat <= 21 and 97 <= lon <= 106, bounds inclusive, otherwise outside |
| DecimalValidator.InsideByWholeParts | t_dd.py:13-17 | non-negative numbers with integer parts in [5, 21) and [97, 106) are inside, whatever their fraction digits |
| DecimalValidator.ClassifyAgainstPattern | t_dd.py:31-40 | invalid format exactly when the pattern does not describe the string; valid exactly when a reading lies in the box |
| DecimalValidator.InPlaceAppend | t_dd.py:4-10 | joining two strings whose characters are all in place keeps every character in place |
| DecimalValidator.NumberInPlace | t_dd.py:6 | a number token has '-' only before a digit and '.' only between digits |
| DecimalValidator.MatchedCharactersInPlace | t_dd.py:4-10 | every character of a matching string is whitespace, a digit, the comma, a '-' before a digit, or a '.' between digits |
| DecimalValidator.OutOfPlaceRejected | t_dd.py:6-8 | a '+', an exponent letter, a point without digits on both sides, or any other stray character makes the string invalid |
| DecimalValidator.NumberTextEnds | t_dd.py:6 | a number token starts with '-' or a digit and ends with a digit |
| DecimalValidator.RenderStart | t_dd.py:5-6 | a matching string starts with whitespace, '-' or a digit |
| DecimalValidator.RenderEnd | t_dd.py:8-9 | a matching string ends with whitespace or a digit |
| DecimalValidator.Anchored | t_dd.py:5-9 | a character the pattern cannot absorb, appended or prepended, makes any string invalid |
| DecimalValidator.SourceCases | t_dd.py:20-28 | the seven listed strings get verdicts valid, valid, outside, outside, outside, outside, invalid |
| DecimalValidator.CaseLine21 | t_dd.py:21 | the long Bangkok coordinates are valid |
| DecimalValidator.CaseLine22 | t_dd.py:22 | `"20.0, 105.0"` is valid |
| DecimalValidator.CaseLine23 | t_dd.py:23 | latitude 4.9 is south of the box: outside |
| DecimalValidator.CaseLine24 | t_dd.py:24 | latitude 22.0 is north of the box: outside |
| DecimalValidator.CaseLine25 | t_dd.py:25 | longitude 96.9 is west of the box: outside |
| DecimalValidator.CaseLine26 | t_dd.py:26 | longitude 106.1 is east of the box: outside |
| DecimalValidator.CaseLine27 | t_dd.py:27 | `"latitude, longitude"` is invalid format |
| DecimalValidator.BoundaryAndShapeCases | t_dd.py:6-17 | `"5,97"` and `"21,106"` are valid (inclusive bounds); latitude comes first; '+', bare or trailing points and exponents are invalid |
| DecimalValidator.CaseInclusiveLow | t_dd.py:17 | `"5,97"` is valid |
| DecimalValidator.CaseInclusiveHigh | t_dd.py:17 | `"21,106"` is valid |
| DecimalValidator.CaseBangkok | t_dd.py:34 | `"13.7,100.5"` is valid |
| DecimalValidator.CaseSwapped | t_dd.py:34 | `"100.5,13.7"` is outside: the first number is the latitude |
| DecimalValidator.CaseExplicitPlus | t_dd.py:6 | a leading '+' is invalid format |
| DecimalValidator.CaseBarePoint | t_dd.py:6 | a number starting with '.' is invalid format |
| DecimalValidator.CaseTrailingPoint | t_dd.py:6 | a number ending with '.' is invalid format |
| DecimalValidator.CaseExponent | t_dd.py:6 | an exponent is invalid format |
| DecimalValidator.CaseCompactSouth | t_dd.py:23 | `"4.9,100.0"` is outside |
| DecimalValidator.CaseSouthernHemisphere | t_dd.py:6 | `"-13.5, 100.5"` matches with the '-' inside the latitude token, whose value is -13.5, and is outside |
| KmlExport.Kml.constructor | ThGeoFence.py:53 | a new document has no features |
| KmlExport.Kml.NewPolygon | ThGeoFence.py:66 | appends one feature with the given name and outer boundary, no description and default style; the others are unchanged |
| KmlExport.Kml.SetFill | ThGeoFence.py:67 | sets the fill of one feature; nothing else changes |
| KmlExport.Kml.SetDescription | ThGeoFence.py:60 | sets the description of one feature; nothing else changes |
| KmlExport.AddPolygonToKml | ThGeoFence.py:64-67 | appends exactly one feature: the given name, the polygon's exterior ring unchanged, no description, blue fill at alpha 150 |
| KmlExport.RowHtml | ThGeoFence.py:50 | the row for one attribute: a key cell then a value cell |
| KmlExport.TableHtml | ThGeoFence.py:47-51 | the description: the table opening and header row, one row per attribute in order, then the closing |
| KmlExport.RowsAppend | ThGeoFence.py:49-50 | the rows of a + b are the rows of a followed by the rows of b |
| KmlExport.RowsListing | ThGeoFence.py:49-50 | attribute i's `<tr><td>key</td><td>value</td></tr>` row appears right after the rows of attributes 0..i-1 |
| KmlExport.BuildDescription | ThGeoFence.py:47-51 | the accumulated HTML is the table prefix, the header row, one row per attribute in order, then the closing |
| KmlExport.PlotKml | ThGeoFence.py:42-62 | fails with a type error exactly for non-polygonal geometry, and with a missing first feature exactly for an empty multi-polygon; otherwise one feature per part in order, named `Polygon` or `Polygon i`, with the part's exterior and blue fill, and the table on the first feature only |
| KmlExport.FeatureNamesDistinct | ThGeoFence.py:57-58 | the features of one export have pairwise distinct names |
| FenceLookup.Field | ThGeoFence.py:82 | a column's value is present exactly when some attribute has that key, and it is the value of the first attribute with that key |
| FenceLookup.MatchingRecords | ThGeoFence.py:82 | the selection holds exactly the records of the layer whose column equals the code |
| FenceLookup.FirstRecord | ThGeoFence.py:82 | `[0]` of the selection succeeds exactly when it is non-empty, with its first record |
| FenceLookup.Lookup | ThGeoFence.py:80-88 | `df[df.column == code].iloc[0]`: a success is a record of the layer whose column equals the code; the only failure is no matching record |
| FenceLookup.FirstMatchShift | ThGeoFence.py:82 | after a record that does not match, the first match moves one place along |
| FenceLookup.LookupFirstMatch | ThGeoFence.py:80-88 | a lookup returns f exactly when f is the first record of the layer whose column equals the code |
| FenceLookup.LookupNoMatch | ThGeoFence.py:80-88 | a lookup fails exactly when no record of the layer has the code |
| FenceLookup.LayerName | ThGeoFence.py:80-87 | `Changwat` for a province, `Amphoe` for a district, `Geohash` and the code's length for a GeoHash code; only GeoHash layers start with `Geohash` |
| FenceLookup.KeyColumn | ThGeoFence.py:80-88 | the compared column: `HASC_1`, `HASC_2` or `gh` |
| FenceLookup.GeohashLayerByLength | ThGeoFence.py:87 | two GeoHash codes read the same layer exactly when they have the same length |
| FenceLookup.SelectFence | ThGeoFence.py:80-88 | an empty code selects nothing; a missing layer fails naming the layer; a success is a record of the option's layer whose key column equals the code |
| FenceLookup.SummaryStep | ThGeoFence.py:24-26 | the summary fails exactly for a multi-polygon with no parts, where it indexes the first part |
| FenceLookup.ExportFence | ThGeoFence.py:80-97 | a selection failure is passed on; an empty multi-polygon stops at the summary, before plotting; a non-polygonal geometry fails the plot with a type error; otherwise the selected record is exported with the guarantees of PlotKml |

## Left out

- `GenGridThai.py` is not part of this model. It generates the GeoHash grid with floating-point lattices, a GeoHash library and geometry operations.
- `DumpFence` prints a summary: names, point counts, the area as a floating-point approximation, and WKT from the geometry library. Only its failure is modelled (`SummaryStep`): it reads the first part of a multi-polygon, so an empty multi-polygon raises an index error there. That happens before `PlotKML` runs, so `ExportFence` reports `SummaryFailed` for it, and `PlotKml`'s `FirstFeatureMissing` is never reached in a full run.
- Circle mode (`--circle`): float parsing and a geometry buffer.
- Argument parsing, reading the GeoPackage file, `kml.save` and all console output.
  - The GeoPackage is a parameter: a map from layer name to records.
  - `PlotKml` returns the features that would be saved.
  - The validators return a verdict instead of printing a line.
- Running the exporter with no option at all leaves no fence bound and fails with a name error. The model always has one option. An empty code, which skips every branch in the same way, is modelled as `NothingSelected`.
- Python's Unicode `\s`, `\d` and `int()`: the model uses ASCII whitespace and digits.
- Binary floating point: numbers are compared by their exact decimal values, not through `float()`. A decimal string that would round across a bound as a double is judged by its exact value.
- How attribute values are rendered as text by `str()`, including the geometry column's text: each attribute is given as a key and a value string.
- Geometry beyond each polygon's exterior ring: interior rings, coordinate precision and 3-D coordinates. A 3-D ring would fail the source's pair unpacking.
- simplekml's internals: style objects, the hexadecimal colour encoding and the KML/XML output. The fill is modelled as the named colour plus its alpha value.
- A layer without the compared column makes pandas raise an attribute error. The model treats such a record as not matching, so the lookup fails with `NoMatchingRecord`.
