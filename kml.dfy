/**
 * The fence exporter's KML construction: a fence record (its attributes and
 * its geometry) becomes a KML document holding one filled polygon per
 * polygon part, the first of which carries an HTML table of the attributes.
 *
 * Geometry is abstracted to what the exporter looks at: the kind of shape
 * and each polygon's exterior coordinate sequence. The KML document is the
 * list of its features, which the export grows in place.
 */
module KmlExport {
  import opened Results
  import opened Scan

  /** One coordinate pair of an exterior ring, as (x, y) = (longitude, latitude). */
  datatype Point = Point(x: real, y: real)

  /** A polygon, reduced to its exterior ring (interior rings are not exported). */
  datatype Polygon = Polygon(exterior: seq<Point>)

  /** The record's geometry: a polygon, a multi-polygon, or any other kind of shape. */
  datatype Geometry =
    | PolygonShape(polygon: Polygon)
    | MultiPolygonShape(parts: seq<Polygon>)
    | OtherShape(kind: string)

  /** One column of the record, its value already rendered as text. */
  datatype Attribute = Attribute(key: string, value: string)

  /** A fence record: every column in column order, and the geometry column's shape. */
  datatype Fence = Fence(attributes: seq<Attribute>, geometry: Geometry)

  datatype NamedColor = Blue

  /** A polygon fill: a named colour with its alpha channel replaced. */
  datatype Fill = Fill(base: NamedColor, alpha: nat)

  /** Every exported polygon is filled blue at alpha 150. */
  const FenceFill := Fill(Blue, 150)

  /** A KML placemark holding one polygon. */
  datatype Feature = Feature(name: string, outerBoundary: seq<Point>, description: Option<string>, fill: Option<Fill>)

  /** Why an export stops: a geometry that is not polygonal, or no feature to attach the description to. */
  datatype PlotError = GeometryTypeError | FirstFeatureMissing

  /** A KML document: the list of features, in the order they were created. */
  class Kml {
    var features: seq<Feature>

    constructor ()
      ensures features == []
    {
      features := [];
    }

    /** Appends a new polygon feature with no description and the default style; returns its position. */
    method NewPolygon(name: string, outerBoundary: seq<Point>) returns (index: nat)
      modifies this
      ensures index == |old(features)|
      ensures features == old(features) + [Feature(name, outerBoundary, None, None)]
    {
      index := |features|;
      features := features + [Feature(name, outerBoundary, None, None)];
    }

    /** Sets the fill of one existing feature; the others are untouched. */
    method SetFill(index: nat, fill: Fill)
      requires index < |features|
      modifies this
      ensures features == old(features)[index := old(features)[index].(fill := Some(fill))]
    {
      features := features[index := features[index].(fill := Some(fill))];
    }

    /** Sets the description of one existing feature; the others are untouched. */
    method SetDescription(index: nat, html: string)
      requires index < |features|
      modifies this
      ensures features == old(features)[index := old(features)[index].(description := Some(html))]
    {
      features := features[index := features[index].(description := Some(html))];
    }
  }

  /** Adds a polygon's exterior ring to the document as a named, blue-filled feature. */
  method AddPolygonToKml(kml: Kml, polygon: Polygon, name: string)
    modifies kml
    ensures kml.features == old(kml.features) + [Feature(name, polygon.exterior, None, Some(FenceFill))]
  {
    var index := kml.NewPolygon(name, polygon.exterior);
    kml.SetFill(index, FenceFill);
  }

  const TablePrefix := "<![CDATA[<table border='1' cellpadding='3' cellspacing='0'>"
  const HeaderRow := "<tr><th>Key</th><th>Value</th></tr>"
  const TableSuffix := "</table>]]>"

  /** The table row for one attribute: the key cell, then the value cell. */
  function RowHtml(a: Attribute): string {
    "<tr><td>" + a.key + "</td><td>" + a.value + "</td></tr>"
  }

  /** The rows for a list of attributes, one after another in attribute order. */
  function Rows(attributes: seq<Attribute>): string {
    if attributes == [] then []
    else Rows(attributes[..|attributes| - 1]) + RowHtml(attributes[|attributes| - 1])
  }

  /** The feature description: the table opening and header, one row per attribute, the closing. */
  function TableHtml(attributes: seq<Attribute>): string {
    TablePrefix + HeaderRow + Rows(attributes) + TableSuffix
  }

  /** The rows of two lists of attributes are the rows of the first followed by those of the second. */
  lemma {:induction false} RowsAppend(a: seq<Attribute>, b: seq<Attribute>)
    ensures Rows(a + b) == Rows(a) + Rows(b)
    decreases |b|
  {
    if b == [] {
      assert a + b == a;
    } else {
      var b', last := b[..|b| - 1], b[|b| - 1];
      assert (a + b)[..|a + b| - 1] == a + b';
      assert (a + b)[|a + b| - 1] == last;
      assert Rows(a + b) == Rows(a + b') + RowHtml(last);
      RowsAppend(a, b');
      assert Rows(b) == Rows(b') + RowHtml(last);
    }
  }

  /** Attribute i's row sits in the table right after the rows of the attributes before it. */
  lemma RowsListing(attributes: seq<Attribute>, i: nat)
    requires i < |attributes|
    ensures |Rows(attributes[..i])| + |RowHtml(attributes[i])| <= |Rows(attributes)|
    ensures Rows(attributes)[|Rows(attributes[..i])|..|Rows(attributes[..i])| + |RowHtml(attributes[i])|]
         == RowHtml(attributes[i])
  {
    var before, rest := attributes[..i], attributes[i + 1..];
    assert attributes == (before + [attributes[i]]) + rest;
    RowsAppend(before + [attributes[i]], rest);
    RowsAppend(before, [attributes[i]]);
    assert [attributes[i]][..0] == [];
    var all := (Rows(before) + RowHtml(attributes[i])) + Rows(rest);
    assert all[|Rows(before)|..|Rows(before)| + |RowHtml(attributes[i])|] == RowHtml(attributes[i]);
  }

  /** Builds the description table by appending one row per attribute. */
  method BuildDescription(attributes: seq<Attribute>) returns (html: string)
    ensures html == TableHtml(attributes)
  {
    html := TablePrefix;
    html := html + HeaderRow;
    var i := 0;
    while i < |attributes|
      invariant i <= |attributes|
      invariant html == TablePrefix + HeaderRow + Rows(attributes[..i])
    {
      assert attributes[..i + 1][..i] == attributes[..i];
      html := html + RowHtml(attributes[i]);
      i := i + 1;
    }
    assert attributes[..i] == attributes;
    html := html + TableSuffix;
  }

  /** The name of part i (counted from zero) of a multi-polygon: "Polygon 1", "Polygon 2", .... */
  function PartName(i: nat): string {
    "Polygon " + DecimalText(i + 1)
  }

  /** The polygons the export draws, in order. */
  function Parts(g: Geometry): seq<Polygon>
    requires !g.OtherShape?
  {
    if g.PolygonShape? then [g.polygon] else g.parts
  }

  /** The name of the feature drawn for part i: a lone polygon is "Polygon", parts are numbered from one. */
  function FeatureName(g: Geometry, i: nat): string
    requires !g.OtherShape?
  {
    if g.PolygonShape? then "Polygon" else PartName(i)
  }

  /** One feature per part, in part order, each named for its place, with the part's exterior ring and the fence fill. */
  predicate DrawsParts(features: seq<Feature>, g: Geometry)
    requires !g.OtherShape?
  {
    && |features| == |Parts(g)|
    && forall i :: 0 <= i < |features| ==>
         && features[i].name == FeatureName(g, i)
         && features[i].outerBoundary == Parts(g)[i].exterior
         && features[i].fill == Some(FenceFill)
  }

  /** The first feature carries the description; no other feature has one. */
  predicate DescribesFirstOnly(features: seq<Feature>, html: string) {
    && |features| > 0
    && features[0].description == Some(html)
    && forall i :: 1 <= i < |features| ==> features[i].description == None
  }

  /**
   * Exports a fence record: refuses a non-polygonal geometry, adds one
   * feature per polygon part, attaches the attribute table to the first
   * feature, and returns the document's features (what would be saved).
   */
  method PlotKml(fence: Fence) returns (r: Result<seq<Feature>, PlotError>)
    ensures r.Failure? <==> fence.geometry.OtherShape? || fence.geometry == MultiPolygonShape([])
    ensures r.Failure? ==> r.error == if fence.geometry.OtherShape? then GeometryTypeError else FirstFeatureMissing
    ensures r.Success? ==> DrawsParts(r.value, fence.geometry)
    ensures r.Success? ==> DescribesFirstOnly(r.value, TableHtml(fence.attributes))
  {
    var geom := fence.geometry;
    if geom.OtherShape? {
      return Failure(GeometryTypeError);
    }
    var html := BuildDescription(fence.attributes);
    var kml := new Kml();
    if geom.PolygonShape? {
      AddPolygonToKml(kml, geom.polygon, "Polygon");
    } else {
      var i := 0;
      while i < |geom.parts|
        invariant i <= |geom.parts|
        invariant |kml.features| == i
        invariant forall k :: 0 <= k < i ==>
          kml.features[k] == Feature(PartName(k), geom.parts[k].exterior, None, Some(FenceFill))
      {
        AddPolygonToKml(kml, geom.parts[i], PartName(i));
        i := i + 1;
      }
    }
    assert forall k :: 0 <= k < |kml.features| ==> kml.features[k].description == None;
    if |kml.features| == 0 {
      return Failure(FirstFeatureMissing);
    }
    kml.SetDescription(0, html);
    r := Success(kml.features);
  }

  /** Feature names within one export are pairwise distinct. */
  lemma FeatureNamesDistinct(features: seq<Feature>, g: Geometry, i: nat, j: nat)
    requires !g.OtherShape? && DrawsParts(features, g)
    requires i < j < |features|
    ensures features[i].name != features[j].name
  {
    assert g.MultiPolygonShape?;
    DecimalTextDistinct(i + 1, j + 1);
    assert PartName(i)[8..] == DecimalText(i + 1);
    assert PartName(j)[8..] == DecimalText(j + 1);
  }
}
