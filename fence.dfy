/**
 * How the fence exporter picks its fence: the command-line option names a
 * code, the code's kind picks a layer of the GeoPackage file and the column
 * to compare, and the fence is the first record of that layer whose column
 * equals the code exactly. GeoHash layers are chosen by the code's length.
 */
module FenceLookup {
  import opened Results
  import opened Scan
  import opened KmlExport

  /** The option given on the command line and its code. */
  datatype Selector =
    | Province(code: string)
    | Amphoe(code: string)
    | Geohash(code: string)

  /** The layers of the GeoPackage file, by layer name, each a list of records. */
  type Package = map<string, seq<Fence>>

  datatype SelectError =
    | NothingSelected           // an empty code skips every branch and no fence is bound
    | LayerNotFound(layer: string)
    | NoMatchingRecord

  /**
   * Why an export run stops: no fence was selected, the summary printed
   * before plotting failed (it reads the first part of a multi-polygon), or
   * the plot failed.
   */
  datatype ExportError =
    | SelectFailed(selectError: SelectError)
    | SummaryFailed
    | PlotFailed(plotError: PlotError)

  /** The value of one column of a record: the first attribute with that key, if any. */
  function Field(attributes: seq<Attribute>, column: string): (r: Option<string>)
    ensures r.Some? <==> exists i :: 0 <= i < |attributes| && attributes[i].key == column
    ensures r.Some? ==> exists i: nat :: FirstKeyAt(attributes, column, i) && attributes[i] == Attribute(column, r.value)
  {
    if attributes == [] then None
    else if attributes[0].key == column then
      assert FirstKeyAt(attributes, column, 0) && attributes[0] == Attribute(column, attributes[0].value);
      Some(attributes[0].value)
    else
      var tail := attributes[1..];
      var r := Field(tail, column);
      assert forall i :: 0 < i < |attributes| ==> attributes[i] == tail[i - 1];
      if r.Some? then
        var i: nat :| FirstKeyAt(tail, column, i) && tail[i] == Attribute(column, r.value);
        assert FirstKeyAt(attributes, column, i + 1) && attributes[i + 1] == Attribute(column, r.value);
        r
      else r
  }

  /** Attribute i has the key and no attribute before it does. */
  predicate FirstKeyAt(attributes: seq<Attribute>, column: string, i: nat) {
    && i < |attributes| && attributes[i].key == column
    && forall j :: 0 <= j < i ==> attributes[j].key != column
  }

  /** Whether a record's column holds exactly the code. */
  predicate HasCode(fence: Fence, column: string, code: string) {
    Field(fence.attributes, column) == Some(code)
  }

  /** The records whose column equals the code, in layer order (the boolean-mask selection). */
  function MatchingRecords(layer: seq<Fence>, column: string, code: string): (r: seq<Fence>)
    ensures forall f :: f in r <==> f in layer && HasCode(f, column, code)
  {
    if layer == [] then []
    else
      var rest := MatchingRecords(layer[1..], column, code);
      assert forall f :: f in layer <==> f == layer[0] || f in layer[1..];
      if HasCode(layer[0], column, code) then [layer[0]] + rest else rest
  }

  /** The first selected record (the positional `[0]`), or the failure an empty selection gives. */
  function FirstRecord(records: seq<Fence>): (r: Result<Fence, SelectError>)
    ensures r.Success? <==> records != []
    ensures r.Success? ==> r.value == records[0]
  {
    if records == [] then Failure(NoMatchingRecord) else Success(records[0])
  }

  /** The record a lookup picks: the first whose column equals the code, or failure when none does. */
  function Lookup(layer: seq<Fence>, column: string, code: string): (r: Result<Fence, SelectError>)
    ensures r.Success? ==> r.value in layer && HasCode(r.value, column, code)
    ensures r.Failure? ==> r.error == NoMatchingRecord
  {
    var records := MatchingRecords(layer, column, code);
    assert records != [] ==> records[0] in records;
    FirstRecord(records)
  }

  /** Record i matches and no record before it does. */
  predicate FirstMatchAt(layer: seq<Fence>, column: string, code: string, i: nat) {
    && i < |layer| && HasCode(layer[i], column, code)
    && forall j :: 0 <= j < i ==> !HasCode(layer[j], column, code)
  }

  /** Past a record that does not match, the first match moves one place along. */
  lemma FirstMatchShift(layer: seq<Fence>, column: string, code: string, i: nat)
    requires layer != [] && !HasCode(layer[0], column, code)
    ensures FirstMatchAt(layer, column, code, i + 1) <==> FirstMatchAt(layer[1..], column, code, i)
  {
    var tail := layer[1..];
    if FirstMatchAt(tail, column, code, i) {
      assert layer[i + 1] == tail[i];
      forall j | 0 <= j < i + 1
        ensures !HasCode(layer[j], column, code)
      {
        if j > 0 { assert layer[j] == tail[j - 1]; }
      }
    }
    if FirstMatchAt(layer, column, code, i + 1) {
      assert tail[i] == layer[i + 1];
      forall j | 0 <= j < i
        ensures !HasCode(tail[j], column, code)
      {
        assert tail[j] == layer[j + 1];
      }
    }
  }

  /** A lookup succeeds exactly with the record at the first match. */
  lemma {:induction false} LookupFirstMatch(layer: seq<Fence>, column: string, code: string, f: Fence)
    ensures Lookup(layer, column, code) == Success(f) <==>
      exists i: nat :: FirstMatchAt(layer, column, code, i) && layer[i] == f
  {
    if layer != [] {
      var tail := layer[1..];
      if HasCode(layer[0], column, code) {
        assert FirstMatchAt(layer, column, code, 0);
        assert forall i :: FirstMatchAt(layer, column, code, i) ==> i == 0;
      } else {
        LookupFirstMatch(tail, column, code, f);
        assert Lookup(layer, column, code) == Lookup(tail, column, code);
        assert !FirstMatchAt(layer, column, code, 0);
        forall i: nat
          ensures FirstMatchAt(layer, column, code, i + 1) <==> FirstMatchAt(tail, column, code, i)
        {
          FirstMatchShift(layer, column, code, i);
        }
        assert forall i: nat :: FirstMatchAt(tail, column, code, i) ==> layer[i + 1] == tail[i];
        if exists i: nat :: FirstMatchAt(layer, column, code, i) && layer[i] == f {
          var i: nat :| FirstMatchAt(layer, column, code, i) && layer[i] == f;
          assert FirstMatchAt(tail, column, code, i - 1) && tail[i - 1] == f;
        }
      }
    }
  }

  /** A lookup fails exactly when no record of the layer matches. */
  lemma LookupNoMatch(layer: seq<Fence>, column: string, code: string)
    ensures Lookup(layer, column, code) == Failure(NoMatchingRecord) <==>
      forall i :: 0 <= i < |layer| ==> !HasCode(layer[i], column, code)
  {
    var r := MatchingRecords(layer, column, code);
    if r != [] {
      assert r[0] in r;
    }
  }

  /** The layer an option reads: provinces and districts have their own layers; a GeoHash code's layer is named for its length. */
  function LayerName(s: Selector): (r: string)
    ensures s.Geohash? <==> |r| > 7 && r[..7] == "Geohash"
  {
    match s
    case Province(_) => assert "Changwat"[0] != "Geohash"[0]; "Changwat"
    case Amphoe(_) => "Amphoe"
    case Geohash(code) => "Geohash" + DecimalText(|code|)
  }

  /** The column compared with the code in that layer. */
  function KeyColumn(s: Selector): string {
    match s
    case Province(_) => "HASC_1"
    case Amphoe(_) => "HASC_2"
    case Geohash(_) => "gh"
  }

  /** Two GeoHash codes are looked up in the same layer exactly when they have the same length. */
  lemma GeohashLayerByLength(a: string, b: string)
    ensures LayerName(Geohash(a)) == LayerName(Geohash(b)) <==> |a| == |b|
  {
    if |a| != |b| {
      DecimalTextDistinct(|a|, |b|);
      assert LayerName(Geohash(a))[7..] == DecimalText(|a|);
      assert LayerName(Geohash(b))[7..] == DecimalText(|b|);
    }
  }

  /** The fence an option selects: nothing for an empty code, then the layer, then the first exact match. */
  function SelectFence(gpkg: Package, s: Selector): (r: Result<Fence, SelectError>)
    ensures r == Failure(NothingSelected) <==> s.code == []
    ensures r == Failure(LayerNotFound(LayerName(s))) <==> s.code != [] && LayerName(s) !in gpkg
    ensures r.Success? ==> LayerName(s) in gpkg && r.value in gpkg[LayerName(s)] && HasCode(r.value, KeyColumn(s), s.code)
  {
    if s.code == [] then Failure(NothingSelected)
    else if LayerName(s) !in gpkg then Failure(LayerNotFound(LayerName(s)))
    else Lookup(gpkg[LayerName(s)], KeyColumn(s), s.code)
  }

  /** Whether the summary printed before plotting can be produced: it counts the points of a multi-polygon's first part. */
  function SummaryStep(g: Geometry): (r: Result<(), ExportError>)
    ensures r.Failure? <==> g.MultiPolygonShape? && |g.parts| == 0
    ensures r.Failure? ==> r.error == SummaryFailed
  {
    if g.MultiPolygonShape? && g.parts == [] then Failure(SummaryFailed) else Success(())
  }

  /** The export run for one option: select the fence, print its summary, then build its KML features. */
  method ExportFence(gpkg: Package, s: Selector) returns (r: Result<seq<Feature>, ExportError>)
    ensures SelectFence(gpkg, s).Failure? ==> r == Failure(SelectFailed(SelectFence(gpkg, s).error))
    ensures SelectFence(gpkg, s).Success? ==>
      var fence := SelectFence(gpkg, s).value;
      && (r.Failure? <==> fence.geometry.OtherShape? || fence.geometry == MultiPolygonShape([]))
      && (r.Failure? ==> r.error == if fence.geometry.OtherShape? then PlotFailed(GeometryTypeError) else SummaryFailed)
      && (r.Success? ==> DrawsParts(r.value, fence.geometry) && DescribesFirstOnly(r.value, TableHtml(fence.attributes)))
  {
    var selected := SelectFence(gpkg, s);
    if selected.Failure? {
      return Failure(SelectFailed(selected.error));
    }
    var summary := SummaryStep(selected.value.geometry);
    if summary.Failure? {
      return Failure(summary.error);
    }
    var plotted := PlotKml(selected.value);
    if plotted.Failure? {
      return Failure(PlotFailed(plotted.error));
    }
    r := Success(plotted.value);
  }
}
