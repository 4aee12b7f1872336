/** Feature marker outlines: a table of integer offsets per marker name, scaled
    by half the marker size and moved to the placement point. */
module GeometryMethods {
  import opened Wrappers
  import opened Acad
  import EsabCore

  /** `GeometryMethods.FeatureMarkers`: marker name -> vertex offsets, in order. */
  const FeatureMarkers: map<string, seq<(int, int)>> := map[
    "PI"  := [(0, 0), (0, 1), (1, 0), (0, -1), (-1, 0), (0, 1)],
    "ESW" := [(0, 0), (-1, 1), (1, 1), (-1, -1), (1, -1), (0, 0)],
    "CVT" := [(0, 0), (0, 1), (-1, 1), (-1, -1), (1, -1), (1, 1), (0, 1)],
    "SA"  := [(0, 0), (0, 1), (-1, 1), (-1, -1), (1, -1), (1, 1), (0, 1)],
    "NUL" := [(0, 0), (1, 1), (-1, -1), (0, 0), (-1, 1), (1, -1)]
  ]

  datatype Point2 = Point2(x: real, y: real)

  /** A lightweight polyline: its 2D vertices in order, its elevation, colour
      index and line weight. */
  datatype Polyline = Polyline(vertices: seq<Point2>, elevation: real, colorIndex: int, lineWeight: int)

  const LineWeight040: int := 40

  /** Where an offset lands: `placement + (dx, dy) * size / 2`. */
  function MarkerVertex(offset: (int, int), size: real, placement: Point3): Point2 {
    Point2(placement.x + offset.0 as real * size * 0.5, placement.y + offset.1 as real * size * 0.5)
  }

  /** The offset (0, 0) lands on the placement point, and for a positive size
      each offset component says on which side of it the vertex lies. */
  lemma MarkerVertexSides(offset: (int, int), size: real, placement: Point3)
    ensures var v := MarkerVertex(offset, size, placement);
            && (offset == (0, 0) ==> v == Point2(placement.x, placement.y))
            && (size > 0.0 ==> (offset.0 < 0 <==> v.x < placement.x) && (offset.0 > 0 <==> v.x > placement.x))
            && (size > 0.0 ==> (offset.1 < 0 <==> v.y < placement.y) && (offset.1 > 0 <==> v.y > placement.y))
  {
  }

  /** `Polyline.TransformBy(Matrix3d.Displacement(d))`. */
  function Displace(pline: Polyline, d: Point3): (r: Polyline)
    ensures |r.vertices| == |pline.vertices|
    ensures forall i :: 0 <= i < |pline.vertices| ==>
              r.vertices[i] == Point2(pline.vertices[i].x + d.x, pline.vertices[i].y + d.y)
    ensures r.elevation == pline.elevation + d.z
    ensures r.colorIndex == pline.colorIndex && r.lineWeight == pline.lineWeight
  {
    pline.(vertices := seq(|pline.vertices|, i requires 0 <= i < |pline.vertices| =>
                             Point2(pline.vertices[i].x + d.x, pline.vertices[i].y + d.y)),
           elevation := pline.elevation + d.z)
  }

  /** `FeatureMarker`: looks the marker up by the enum member name (a value with
      no name is a null key, a name with no entry is missing), adds one vertex
      per offset and moves the outline to `placement`. */
  method FeatureMarker(ft: int32, size: real, placement: Point3) returns (r: Result<Polyline, Error>)
    ensures EsabCore.FeatureTypeName(ft).None? ==> r == Err(ArgumentNull("key"))
    ensures EsabCore.FeatureTypeName(ft).Some? && EsabCore.FeatureTypeName(ft).value !in FeatureMarkers ==>
              r == Err(KeyNotFound)
    ensures r.Ok? <==> EsabCore.FeatureTypeName(ft).Some? && EsabCore.FeatureTypeName(ft).value in FeatureMarkers
    ensures r.Ok? ==>
              var offsets := FeatureMarkers[EsabCore.FeatureTypeName(ft).value];
              && |r.value.vertices| == |offsets|
              && (forall i :: 0 <= i < |offsets| ==> r.value.vertices[i] == MarkerVertex(offsets[i], size, placement))
              && r.value.elevation == placement.z
              && r.value.colorIndex == 2 && r.value.lineWeight == LineWeight040
  {
    var markerName := EsabCore.FeatureTypeName(ft);
    if markerName.None? {
      return Err(ArgumentNull("key"));
    }
    if markerName.value !in FeatureMarkers {
      return Err(KeyNotFound);
    }
    var markerGeometry := FeatureMarkers[markerName.value];
    var pline := Polyline([], 0.0, 256, -1);
    for i := 0 to |markerGeometry|
      invariant |pline.vertices| == i && pline.elevation == 0.0
      invariant forall j :: 0 <= j < i ==>
                  pline.vertices[j] == Point2(markerGeometry[j].0 as real * size * 0.5,
                                              markerGeometry[j].1 as real * size * 0.5)
    {
      // AddVertexAt(i, ...) with i equal to the vertex count appends
      var v := Point2(markerGeometry[i].0 as real * size * 0.5, markerGeometry[i].1 as real * size * 0.5);
      pline := pline.(vertices := pline.vertices[..i] + [v] + pline.vertices[i..]);
    }
    pline := Displace(pline, placement);
    pline := pline.(colorIndex := 2, lineWeight := LineWeight040);
    r := Ok(pline);
  }

  /** Every marker outline starts at offset (0, 0), so at the placement point. */
  lemma MarkersStartAtPlacement(name: string, size: real, placement: Point3)
    requires name in FeatureMarkers
    ensures |FeatureMarkers[name]| > 0
    ensures MarkerVertex(FeatureMarkers[name][0], size, placement) == Point2(placement.x, placement.y)
  {
  }

  /** Every offset component is -1, 0 or 1. */
  lemma MarkerOffsetsAreUnit(name: string, i: nat)
    requires name in FeatureMarkers && i < |FeatureMarkers[name]|
    ensures -1 <= FeatureMarkers[name][i].0 <= 1 && -1 <= FeatureMarkers[name][i].1 <= 1
  {
  }

  function Abs(x: real): real { if x < 0.0 then -x else x }

  /** So every marker vertex lies in the square of half-side |size|/2 around
      the placement point. */
  lemma MarkerVertexWithinSquare(name: string, i: nat, size: real, placement: Point3)
    requires name in FeatureMarkers && i < |FeatureMarkers[name]|
    ensures var v := MarkerVertex(FeatureMarkers[name][i], size, placement);
            && Abs(v.x - placement.x) <= Abs(size) * 0.5
            && Abs(v.y - placement.y) <= Abs(size) * 0.5
  {
    MarkerOffsetsAreUnit(name, i);
    var offset := FeatureMarkers[name][i];
    UnitScaleBound(offset.0, size);
    UnitScaleBound(offset.1, size);
  }

  lemma UnitScaleBound(d: int, size: real)
    requires -1 <= d <= 1
    ensures Abs(d as real * size * 0.5) <= Abs(size) * 0.5
  {
    if d == 0 {
    } else if d == 1 {
    } else {
      assert d as real * size * 0.5 == -(size * 0.5);
    }
  }

  /** CVT and SA share one outline. */
  lemma CvtAndSaAlike()
    ensures FeatureMarkers["CVT"] == FeatureMarkers["SA"]
  {
  }

  /** A feature type with no table entry, such as XX, fails at its lookup. */
  lemma FeatureTypeXXHasNoMarker()
    ensures EsabCore.FeatureTypeName(EsabCore.XX) == Some("XX") && "XX" !in FeatureMarkers
  {
  }
}
