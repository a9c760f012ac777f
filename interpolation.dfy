/** `idw`: inverse-distance-weighted interpolation of the station
    observations onto the centroid of every polygon, written into the
    polygon table in place. The weighting exponent is fixed at its default
    of 2, so a station's weight is one over its squared planar distance. */
module Interpolation {
  import opened Numeric
  import opened Parameters
  import opened Aggregation
  import opened GeoFrame

  /** A station's position: x is its longitude, y its latitude. */
  function StationPoint(s: Station): Point
  {
    Point(s.key.longitude, s.key.latitude)
  }

  function Points(sensors: seq<Station>): (pts: seq<Point>)
    ensures |pts| == |sensors|
    ensures forall j :: 0 <= j < |sensors| ==> pts[j] == StationPoint(sensors[j])
  {
    seq(|sensors|, j requires 0 <= j < |sensors| => StationPoint(sensors[j]))
  }

  function StationValues(sensors: seq<Station>): (vs: seq<real>)
    ensures |vs| == |sensors|
    ensures forall j :: 0 <= j < |sensors| ==> vs[j] == sensors[j].value
  {
    seq(|sensors|, j requires 0 <= j < |sensors| => sensors[j].value)
  }

  /** The squared planar distance `dist ** 2`. */
  function SqDist(a: Point, b: Point): (d: real)
    ensures d >= 0.0
  {
    var dx, dy := a.x - b.x, a.y - b.y;
    Square(dx);
    Square(dy);
    dx * dx + dy * dy
  }

  /** A centroid is at distance zero from some station. */
  predicate Coincides(c: Point, sensors: seq<Station>)
  {
    exists j :: 0 <= j < |sensors| && SqDist(c, StationPoint(sensors[j])) == 0.0
  }

  /** The raw weights `1 / dist ** 2`, defined when no point coincides with
      the centroid: every weight is positive and the reciprocal of its
      squared distance. */
  function InverseSquareWeights(c: Point, pts: seq<Point>): (w: seq<real>)
    requires forall j :: 0 <= j < |pts| ==> SqDist(c, pts[j]) != 0.0
    ensures |w| == |pts|
    ensures forall j :: 0 <= j < |pts| ==> w[j] > 0.0 && w[j] * SqDist(c, pts[j]) == 1.0
  {
    seq(|pts|, j requires 0 <= j < |pts| => 1.0 / SqDist(c, pts[j]))
  }

  /** The normalised weights of the stations at a centroid that coincides
      with none of them. */
  function NormalisedWeights(c: Point, sensors: seq<Station>): (w: seq<real>)
    requires |sensors| > 0 && !Coincides(c, sensors)
    ensures |w| == |sensors|
  {
    var raw := InverseSquareWeights(c, Points(sensors));
    SumPositive(raw);
    Scale(raw, Sum(raw))
  }

  /** The interpolated value before rounding. */
  function Estimate(c: Point, sensors: seq<Station>): real
    requires |sensors| > 0 && !Coincides(c, sensors)
  {
    Dot(NormalisedWeights(c, sensors), StationValues(sensors))
  }

  /** What the loop writes for one unit: NaN when the centroid sits on a
      station (numpy's 1/0 is inf and inf/inf is NaN), otherwise the
      estimate rounded to one decimal. */
  function UnitCell(c: Point, sensors: seq<Station>): Cell
    requires |sensors| > 0
  {
    if Coincides(c, sensors) then NaN else Num(Round1(Estimate(c, sensors)))
  }

  /** The row after the column assignments ahead of the loop: the
      parameter column is NaN and the centroid's coordinates are added. */
  function Prepared(row: Row, col: Column): Row
  {
    var c := row.geometry.centroid;
    Row(row.geometry,
        row.properties[ColumnName(col) := NaN]["latitude" := Num(c.y)]["longitude" := Num(c.x)])
  }

  /** The row after the loop has written its value. */
  function Interpolated(row: Row, col: Column, sensors: seq<Station>): Row
    requires |sensors| > 0
  {
    var p := Prepared(row, col);
    Row(p.geometry, p.properties[ColumnName(col) := UnitCell(row.geometry.centroid, sensors)])
  }

  /** The normalised weights are positive and sum to 1. */
  lemma NormalisedWeightsConvex(c: Point, sensors: seq<Station>)
    requires |sensors| > 0 && !Coincides(c, sensors)
    ensures var w := NormalisedWeights(c, sensors);
      (forall j :: 0 <= j < |w| ==> w[j] > 0.0) && Sum(w) == 1.0
  {
    var raw := InverseSquareWeights(c, Points(sensors));
    SumPositive(raw);
    SumScale(raw, Sum(raw));
    ScalePositive(raw, Sum(raw));
  }

  /** The estimate is a convex combination of the station values, so it
      lies between any bounds on them; the rounded value is at most 0.05
      outside those bounds. */
  lemma EstimateBounded(c: Point, sensors: seq<Station>, lo: real, hi: real)
    requires |sensors| > 0 && !Coincides(c, sensors)
    requires forall j :: 0 <= j < |sensors| ==> lo <= sensors[j].value <= hi
    ensures lo <= Estimate(c, sensors) <= hi
    ensures UnitCell(c, sensors).Num?
    ensures lo - 0.05 <= UnitCell(c, sensors).value <= hi + 0.05
  {
    NormalisedWeightsConvex(c, sensors);
    DotBounds(NormalisedWeights(c, sensors), StationValues(sensors), lo, hi);
  }

  /** With a single station every centroid that does not sit on it gets
      that station's value, up to the one-decimal rounding, and exactly
      that value when it is whole (as aggregated values are). */
  lemma SingleStationReproduced(c: Point, s: Station)
    requires SqDist(c, StationPoint(s)) != 0.0
    ensures !Coincides(c, [s]) && Estimate(c, [s]) == s.value
    ensures UnitCell(c, [s]) == Num(Round1(s.value))
    ensures IsWhole(s.value) ==> UnitCell(c, [s]) == Num(s.value)
  {
    EstimateBounded(c, [s], s.value, s.value);
    if IsWhole(s.value) {
      RoundWhole(s.value);
    }
  }

  /** Two stations at the same distance from a centroid contribute
      equally: the estimate is the average of their values. */
  lemma EquidistantPairAverages(c: Point, a: Station, b: Station)
    requires SqDist(c, StationPoint(a)) != 0.0
    requires SqDist(c, StationPoint(a)) == SqDist(c, StationPoint(b))
    ensures !Coincides(c, [a, b])
    ensures Estimate(c, [a, b]) == (a.value + b.value) / 2.0
  {
    var sensors := [a, b];
    var raw := InverseSquareWeights(c, Points(sensors));
    assert raw[0] == raw[1];
    SumPositive(raw);
    assert raw == [raw[0], raw[1]];
    SumPair(raw[0], raw[1]);
    var w := NormalisedWeights(c, sensors);
    assert w[0] * Sum(raw) == raw[0] && w[1] * Sum(raw) == raw[1];
    assert w[0] == 0.5 && w[1] == 0.5;
    var v := StationValues(sensors);
    DotPair(w, v);
  }

  /** Stations of value 10 at (0, 0) and 20 at (10, 0): the centroid
      (5, 0) halfway between them gets 15.0. */
  lemma MidpointScenario()
    ensures var a := Station(StationKey(0.0, 0.0, "A"), 10.0);
      var b := Station(StationKey(0.0, 10.0, "B"), 20.0);
      UnitCell(Point(5.0, 0.0), [a, b]) == Num(15.0)
  {
    var a := Station(StationKey(0.0, 0.0, "A"), 10.0);
    var b := Station(StationKey(0.0, 10.0, "B"), 20.0);
    var c := Point(5.0, 0.0);
    EquidistantPairAverages(c, a, b);
    RoundWhole(15.0);
  }

  /** The same stations with the centroid on station A: the unit gets NaN,
      not A's value. */
  lemma CoincidentScenario()
    ensures var a := Station(StationKey(0.0, 0.0, "A"), 10.0);
      var b := Station(StationKey(0.0, 10.0, "B"), 20.0);
      UnitCell(Point(0.0, 0.0), [a, b]) == NaN
  {
    var a := Station(StationKey(0.0, 0.0, "A"), 10.0);
    var sensors := [a, Station(StationKey(0.0, 10.0, "B"), 20.0)];
    assert SqDist(Point(0.0, 0.0), StationPoint(sensors[0])) == 0.0;
  }

  /** `1 / dist ** power` for every station, into a new array. `hit`
      reports a station on the centroid, whose weight would be infinite. */
  method ComputeWeights(c: Point, pts: seq<Point>) returns (w: array<real>, hit: bool)
    ensures fresh(w) && w.Length == |pts|
    ensures hit <==> exists j :: 0 <= j < |pts| && SqDist(c, pts[j]) == 0.0
    ensures !hit ==> w[..] == InverseSquareWeights(c, pts)
  {
    w := new real[|pts|];
    hit := false;
    var j := 0;
    while j < |pts|
      invariant 0 <= j <= |pts|
      invariant hit <==> exists k :: 0 <= k < j && SqDist(c, pts[k]) == 0.0
      invariant !hit ==> forall k :: 0 <= k < j ==> w[k] == 1.0 / SqDist(c, pts[k])
    {
      var d := SqDist(c, pts[j]);
      if d == 0.0 {
        hit := true;
      } else {
        w[j] := 1.0 / d;
      }
      j := j + 1;
    }
    if !hit {
      assert forall k :: 0 <= k < |pts| ==> w[k] == InverseSquareWeights(c, pts)[k];
    }
  }

  /** `weights.sum()`. */
  method SumOf(a: array<real>) returns (s: real)
    ensures s == Sum(a[..])
  {
    s := 0.0;
    var i := 0;
    while i < a.Length
      invariant 0 <= i <= a.Length
      invariant s + Sum(a[i..]) == Sum(a[..])
    {
      assert a[i..] == [a[i]] + a[i + 1..];
      s := s + a[i];
      i := i + 1;
    }
  }

  /** `weights /= weights.sum()`, in place. */
  method Normalise(w: array<real>)
    requires Sum(w[..]) != 0.0
    modifies w
    ensures w[..] == Scale(old(w[..]), Sum(old(w[..])))
  {
    var total := SumOf(w);
    var i := 0;
    while i < w.Length
      invariant 0 <= i <= w.Length
      invariant forall k :: 0 <= k < i ==> w[k] == old(w[k]) / total
      invariant forall k :: i <= k < w.Length ==> w[k] == old(w[k])
    {
      w[i] := w[i] / total;
      i := i + 1;
    }
    assert forall k :: 0 <= k < w.Length ==> w[k] == Scale(old(w[..]), total)[k];
  }

  /** `np.dot(weights, sensor_temps)`. */
  method DotWith(w: array<real>, v: seq<real>) returns (s: real)
    requires w.Length == |v|
    ensures s == Dot(w[..], v)
  {
    s := 0.0;
    var i := 0;
    while i < w.Length
      invariant 0 <= i <= w.Length
      invariant s + Dot(w[i..], v[i..]) == Dot(w[..], v)
    {
      assert w[i..][1..] == w[i + 1..] && v[i..][1..] == v[i + 1..];
      s := s + w[i] * v[i];
      i := i + 1;
    }
  }

  /** The body of the loop over the units for one centroid: the weights,
      their normalisation, the dot product and the rounding. */
  method UnitValue(c: Point, pts: seq<Point>, values: seq<real>, sensors: seq<Station>)
    returns (cell: Cell)
    requires |sensors| > 0 && pts == Points(sensors) && values == StationValues(sensors)
    ensures cell == UnitCell(c, sensors)
  {
    var w, hit := ComputeWeights(c, pts);
    if hit {
      cell := NaN;
    } else {
      SumPositive(w[..]);
      Normalise(w);
      var s := DotWith(w, values);
      cell := Num(Round1(s));
    }
  }

  /** `idw(gdf, sensor_gdf, param)` with the default exponent 2. The
      table's parameter column is reset to NaN and the centroid
      coordinates are added to every row; then each unit in turn gets its
      interpolated value. Without stations the distance computation raises
      on the first unit and the error dictionary is returned, leaving the
      table as prepared. The geometry of every row is left as it was. */
  method Idw(gdf: array<Row>, sensors: seq<Station>, col: Column) returns (res: Response)
    modifies gdf
    ensures res.Frame? <==> gdf.Length == 0 || |sensors| > 0
    ensures res.Frame? ==> res.table == gdf
    ensures res.Frame? ==> forall i :: 0 <= i < gdf.Length ==>
      gdf[i] == Interpolated(old(gdf[i]), col, sensors)
    ensures res.Dict? ==> res == ErrorDict(SomethingWentWrong)
    ensures res.Dict? ==> forall i :: 0 <= i < gdf.Length ==> gdf[i] == Prepared(old(gdf[i]), col)
    ensures forall i :: 0 <= i < gdf.Length ==> gdf[i].geometry == old(gdf[i].geometry)
  {
    forall i | 0 <= i < gdf.Length {
      gdf[i] := Prepared(gdf[i], col);
    }
    var pts := Points(sensors);
    var values := StationValues(sensors);
    var i := 0;
    while i < gdf.Length
      invariant 0 <= i <= gdf.Length
      invariant i > 0 ==> |sensors| > 0
      invariant forall k :: 0 <= k < i ==> gdf[k] == Interpolated(old(gdf[k]), col, sensors)
      invariant forall k :: i <= k < gdf.Length ==> gdf[k] == Prepared(old(gdf[k]), col)
    {
      if |sensors| == 0 {
        return ErrorDict(SomethingWentWrong);
      }
      var cell := UnitValue(gdf[i].geometry.centroid, pts, values, sensors);
      gdf[i] := Row(gdf[i].geometry, gdf[i].properties[ColumnName(col) := cell]);
      i := i + 1;
    }
    return Frame(gdf);
  }
}
