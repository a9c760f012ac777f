/** `make_map`: resolve the requested parameter, aggregate the readings of
    the window into station observations, and interpolate them onto the
    polygon table; every failure comes back as an error dictionary. */
module Pipeline {
  import opened Parameters
  import opened Aggregation
  import opened GeoFrame
  import opened Interpolation

  datatype Option<T> = None | Some(value: T)

  const InvalidParameter := "Invalid parameter value, it should be one of 'temp', 'aqi', 'rainfall'."
  const DataNotFound := "Could not find specified data for the period mentioned"

  /** A date argument as the timestamp comparison sees it: a parsed
      timestamp, or text that cannot be read as a date. */
  datatype DateArg = Date(time: int) | Unparseable(text: string)

  /** `sensor_gdf_util` on the readings already loaded: comparing the
      timestamps with a bound that is not a date raises, otherwise the
      readings are aggregated over the inclusive window. */
  function SensorObservations(readings: seq<Reading>, start: DateArg, end: DateArg, col: Column)
    : (r: Option<seq<Station>>)
    ensures r.Some? <==> start.Date? && end.Date?
  {
    if start.Date? && end.Date? then
      Some(Aggregate(readings, start.time, end.time, col))
    else None
  }

  /** `make_map(start_date, end_date, param)` over the shared polygon table
      `gdf`; `dataFileExists` is the answer of the file-existence check. */
  method MakeMap(gdf: array<Row>, readings: seq<Reading>, dataFileExists: bool,
                 start: DateArg, end: DateArg, param: string) returns (resp: Response)
    modifies gdf
    ensures SelectParam(param) == Placeholder ==>
      resp == Dict(map["Hello" := "World"]) && unchanged(gdf)
    ensures SelectParam(param) == Unsupported ==>
      resp == ErrorDict(InvalidParameter) && unchanged(gdf)
    ensures SelectParam(param).Data? && !dataFileExists ==>
      resp == ErrorDict(DataNotFound) && unchanged(gdf)
    ensures (SelectParam(param).Data? && dataFileExists
      && SensorObservations(readings, start, end, SelectParam(param).col).None?) ==>
      resp == ErrorDict(SomethingWentWrong) && unchanged(gdf)
    ensures (SelectParam(param).Data? && dataFileExists
      && SensorObservations(readings, start, end, SelectParam(param).col).Some?) ==>
      var col := SelectParam(param).col;
      var obs := SensorObservations(readings, start, end, col).value;
      && (resp.Frame? <==> gdf.Length == 0 || |obs| > 0)
      && (resp.Frame? ==> resp.table == gdf && forall i :: 0 <= i < gdf.Length ==>
            gdf[i] == Interpolated(old(gdf[i]), col, obs))
      && (resp.Dict? ==> resp == ErrorDict(SomethingWentWrong) && forall i :: 0 <= i < gdf.Length ==>
            gdf[i] == Prepared(old(gdf[i]), col))
  {
    var col: Column;
    match SelectParam(param) {
      case Data(c) =>
        col := c;
      case Placeholder =>
        return Dict(map["Hello" := "World"]);
      case Unsupported =>
        return ErrorDict(InvalidParameter);
    }
    if !dataFileExists {
      return ErrorDict(DataNotFound);
    }
    var sensors := SensorObservations(readings, start, end, col);
    if sensors.None? {
      return ErrorDict(SomethingWentWrong);
    }
    resp := Idw(gdf, sensors.value, col);
  }

  /** End to end: when every reading inside the window lies in [lo, hi],
      every unit that does not sit on a station gets a value within 0.55 of
      that range (half a unit from the whole-number rounding of the means,
      0.05 from the one-decimal rounding of the estimate). */
  lemma InterpolatedWithinReadingRange(readings: seq<Reading>, start: int, end: int, col: Column,
                                       c: Point, lo: real, hi: real)
    requires forall r :: r in readings && start <= r.time <= end ==> lo <= ValueOf(r, col) <= hi
    requires |Aggregate(readings, start, end, col)| > 0
    requires !Coincides(c, Aggregate(readings, start, end, col))
    ensures UnitCell(c, Aggregate(readings, start, end, col)).Num?
    ensures lo - 0.55 <= UnitCell(c, Aggregate(readings, start, end, col)).value <= hi + 0.55
  {
    var obs := Aggregate(readings, start, end, col);
    forall j | 0 <= j < |obs|
      ensures lo - 0.5 <= obs[j].value <= hi + 0.5
    {
      ObservationBounded(readings, start, end, col, j, lo, hi);
    }
    EstimateBounded(c, obs, lo - 0.5, hi + 0.5);
  }
}
