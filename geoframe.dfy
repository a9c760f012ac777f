/** The tables the pipeline works on: the polygon table (a GeoDataFrame of
    spatial units) and the dictionaries returned in place of it. */
module GeoFrame {

  /** A planar point: x is the longitude, y the latitude. */
  datatype Point = Point(x: real, y: real)

  /** A polygon's boundary together with its centroid as the geometry
      library reports it. */
  datatype Polygon = Polygon(rings: seq<seq<Point>>, centroid: Point)

  /** A property value: a number, a float NaN, or text. */
  datatype Cell = Num(value: real) | NaN | Text(text: string)

  /** One spatial unit: its geometry and its named properties. */
  datatype Row = Row(geometry: Polygon, properties: map<string, Cell>)

  /** What `make_map` and `idw` return: the polygon table itself, or a
      dictionary of strings. */
  datatype Response = Frame(table: array<Row>) | Dict(entries: map<string, string>)

  const SomethingWentWrong := "Something went wrong, please try again later"

  /** The `{"Error": message}` dictionary. */
  function ErrorDict(message: string): (r: Response)
    ensures r.Dict? && "Error" in r.entries && r.entries["Error"] == message
    ensures r.entries.Keys == {"Error"}
  {
    Dict(map["Error" := message])
  }
}
