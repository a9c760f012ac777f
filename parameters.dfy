/** The request label dispatch at the top of `make_map`: a closed match
    from the label to the reading column it interpolates, with a fixed
    placeholder for "rainfall" and an error for anything else. */
module Parameters {

  /** The two reading columns that have a computation path. */
  datatype Column = Temperature | Aqi

  /** The column's name in the readings table and in the output table. */
  function ColumnName(c: Column): (name: string)
    ensures name == "Temperature" <==> c == Temperature
    ensures name == "AQI" <==> c == Aqi
  {
    match c
    case Temperature => "Temperature"
    case Aqi => "AQI"
  }

  /** Where a label sends the request. */
  datatype Selection = Data(col: Column) | Placeholder | Unsupported

  /** `make_map`'s match on `param`. */
  function SelectParam(param: string): (s: Selection)
    ensures s == Data(Temperature) <==> param == "temp"
    ensures s == Data(Aqi) <==> param == "aqi"
    ensures s == Placeholder <==> param == "rainfall"
    ensures s == Unsupported <==> param !in ["temp", "aqi", "rainfall"]
  {
    if param == "temp" then Data(Temperature)
    else if param == "aqi" then Data(Aqi)
    else if param == "rainfall" then Placeholder
    else Unsupported
  }
}
