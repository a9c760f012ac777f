# Air-quality map interpolation, modelled in Dafny

This project models the interpolation engine of a small map service. The
service estimates temperature or air-quality index (AQI) over the polygons of
a region, from sensor readings taken over a date window. The engine is
`utils.py`. It has three parts:

- **`make_map`**: maps the request label to a reading column. `"temp"`
  selects `Temperature` and `"aqi"` selects `AQI`. `"rainfall"` returns the
  fixed `{"Hello": "World"}` dictionary. Any other label returns an error
  dictionary.
- **`sensor_gdf_util`**: keeps the readings whose timestamp lies inside the
  window, both bounds inclusive. It groups them by station (latitude,
  longitude, location). Each station's value is the mean of the chosen
  column, rounded to a whole number.
- **`idw`**: inverse-distance-weighted interpolation with exponent 2. For
  every polygon centroid, each station gets weight `1 / dist²`. The weights
  are normalised to sum to 1. The dot product with the station values,
  rounded to one decimal, is written into that polygon's row of the shared
  polygon table, in place.

Numbers are exact `real`s. Both numpy roundings are modelled exactly as
round-half-to-even. `Numeric.RoundHalfEven` rounds to a whole number, and
`Numeric.Round1` scales by ten, rounds and scales back.

The polygon table is an `array<Row>`. A `Row` holds the polygon's geometry
and a map of named property cells, each a number, NaN or text. `idw` sets
the parameter column to NaN in every row. It adds the centroid's `latitude`
(y) and `longitude` (x). Then a loop writes each unit's value in turn. The
inner steps are also methods with loops, each proved against a specification
function:

- `ComputeWeights` computes `1 / dist ** 2`;
- `SumOf` computes `weights.sum()`;
- `Normalise` does `weights /= weights.sum()` in place;
- `DotWith` computes `np.dot`.

In three places the code behaves differently from what a stricter policy
might expect. The model follows the code each time:

- **A centroid that sits on a station.** The code divides by zero. numpy
  gives `1/0 = inf` and `inf/inf = NaN`, so the unit gets NaN. A stricter
  policy would give the station's own value. `Interpolation.CoincidentScenario`
  shows the NaN.
- **`"rainfall"`.** The code returns the placeholder dictionary. A stricter
  policy would return a not-implemented error.
- **The polygon table.** It is the module-wide table, and the code updates
  it in place. A stricter policy would work on a copy made for each request.

Each station is placed at x = longitude, y = latitude (`Interpolation.StationPoint`),
and the station values enter the dot product in station order.

With no station in the window, the distance computation raises on the first
polygon, and `idw` returns the error dictionary. So with no station, the
result is an error when there is at least one polygon. With no polygons, the
table comes back unchanged.

Modules, in dependency order:

- `Numeric` (`numeric.dfy`);
- `Parameters` (`parameters.dfy`);
- `GeoFrame` (`geoframe.dfy`);
- `Aggregation` (`aggregation.dfy`);
- `Interpolation` (`interpolation.dfy`);
- `Pipeline` (`pipeline.dfy`).

## Model

| member | source | states |
|---|---|---|
| `Parameters.SelectParam` | utils.py:22-32 | "temp" selects Temperature and "aqi" selects AQI, each if and only if; "rainfall" is the placeholder exactly when the label is "rainfall"; every other label, and only those, is unsupported |
| `Parameters.ColumnName` | utils.py:23-26 | Temperature is stored under "Temperature" and AQI under "AQI", each if and only if |
| `GeoFrame.ErrorDict` | utils.py:109-113 | the error result is a dictionary whose only key is "Error", holding the message |
| `Aggregation.FilterWindow` | utils.py:59-60 | the date filter never lengthens the table |
| `Aggregation.FilterWindowCounts` | utils.py:59-60 | a reading is kept as often as it occurs when start <= time <= end, and never otherwise |
| `Aggregation.FilterWindowKeeps` | utils.py:60 | a reading survives the date filter if and only if it is an input reading with start <= time <= end (both bounds inclusive) |
| `Aggregation.FilterStation` | utils.py:65 | a station's group is never longer than the table it is taken from |
| `Aggregation.FilterStationCounts` | utils.py:65 | the group of a station key holds exactly the readings with that (latitude, longitude, location), with their multiplicities |
| `Aggregation.StationKeys` | utils.py:65 | the group keys are pairwise distinct |
| `Aggregation.StationKeysCover` | utils.py:65 | a key is listed if and only if some reading carries it |
| `Aggregation.StationKeysHaveGroups` | utils.py:65-66 | every listed key has a non-empty group, so its mean is defined |
| `Aggregation.Observation` | utils.py:65-68 | an observation carries the key of the group it reduces |
| `Aggregation.Observations` | utils.py:64-69 | there is one observation per key, in the order of the keys, each the reduction of that key's group |
| `Aggregation.AggregateKeys` | utils.py:64-69 | the aggregated table lists one row per distinct key of the windowed readings |
| `Aggregation.WindowKeys` | utils.py:59-65 | the keys of the windowed readings are exactly the keys of the input readings with start <= time <= end |
| `Aggregation.AggregateOnePerStation` | utils.py:59-69 | the aggregated keys are pairwise distinct; every one comes from a reading inside the window; every reading inside the window has its key in the table |
| `Aggregation.ObservationIsRoundedMean` | utils.py:64-69 | each observation averages a non-empty group: exactly its station's readings inside the window, with multiplicities; its value is that group's mean rounded half to even |
| `Aggregation.GroupValuesBounded` | utils.py:59-66 | bounds on a station's readings inside the window bound every value its group averages |
| `Aggregation.ObservationBounded` | utils.py:64-69 | every observation is whole; when a station's windowed readings lie in [lo, hi], its observation lies in [lo - 0.5, hi + 0.5] |
| `Aggregation.ObservationOfSteadyStation` | utils.py:64-69 | a station whose windowed readings all equal one whole value is observed at exactly that value |
| `Aggregation.EmptyWindowAggregatesToNothing` | utils.py:59-69 | a window holding no reading, such as one whose start lies after its end, aggregates to an empty table |
| `Numeric.RoundHalfEven` | utils.py:67 | the result is within 0.5 of the input, and on a tie it is even (numpy's round-half-to-even) |
| `Numeric.RoundHalfEvenUnique` | utils.py:67 | any whole number within 0.5 of x, and even on a tie, is RoundHalfEven(x), so the rounding is fully determined |
| `Numeric.Round1` | utils.py:105 | the result is within 0.05 of the input and has at most one decimal; on a tie it is the even tenth (numpy's round-half-to-even) |
| `Numeric.RoundWhole` | utils.py:67 | a whole number is left unchanged by both the whole-number and the one-decimal rounding |
| `Numeric.Scale` | utils.py:103 | every scaled weight times the divisor gives back the original weight |
| `Numeric.SumScale` | utils.py:103 | dividing every weight by t divides their sum by t |
| `Numeric.SumPositive` | utils.py:101-103 | a non-empty sum of positive weights is positive, so the normalising division is defined |
| `Numeric.MeanBounds` | utils.py:66 | the mean of values in [lo, hi] lies in [lo, hi] |
| `Numeric.DotBounds` | utils.py:105 | a dot product of non-negative weights with values in [lo, hi] lies between lo and hi times the weight sum |
| `Interpolation.SqDist` | utils.py:99-101 | the squared planar distance is never negative |
| `Interpolation.InverseSquareWeights` | utils.py:101 | away from every station, each weight is positive and is the reciprocal of its squared distance |
| `Interpolation.NormalisedWeights` | utils.py:101-103 | there is one normalised weight per station |
| `Interpolation.NormalisedWeightsConvex` | utils.py:101-103 | for every centroid away from all stations, the normalised weights are positive and sum to 1 |
| `Interpolation.EstimateBounded` | utils.py:101-105 | the estimate before rounding lies between any bounds on the station values; the written value is within 0.05 of those bounds |
| `Interpolation.SingleStationReproduced` | utils.py:101-105 | with one station, a unit away from it gets that station's value up to the one-decimal rounding, and exactly when the value is whole |
| `Interpolation.EquidistantPairAverages` | utils.py:101-105 | two stations equidistant from a centroid contribute equally: the estimate is their average |
| `Interpolation.MidpointScenario` | utils.py:99-105 | stations of 10 at (0, 0) and 20 at (10, 0) give the centroid (5, 0) the value 15.0 |
| `Interpolation.CoincidentScenario` | utils.py:99-105 | a centroid on a station gets NaN, not that station's value |
| `Interpolation.ComputeWeights` | utils.py:99-101 | returns a fresh array of one weight per station; flags a zero distance exactly when one occurs; otherwise the array holds the inverse-square weights |
| `Interpolation.SumOf` | utils.py:103 | returns the sum of the array's elements |
| `Interpolation.Normalise` | utils.py:103 | divides every weight by the original sum, in place |
| `Interpolation.DotWith` | utils.py:105 | returns the dot product of the weights with the station values |
| `Interpolation.UnitValue` | utils.py:99-105 | the value written for one unit is NaN when its centroid sits on a station and otherwise the one-decimal rounding of the weighted estimate |
| `Interpolation.Idw` | utils.py:81-113 | every row keeps its geometry and other properties and gains the centroid's latitude (y) and longitude (x). If there is a station or no row, it returns the same table with every unit's value from its own centroid. Otherwise it returns the error dictionary, and every value is left NaN |
| `Pipeline.SensorObservations` | utils.py:51-75 | aggregation fails exactly when a date bound cannot be compared as a date |
| `Pipeline.MakeMap` | utils.py:17-48 | "rainfall" gives {"Hello": "World"}; an unknown label gives the invalid-parameter error; a missing data file or a failed aggregation gives an error. In these cases the table is untouched. Otherwise the result is exactly that of `Idw` on the aggregated stations |
| `Pipeline.InterpolatedWithinReadingRange` | utils.py:64-105 | if every windowed reading lies in [lo, hi], every unit away from the stations gets a value in [lo - 0.55, hi + 0.55] |

## Left out

- Serving the request is not part of this model: the web route in
  `index.py`, CORS, server startup and GeoJSON serialisation.
- File I/O is not modelled. The polygon file is not loaded: the table is a
  parameter. Whether the data file exists is a boolean parameter. The CSV is
  not read: the readings are a sequence. The `FileNotFoundError` branch of
  `sensor_gdf_util` is not modelled.
- Centroids and station points are not computed by the geometry library.
  Each `Polygon` carries its centroid as given, and a station is placed at
  its (longitude, latitude).
- Date strings are not parsed. A bound is either a parsed integer timestamp
  or text that cannot be parsed. The model does not compare a date-only
  bound against a timestamp that has a time of day.
- Floating point is not modelled: rounding error, and NaN or infinity other
  than at a centroid that sits on a station. The weight is computed
  exactly as `1 / (dx² + dy²)`, with no square root that is then squared.
- Pandas sorts the groups by key. The model lists them in order of first
  occurrence. With exact reals the order of the stations does not change
  any interpolated value, but no lemma states this.
- Pandas skips NaN values in `.mean()` and drops group keys that are NaN.
  Readings in the model carry no NaN.
- `Aggregation.AggregateKeys`: Dafny proves it with an empty body. It is a
  helper for the other aggregation lemmas.
- `Numeric.RoundHalfEvenUnique`: Dafny proves it with an empty body. It is
  kept because it shows that `RoundHalfEven`'s contract fully determines
  the rounding.
- Only the default exponent 2 is modelled. `make_map` never passes another.
- The row label written by `gdf.at[i, param]` is taken to be the row's
  position. This holds for the default index of a table loaded from a file.
- Failures of the geometry library are not modelled, including the column
  assignments of `idw` that run before its `try`.
- Logging is left out, and so is building its messages by inspecting stack
  frames.
- Concurrent requests sharing the polygon table are left out. The model is
  sequential.
