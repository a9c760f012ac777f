/** `sensor_gdf_util`: keep the readings whose timestamp lies inside the
    inclusive window, group them by station (latitude, longitude, location)
    and reduce every group to the mean of the chosen column, rounded to a
    whole number. */
module Aggregation {
  import opened Numeric
  import opened Parameters

  /** One row of the readings table; `time` is the parsed timestamp. */
  datatype Reading = Reading(
    latitude: real, longitude: real, location: string,
    time: int, temperature: real, aqi: real)

  /** The grouping key of a reading. */
  datatype StationKey = StationKey(latitude: real, longitude: real, location: string)

  /** One row of the aggregated table: a station and its rounded mean. */
  datatype Station = Station(key: StationKey, value: real)

  function KeyOf(r: Reading): StationKey
  {
    StationKey(r.latitude, r.longitude, r.location)
  }

  function ValueOf(r: Reading, col: Column): real
  {
    match col
    case Temperature => r.temperature
    case Aqi => r.aqi
  }

  /** Both bounds are inclusive. */
  predicate InWindow(r: Reading, start: int, end: int)
  {
    start <= r.time <= end
  }

  /** The date filter: the readings inside the window, in their order, each
      as often as it occurs in the input. */
  function FilterWindow(rs: seq<Reading>, start: int, end: int): (kept: seq<Reading>)
    ensures |kept| <= |rs|
  {
    if rs == [] then []
    else (if InWindow(rs[0], start, end) then [rs[0]] else []) + FilterWindow(rs[1..], start, end)
  }

  /** The date filter keeps a reading as often as it occurs when it lies
      inside the window, and never otherwise. */
  lemma {:induction false} FilterWindowCounts(rs: seq<Reading>, start: int, end: int)
    ensures forall r :: multiset(FilterWindow(rs, start, end))[r] ==
                        if InWindow(r, start, end) then multiset(rs)[r] else 0
  {
    if rs != [] {
      FilterWindowCounts(rs[1..], start, end);
      assert rs == [rs[0]] + rs[1..];
    }
  }

  /** The readings of one station, in their order, each as often as it
      occurs in the input. */
  function FilterStation(rs: seq<Reading>, k: StationKey): (group: seq<Reading>)
    ensures |group| <= |rs|
  {
    if rs == [] then []
    else (if KeyOf(rs[0]) == k then [rs[0]] else []) + FilterStation(rs[1..], k)
  }

  /** A station's group holds exactly the readings carrying its key, each
      as often as it occurs. */
  lemma {:induction false} FilterStationCounts(rs: seq<Reading>, k: StationKey)
    ensures forall r :: multiset(FilterStation(rs, k))[r] ==
                        if KeyOf(r) == k then multiset(rs)[r] else 0
  {
    if rs != [] {
      FilterStationCounts(rs[1..], k);
      assert rs == [rs[0]] + rs[1..];
    }
  }

  /** The chosen column of every reading. */
  function Values(rs: seq<Reading>, col: Column): (vs: seq<real>)
    ensures |vs| == |rs|
    ensures forall i :: 0 <= i < |rs| ==> vs[i] == ValueOf(rs[i], col)
  {
    seq(|rs|, i requires 0 <= i < |rs| => ValueOf(rs[i], col))
  }

  /** The distinct station keys of the readings, each once, in order of
      first occurrence. */
  function StationKeys(rs: seq<Reading>): (keys: seq<StationKey>)
    ensures forall i, j :: 0 <= i < j < |keys| ==> keys[i] != keys[j]
  {
    if rs == [] then []
    else
      var keys := StationKeys(rs[..|rs| - 1]);
      var k := KeyOf(rs[|rs| - 1]);
      if k in keys then keys else keys + [k]
  }

  /** A key is listed exactly when some reading carries it. */
  lemma {:induction false} StationKeysCover(rs: seq<Reading>)
    ensures forall k :: k in StationKeys(rs) ==> exists r :: r in rs && KeyOf(r) == k
    ensures forall r :: r in rs ==> KeyOf(r) in StationKeys(rs)
  {
    if rs != [] {
      var init := rs[..|rs| - 1];
      StationKeysCover(init);
      assert rs == init + [rs[|rs| - 1]];
    }
  }

  /** The observation for a station key with at least one reading: the
      mean of the group's values, rounded to a whole number. */
  function Observation(kept: seq<Reading>, k: StationKey, col: Column): (o: Station)
    requires |FilterStation(kept, k)| > 0
    ensures o.key == k
  {
    Station(k, RoundHalfEven(Mean(Values(FilterStation(kept, k), col))) as real)
  }

  /** Every listed station key has a non-empty group. */
  lemma StationKeysHaveGroups(kept: seq<Reading>)
    ensures forall k :: k in StationKeys(kept) ==> |FilterStation(kept, k)| > 0
  {
    StationKeysCover(kept);
    forall k | k in StationKeys(kept)
      ensures |FilterStation(kept, k)| > 0
    {
      var r :| r in kept && KeyOf(r) == k;
      FilterStationCounts(kept, k);
      assert multiset(FilterStation(kept, k))[r] > 0;
    }
  }

  /** The aggregated table: one observation per station key among the
      readings inside the window. */
  function Aggregate(rs: seq<Reading>, start: int, end: int, col: Column): seq<Station>
  {
    var kept := FilterWindow(rs, start, end);
    StationKeysHaveGroups(kept);
    Observations(kept, StationKeys(kept), col)
  }

  /** One observation per key, in the order of the keys. */
  function Observations(kept: seq<Reading>, keys: seq<StationKey>, col: Column): (obs: seq<Station>)
    requires forall k :: k in keys ==> |FilterStation(kept, k)| > 0
    ensures |obs| == |keys|
    ensures forall j :: 0 <= j < |keys| ==> keys[j] in keys && obs[j] == Observation(kept, keys[j], col)
  {
    if keys == [] then []
    else
      assert keys[0] in keys;
      [Observation(kept, keys[0], col)] + Observations(kept, keys[1..], col)
  }

  /** A reading survives the date filter exactly when its timestamp lies
      between the bounds, both inclusive. */
  lemma FilterWindowKeeps(rs: seq<Reading>, start: int, end: int, r: Reading)
    ensures r in FilterWindow(rs, start, end) <==> r in rs && start <= r.time <= end
  {
    var kept := FilterWindow(rs, start, end);
    FilterWindowCounts(rs, start, end);
    assert r in kept <==> multiset(kept)[r] > 0;
  }

  /** The station keys of the windowed readings are exactly the keys of
      the input readings inside the window. */
  lemma WindowKeys(rs: seq<Reading>, start: int, end: int)
    ensures var keys := StationKeys(FilterWindow(rs, start, end));
      forall j :: 0 <= j < |keys| ==>
        exists r :: r in rs && start <= r.time <= end && KeyOf(r) == keys[j]
    ensures var keys := StationKeys(FilterWindow(rs, start, end));
      forall r :: r in rs && start <= r.time <= end ==> KeyOf(r) in keys
  {
    var kept := FilterWindow(rs, start, end);
    var keys := StationKeys(kept);
    StationKeysCover(kept);
    forall j | 0 <= j < |keys|
      ensures exists r :: r in rs && start <= r.time <= end && KeyOf(r) == keys[j]
    {
      assert keys[j] in keys;
      var r :| r in kept && KeyOf(r) == keys[j];
      FilterWindowKeeps(rs, start, end, r);
    }
    forall r | r in rs && start <= r.time <= end
      ensures KeyOf(r) in keys
    {
      FilterWindowKeeps(rs, start, end, r);
    }
  }

  /** The aggregated table lists, position by position, the station keys
      of the readings inside the window. */
  lemma AggregateKeys(rs: seq<Reading>, start: int, end: int, col: Column)
    ensures var keys := StationKeys(FilterWindow(rs, start, end));
      var obs := Aggregate(rs, start, end, col);
      |obs| == |keys| && forall j :: 0 <= j < |obs| ==> obs[j].key == keys[j]
  {
  }

  /** After aggregation there is exactly one observation per distinct
      station key among the readings inside the window, and no other. */
  lemma AggregateOnePerStation(rs: seq<Reading>, start: int, end: int, col: Column)
    ensures var obs := Aggregate(rs, start, end, col);
      forall i, j :: 0 <= i < j < |obs| ==> obs[i].key != obs[j].key
    ensures var obs := Aggregate(rs, start, end, col);
      forall j :: 0 <= j < |obs| ==>
        exists r :: r in rs && start <= r.time <= end && KeyOf(r) == obs[j].key
    ensures var obs := Aggregate(rs, start, end, col);
      forall r :: r in rs && start <= r.time <= end ==>
        exists j :: 0 <= j < |obs| && obs[j].key == KeyOf(r)
  {
    var keys := StationKeys(FilterWindow(rs, start, end));
    var obs := Aggregate(rs, start, end, col);
    AggregateKeys(rs, start, end, col);
    WindowKeys(rs, start, end);
    forall j | 0 <= j < |obs|
      ensures exists r :: r in rs && start <= r.time <= end && KeyOf(r) == obs[j].key
    {
      assert obs[j].key == keys[j];
    }
    forall r | r in rs && start <= r.time <= end
      ensures exists j :: 0 <= j < |obs| && obs[j].key == KeyOf(r)
    {
      var j :| 0 <= j < |keys| && keys[j] == KeyOf(r);
      assert obs[j].key == KeyOf(r);
    }
  }

  /** The readings an observation averages: those of its station inside
      the window. */
  function WindowGroup(rs: seq<Reading>, start: int, end: int, k: StationKey): seq<Reading>
  {
    FilterStation(FilterWindow(rs, start, end), k)
  }

  /** Every observation averages exactly the readings of its own station
      inside the window, each as often as it occurs, and its value is that
      mean rounded to a whole number (ties to even). */
  lemma ObservationIsRoundedMean(rs: seq<Reading>, start: int, end: int, col: Column, j: nat)
    requires j < |Aggregate(rs, start, end, col)|
    ensures var o := Aggregate(rs, start, end, col)[j];
      var group := WindowGroup(rs, start, end, o.key);
      && |group| > 0
      && (forall r :: multiset(group)[r] ==
            if start <= r.time <= end && KeyOf(r) == o.key then multiset(rs)[r] else 0)
      && o.value == RoundHalfEven(Mean(Values(group, col))) as real
  {
    var kept := FilterWindow(rs, start, end);
    var keys := StationKeys(kept);
    StationKeysHaveGroups(kept);
    assert keys[j] in keys;
    FilterWindowCounts(rs, start, end);
    FilterStationCounts(kept, keys[j]);
  }

  /** Bounds on a station's readings inside the window bound every value
      its group averages. */
  lemma GroupValuesBounded(rs: seq<Reading>, start: int, end: int, col: Column, k: StationKey, lo: real, hi: real)
    requires forall r :: (r in rs && start <= r.time <= end && KeyOf(r) == k) ==> lo <= ValueOf(r, col) <= hi
    ensures var vs := Values(WindowGroup(rs, start, end, k), col);
      forall i :: 0 <= i < |vs| ==> lo <= vs[i] <= hi
  {
    var group := WindowGroup(rs, start, end, k);
    FilterWindowCounts(rs, start, end);
    FilterStationCounts(FilterWindow(rs, start, end), k);
    forall i | 0 <= i < |group|
      ensures lo <= ValueOf(group[i], col) <= hi
    {
      assert multiset(group)[group[i]] > 0;
    }
  }

  /** Every observation is a whole number within half a unit of the range
      of its station's readings inside the window. */
  lemma ObservationBounded(rs: seq<Reading>, start: int, end: int, col: Column, j: nat, lo: real, hi: real)
    requires j < |Aggregate(rs, start, end, col)|
    requires forall r :: (r in rs && start <= r.time <= end
      && KeyOf(r) == Aggregate(rs, start, end, col)[j].key) ==> lo <= ValueOf(r, col) <= hi
    ensures IsWhole(Aggregate(rs, start, end, col)[j].value)
    ensures lo - 0.5 <= Aggregate(rs, start, end, col)[j].value <= hi + 0.5
  {
    var o := Aggregate(rs, start, end, col)[j];
    ObservationIsRoundedMean(rs, start, end, col, j);
    GroupValuesBounded(rs, start, end, col, o.key, lo, hi);
    MeanBounds(Values(WindowGroup(rs, start, end, o.key), col), lo, hi);
  }

  /** A station whose readings inside the window all carry the same whole
      value is observed at exactly that value. */
  lemma ObservationOfSteadyStation(rs: seq<Reading>, start: int, end: int, col: Column, j: nat, v: real)
    requires j < |Aggregate(rs, start, end, col)|
    requires IsWhole(v)
    requires forall r :: (r in rs && start <= r.time <= end
      && KeyOf(r) == Aggregate(rs, start, end, col)[j].key) ==> ValueOf(r, col) == v
    ensures Aggregate(rs, start, end, col)[j].value == v
  {
    var o := Aggregate(rs, start, end, col)[j];
    ObservationIsRoundedMean(rs, start, end, col, j);
    var vs := Values(WindowGroup(rs, start, end, o.key), col);
    GroupValuesBounded(rs, start, end, col, o.key, v, v);
    MeanBounds(vs, v, v);
    RoundWhole(v);
  }

  /** A window that holds no reading (in particular one whose start lies
      after its end) aggregates to an empty table. */
  lemma EmptyWindowAggregatesToNothing(rs: seq<Reading>, start: int, end: int, col: Column)
    requires forall r :: r in rs ==> !(start <= r.time <= end)
    ensures Aggregate(rs, start, end, col) == []
  {
    var kept := FilterWindow(rs, start, end);
    FilterWindowCounts(rs, start, end);
    forall r
      ensures multiset(kept)[r] == 0
    {
      if r in rs {
        assert !InWindow(r, start, end);
      }
    }
    assert multiset(kept) == multiset{};
  }
}
