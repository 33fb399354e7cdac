/** `K5IsBusToTo.ts`: a second copy of the radius search, measured with the distance of the `K5distance`
    module (not part of this model, hence a parameter); the radius is in kilometres, 1 by default.
    Its code is that of `MinimumDistanceStop.BusStopsToTo` line for line, so it is that function run
    with the K5 distance. */
module K5IsBusToTo {
  import opened Seqs
  import opened Gtfs
  import RouteTypes
  import MinimumDistanceStop

  /** `BusStopsToTo`: the map, filter and map pipeline, run with the K5 distance. */
  function BusStopsToTo(spot: RouteTypes.TouristSpot, stops: seq<Stop>, k5Distance: Distance, max: real := 1.0): (r: seq<Stop>)
    ensures |r| <= |stops|
  {
    MinimumDistanceStop.BusStopsToTo(spot, stops, k5Distance, max)
  }

  /** Empty for an empty table; otherwise exactly the stops within `max` of the sight by the K5
      distance (1 unless given), in table order; a larger radius keeps every stop of a smaller one. */
  lemma BusStopsToToSpec(spot: RouteTypes.TouristSpot, stops: seq<Stop>, k5Distance: Distance, max: real, larger: real)
    requires max <= larger
    ensures stops == [] ==> BusStopsToTo(spot, stops, k5Distance, max) == []
    ensures BusStopsToTo(spot, stops, k5Distance, max) == Filter(stops, MinimumDistanceStop.Near(spot, k5Distance, max))
    ensures forall s :: s in BusStopsToTo(spot, stops, k5Distance, max) <==>
      s in stops && k5Distance(spot.lat, spot.lon, s.lat, s.lon) <= max
    ensures forall s :: s in BusStopsToTo(spot, stops, k5Distance, max) ==> s in BusStopsToTo(spot, stops, k5Distance, larger)
    ensures BusStopsToTo(spot, stops, k5Distance) == BusStopsToTo(spot, stops, k5Distance, 1.0)
  {
    MinimumDistanceStop.BusStopsToToIsFilter(spot, stops, k5Distance, max);
    MinimumDistanceStop.BusStopsToToSpec(spot, stops, k5Distance, max);
    MinimumDistanceStop.BusStopsToToMonotone(spot, stops, k5Distance, max, larger);
  }
}
