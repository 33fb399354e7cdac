/** The two stop locators of `StartToStopMinimumDistanceStop.ts`: the stop nearest to a sight,
    and the stops within a radius of it (kilometres, 1 by default). */
module MinimumDistanceStop {
  import opened Wrappers
  import opened Seqs
  import opened Sorting
  import opened Gtfs
  import RouteTypes

  /** A stop paired with its distance from the sight, as the `{ stop, distance }` objects are. */
  datatype StopDistance = StopDistance(stop: Stop, distance: real)

  function WithDistance(spot: RouteTypes.TouristSpot, dist: Distance): Stop -> StopDistance
  {
    (stop: Stop) => StopDistance(stop, dist(spot.lat, spot.lon, stop.lat, stop.lon))
  }

  /** The comparator `(a, b) => a.distance - b.distance`, read as "not after". */
  function ByDistance(): (StopDistance, StopDistance) -> bool
  {
    (a: StopDistance, b: StopDistance) => a.distance - b.distance <= 0.0
  }

  function AnyPair(): StopDistance -> bool
  {
    (p: StopDistance) => true
  }

  function StopOf(p: StopDistance): Stop
  {
    p.stop
  }

  lemma ByDistanceIsPreorder()
    ensures TotalPreorder(ByDistance())
  {
  }

  /** `StartToStopMinimumDistanceStop`: no stop for an empty table, otherwise the first pair of the
      table sorted by distance. */
  function StartToStopMinimumDistanceStop(spot: RouteTypes.TouristSpot, stops: seq<Stop>, dist: Distance): Option<Stop>
  {
    if |stops| == 0 then None
    else
      var nearestStop := SortBy(Map(stops, WithDistance(spot, dist)), ByDistance())[0];
      Some(nearestStop.stop)
  }

  /** Position `k` holds a stop at least as near as every other, and nearer than every earlier one. */
  ghost predicate NearestAt(spot: RouteTypes.TouristSpot, stops: seq<Stop>, dist: Distance, k: int)
  {
    && 0 <= k < |stops|
    && (forall j :: 0 <= j < |stops| ==>
          dist(spot.lat, spot.lon, stops[k].lat, stops[k].lon) <= dist(spot.lat, spot.lon, stops[j].lat, stops[j].lon))
    && (forall j :: 0 <= j < k ==>
          dist(spot.lat, spot.lon, stops[j].lat, stops[j].lon) > dist(spot.lat, spot.lon, stops[k].lat, stops[k].lon))
  }

  /** Nothing exactly for an empty table; otherwise a stop of the table that is at least as near as
      every other, with no radius limit, and the earliest of the nearest ones since the sort is stable. */
  lemma NearestStopSpec(spot: RouteTypes.TouristSpot, stops: seq<Stop>, dist: Distance)
    ensures StartToStopMinimumDistanceStop(spot, stops, dist).None? <==> stops == []
    ensures stops != [] ==>
      exists k :: NearestAt(spot, stops, dist, k) && StartToStopMinimumDistanceStop(spot, stops, dist) == Some(stops[k])
  {
    if stops != [] {
      var pairs := Map(stops, WithDistance(spot, dist));
      ByDistanceIsPreorder();
      SortHead(pairs, ByDistance(), AnyPair());
      var k :| FirstLeastWhere(pairs, AnyPair(), ByDistance(), k) && SortBy(pairs, ByDistance())[0] == pairs[k];
      forall j | 0 <= j < |stops|
        ensures dist(spot.lat, spot.lon, stops[k].lat, stops[k].lon) <= dist(spot.lat, spot.lon, stops[j].lat, stops[j].lon)
      {
        assert ByDistance()(pairs[k], pairs[j]);
      }
      forall j | 0 <= j < k
        ensures dist(spot.lat, spot.lon, stops[j].lat, stops[j].lon) > dist(spot.lat, spot.lon, stops[k].lat, stops[k].lon)
      {
        assert !ByDistance()(pairs[j], pairs[k]);
      }
    }
  }

  function Within(max: real): StopDistance -> bool
  {
    (item: StopDistance) => item.distance <= max
  }

  /** The stops within `max` of the sight. */
  function Near(spot: RouteTypes.TouristSpot, dist: Distance, max: real): Stop -> bool
  {
    Through(WithDistance(spot, dist), Within(max))
  }

  /** `BusStopsToTo`: pair every stop with its distance, keep the pairs within `max` and return
      their stops; an empty table gives an empty list. */
  function BusStopsToTo(spot: RouteTypes.TouristSpot, stops: seq<Stop>, dist: Distance, max: real := 1.0): seq<Stop>
  {
    if |stops| == 0 then []
    else
      var stopsWithDistance := Map(stops, WithDistance(spot, dist));
      var filteredStops := Filter(stopsWithDistance, Within(max));
      Map(filteredStops, StopOf)
  }

  /** The pipeline is a filter of the table by distance. */
  lemma BusStopsToToIsFilter(spot: RouteTypes.TouristSpot, stops: seq<Stop>, dist: Distance, max: real)
    ensures BusStopsToTo(spot, stops, dist, max) == Filter(stops, Near(spot, dist, max))
  {
    MapFilterMap(stops, WithDistance(spot, dist), Within(max), StopOf);
  }

  /** Empty for an empty table; otherwise exactly the stops within `max` (1 unless given), in table order. */
  lemma BusStopsToToSpec(spot: RouteTypes.TouristSpot, stops: seq<Stop>, dist: Distance, max: real)
    ensures stops == [] ==> BusStopsToTo(spot, stops, dist, max) == []
    ensures OrderedSelection(BusStopsToTo(spot, stops, dist, max), stops,
      KeptIndices(stops, Near(spot, dist, max)), Near(spot, dist, max))
    ensures forall s :: s in BusStopsToTo(spot, stops, dist, max) <==>
      s in stops && dist(spot.lat, spot.lon, s.lat, s.lon) <= max
    ensures BusStopsToTo(spot, stops, dist) == BusStopsToTo(spot, stops, dist, 1.0)
  {
    BusStopsToToIsFilter(spot, stops, dist, max);
    FilterSelects(stops, Near(spot, dist, max));
    FilterMembers(stops, Near(spot, dist, max));
  }

  /** Raising the radius never drops a stop: the smaller result is the larger one narrowed to the
      smaller radius. */
  lemma BusStopsToToMonotone(spot: RouteTypes.TouristSpot, stops: seq<Stop>, dist: Distance, max1: real, max2: real)
    requires max1 <= max2
    ensures Filter(BusStopsToTo(spot, stops, dist, max2), Near(spot, dist, max1)) == BusStopsToTo(spot, stops, dist, max1)
    ensures forall s :: s in BusStopsToTo(spot, stops, dist, max1) ==> s in BusStopsToTo(spot, stops, dist, max2)
  {
    BusStopsToToIsFilter(spot, stops, dist, max1);
    BusStopsToToIsFilter(spot, stops, dist, max2);
    FilterNarrows(stops, Near(spot, dist, max1), Near(spot, dist, max2));
    FilterMembers(stops, Near(spot, dist, max1));
    FilterMembers(stops, Near(spot, dist, max2));
  }
}
