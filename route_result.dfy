/** The two pieces of logic of the route result panel (`routeResult.tsx`): the nearest stop within a
    radius (metres, 1000 by default), found by a `reduce`, and the route shown between the nearest
    stops of the two sights. */
module RouteResult {
  import opened Wrappers
  import opened Seqs
  import opened Sorting
  import opened Gtfs
  import RouteTypes
  import MinimumDistanceStop

  type StopDistance = MinimumDistanceStop.StopDistance

  /** The reducer: a stop beyond the radius leaves the accumulator alone; a stop in range replaces it
      when there is none yet or when it is strictly nearer. */
  function Closer(nearest: Option<StopDistance>, stop: Stop, distance: real, maxDistance: real): Option<StopDistance>
  {
    if distance > maxDistance then nearest
    else if nearest.None? || distance < nearest.value.distance then Some(MinimumDistanceStop.StopDistance(stop, distance))
    else nearest
  }

  /** `stops.reduce(…, null)`: the reducer applied to the stops from the first to the last. */
  function ReduceNearest(lat: real, lon: real, stops: seq<Stop>, dist: Distance, maxDistance: real): Option<StopDistance>
  {
    if stops == [] then None
    else
      var stop := stops[|stops| - 1];
      Closer(ReduceNearest(lat, lon, stops[..|stops| - 1], dist, maxDistance), stop, dist(lat, lon, stop.lat, stop.lon), maxDistance)
  }

  /** `findNearestStop`. */
  function FindNearestStop(spot: RouteTypes.TouristSpot, stops: seq<Stop>, dist: Distance, maxDistance: real := 1000.0): Option<StopDistance>
  {
    ReduceNearest(spot.lat, spot.lon, stops, dist, maxDistance)
  }

  function InRange(lat: real, lon: real, dist: Distance, maxDistance: real): Stop -> bool
  {
    (stop: Stop) => dist(lat, lon, stop.lat, stop.lon) <= maxDistance
  }

  function NotFarther(lat: real, lon: real, dist: Distance): (Stop, Stop) -> bool
  {
    (a: Stop, b: Stop) => dist(lat, lon, a.lat, a.lon) <= dist(lat, lon, b.lat, b.lon)
  }

  /** Nothing exactly when no stop is in range; otherwise the in-range stop with the least distance,
      the earliest one on ties since only a strictly nearer stop replaces the accumulator, paired
      with its distance. */
  lemma {:induction false} ReduceNearestSpec(lat: real, lon: real, stops: seq<Stop>, dist: Distance, maxDistance: real)
    ensures ReduceNearest(lat, lon, stops, dist, maxDistance).None? <==>
      forall i :: 0 <= i < |stops| ==> dist(lat, lon, stops[i].lat, stops[i].lon) > maxDistance
    ensures ReduceNearest(lat, lon, stops, dist, maxDistance).Some? ==>
      exists k :: FirstLeastWhere(stops, InRange(lat, lon, dist, maxDistance), NotFarther(lat, lon, dist), k)
        && ReduceNearest(lat, lon, stops, dist, maxDistance).value == MinimumDistanceStop.StopDistance(stops[k], dist(lat, lon, stops[k].lat, stops[k].lon))
  {
    if stops != [] {
      var n := |stops| - 1;
      var front := stops[..n];
      ReduceNearestSpec(lat, lon, front, dist, maxDistance);
      ReduceStep(lat, lon, stops, dist, maxDistance);
    }
  }

  /** The step of the induction: how the last stop changes the answer for the ones before it. */
  lemma ReduceStep(lat: real, lon: real, stops: seq<Stop>, dist: Distance, maxDistance: real)
    requires stops != []
    requires var front := stops[..|stops| - 1];
      && (ReduceNearest(lat, lon, front, dist, maxDistance).None? <==>
          forall i :: 0 <= i < |front| ==> dist(lat, lon, front[i].lat, front[i].lon) > maxDistance)
      && (ReduceNearest(lat, lon, front, dist, maxDistance).Some? ==>
          exists k :: FirstLeastWhere(front, InRange(lat, lon, dist, maxDistance), NotFarther(lat, lon, dist), k)
            && ReduceNearest(lat, lon, front, dist, maxDistance).value == MinimumDistanceStop.StopDistance(front[k], dist(lat, lon, front[k].lat, front[k].lon)))
    ensures ReduceNearest(lat, lon, stops, dist, maxDistance).None? <==>
      forall i :: 0 <= i < |stops| ==> dist(lat, lon, stops[i].lat, stops[i].lon) > maxDistance
    ensures ReduceNearest(lat, lon, stops, dist, maxDistance).Some? ==>
      exists k :: FirstLeastWhere(stops, InRange(lat, lon, dist, maxDistance), NotFarther(lat, lon, dist), k)
        && ReduceNearest(lat, lon, stops, dist, maxDistance).value == MinimumDistanceStop.StopDistance(stops[k], dist(lat, lon, stops[k].lat, stops[k].lon))
  {
    var n := |stops| - 1;
    var front := stops[..n];
    var x := stops[n];
    var p := InRange(lat, lon, dist, maxDistance);
    var le := NotFarther(lat, lon, dist);
    var r0 := ReduceNearest(lat, lon, front, dist, maxDistance);
    var dx := dist(lat, lon, x.lat, x.lon);
    assert forall j :: 0 <= j < n ==> stops[j] == front[j];
    if r0.None? {
      if dx <= maxDistance {
        LeastExtendNew(stops, p, le);
      }
    } else {
      var k :| FirstLeastWhere(front, p, le, k) && r0.value == MinimumDistanceStop.StopDistance(front[k], dist(lat, lon, front[k].lat, front[k].lon));
      if dx <= maxDistance && dx < r0.value.distance {
        LeastExtendNew(stops, p, le);
      } else {
        LeastExtendKeep(stops, p, le, k);
      }
    }
  }

  /** What `findBestRoute` returns: the route with the buses on it and the two nearest stops. */
  datatype RouteCandidate = RouteCandidate(route: Route, buses: seq<Vehicle>, fromStop: StopDistance, toStop: StopDistance)

  /** The route filter of the source, which keeps every route. */
  function AnyRoute(): Route -> bool
  {
    (route: Route) => true
  }

  /** `v.vehicle?.trip?.routeId === route.route_id`. */
  function OnRoute(routeId: string): Vehicle -> bool
  {
    (v: Vehicle) => v.routeId == Some(routeId)
  }

  function CandidateOf(vehicles: seq<Vehicle>, fromStop: StopDistance, toStop: StopDistance): Route -> RouteCandidate
  {
    (route: Route) => RouteCandidate(route, Filter(vehicles, OnRoute(route.id)), fromStop, toStop)
  }

  /** `findBestRoute`: nothing when either sight has no stop within 1000; otherwise the first of the
      (unfiltered) routes with its buses, or nothing when there are no routes. */
  function FindBestRoute(fromSpot: RouteTypes.TouristSpot, toSpot: RouteTypes.TouristSpot, stops: seq<Stop>,
                         vehicles: seq<Vehicle>, routes: seq<Route>, dist: Distance): Option<RouteCandidate>
  {
    var fromNearestStop := FindNearestStop(fromSpot, stops, dist);
    var toNearestStop := FindNearestStop(toSpot, stops, dist);
    if fromNearestStop.None? || toNearestStop.None? then None
    else
      var availableRoutes := Filter(routes, AnyRoute());
      if |availableRoutes| == 0 then None
      else
        var routeOptions := Map(availableRoutes, CandidateOf(vehicles, fromNearestStop.value, toNearestStop.value));
        Some(routeOptions[0])
  }

  /** Nothing exactly when a sight has no stop in range or there is no route; otherwise the first
      route of the table, the buses that run it in feed order, and the two nearest stops. */
  lemma FindBestRouteSpec(fromSpot: RouteTypes.TouristSpot, toSpot: RouteTypes.TouristSpot, stops: seq<Stop>,
                          vehicles: seq<Vehicle>, routes: seq<Route>, dist: Distance)
    ensures FindBestRoute(fromSpot, toSpot, stops, vehicles, routes, dist).None? <==>
      FindNearestStop(fromSpot, stops, dist).None? || FindNearestStop(toSpot, stops, dist).None? || routes == []
    ensures FindBestRoute(fromSpot, toSpot, stops, vehicles, routes, dist).Some? ==>
      var c := FindBestRoute(fromSpot, toSpot, stops, vehicles, routes, dist).value;
      && c.route == routes[0]
      && Some(c.fromStop) == FindNearestStop(fromSpot, stops, dist)
      && Some(c.toStop) == FindNearestStop(toSpot, stops, dist)
      && OrderedSelection(c.buses, vehicles, KeptIndices(vehicles, OnRoute(routes[0].id)), OnRoute(routes[0].id))
      && forall v :: v in c.buses <==> v in vehicles && v.routeId == Some(routes[0].id)
  {
    FilterAll(routes, AnyRoute());
    if routes != [] {
      FilterSelects(vehicles, OnRoute(routes[0].id));
      FilterMembers(vehicles, OnRoute(routes[0].id));
    }
  }
}
