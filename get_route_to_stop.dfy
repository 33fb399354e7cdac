/** The lookups of `getRouteToStop.ts` that join the GTFS tables: routes through a stop, stops of a
    route, a route's name, the times of a tracked trip at a stop and a stop's id by its name.
    The loose `==` between ids is string equality here. */
module GetRouteToStop {
  import opened Wrappers
  import opened Seqs
  import opened Gtfs

  function AtStop(stopId: string): StopTime -> bool
  {
    (stopTime: StopTime) => stopTime.stopId == stopId
  }

  function StopTimeTripId(st: StopTime): string
  {
    st.tripId
  }

  function StopTimeStopId(st: StopTime): string
  {
    st.stopId
  }

  function TripTripId(t: Trip): string
  {
    t.tripId
  }

  function TripRouteId(t: Trip): string
  {
    t.routeId
  }

  function TripIn(tripIds: seq<string>): Trip -> bool
  {
    (trip: Trip) => trip.tripId in tripIds
  }

  function RouteIn(routeIds: seq<string>): Route -> bool
  {
    (route: Route) => route.id in routeIds
  }

  /** The route ids of the trips that have a stop-time at `stop`. */
  function RouteIdsThrough(stop: Stop, stopTimes: seq<StopTime>, trips: seq<Trip>): seq<string>
  {
    var stopTimeIds := Map(Filter(stopTimes, AtStop(stop.id)), StopTimeTripId);
    Map(Filter(trips, TripIn(stopTimeIds)), TripRouteId)
  }

  /** `getRouteFromStop`: the routes, in route-table order, whose id is among those trips' route ids. */
  function GetRouteFromStop(stop: Stop, stopTimes: seq<StopTime>, trips: seq<Trip>, routes: seq<Route>): seq<Route>
  {
    var tripIds := RouteIdsThrough(stop, stopTimes, trips);
    Filter(routes, RouteIn(tripIds))
  }

  /** A trip of `route` has a stop-time at `stop`. */
  ghost predicate Serves(route: Route, stop: Stop, stopTimes: seq<StopTime>, trips: seq<Trip>)
  {
    exists trip, st :: trip in trips && st in stopTimes
      && trip.routeId == route.id && st.tripId == trip.tripId && st.stopId == stop.id
  }

  /** The routes returned are, in route-table order, exactly those that own a trip calling at the stop;
      so a stop no stop-time mentions gets none. */
  lemma GetRouteFromStopSpec(stop: Stop, stopTimes: seq<StopTime>, trips: seq<Trip>, routes: seq<Route>)
    ensures var ids := RouteIdsThrough(stop, stopTimes, trips);
      OrderedSelection(GetRouteFromStop(stop, stopTimes, trips, routes), routes, KeptIndices(routes, RouteIn(ids)), RouteIn(ids))
    ensures forall route :: route in GetRouteFromStop(stop, stopTimes, trips, routes) <==>
      route in routes && Serves(route, stop, stopTimes, trips)
    ensures (forall st :: st in stopTimes ==> st.stopId != stop.id) ==> GetRouteFromStop(stop, stopTimes, trips, routes) == []
  {
    var stopTimeIds := Map(Filter(stopTimes, AtStop(stop.id)), StopTimeTripId);
    var ids := RouteIdsThrough(stop, stopTimes, trips);
    FilterSelects(routes, RouteIn(ids));
    FilterMembers(routes, RouteIn(ids));
    forall route: Route
      ensures route.id in ids <==> Serves(route, stop, stopTimes, trips)
    {
      MapFilterMembers(trips, TripIn(stopTimeIds), TripRouteId, route.id);
      forall trip: Trip
        ensures trip.tripId in stopTimeIds <==> exists st :: st in stopTimes && st.stopId == stop.id && st.tripId == trip.tripId
      {
        MapFilterMembers(stopTimes, AtStop(stop.id), StopTimeTripId, trip.tripId);
      }
    }
    if forall st :: st in stopTimes ==> st.stopId != stop.id {
      FilterEmpty(routes, RouteIn(ids));
      forall i | 0 <= i < |routes| ensures !RouteIn(ids)(routes[i]) {
        assert routes[i] in routes;
      }
    }
  }

  function TripOfRoute(routeId: string): Trip -> bool
  {
    (trip: Trip) => trip.routeId == routeId
  }

  function StopTimeIn(tripIds: seq<string>): StopTime -> bool
  {
    (stopTime: StopTime) => stopTime.tripId in tripIds
  }

  function StopIn(stopIds: seq<string>): Stop -> bool
  {
    (stop: Stop) => stop.id in stopIds
  }

  /** The stop ids of the stop-times of the trips of `route`. */
  function StopIdsOfRoute(route: Route, stopTimes: seq<StopTime>, trips: seq<Trip>): seq<string>
  {
    var tripIds := Map(Filter(trips, TripOfRoute(route.id)), TripTripId);
    Map(Filter(stopTimes, StopTimeIn(tripIds)), StopTimeStopId)
  }

  /** `getStopFromRoute`: the stops, in stop-table order, whose id is among those stop ids. */
  function GetStopFromRoute(route: Route, stopTimes: seq<StopTime>, trips: seq<Trip>, stops: seq<Stop>): seq<Stop>
  {
    var stopIds := StopIdsOfRoute(route, stopTimes, trips);
    Filter(stops, StopIn(stopIds))
  }

  /** The stops returned are, in stop-table order, exactly those some trip of the route calls at. */
  lemma GetStopFromRouteSpec(route: Route, stopTimes: seq<StopTime>, trips: seq<Trip>, stops: seq<Stop>)
    ensures var ids := StopIdsOfRoute(route, stopTimes, trips);
      OrderedSelection(GetStopFromRoute(route, stopTimes, trips, stops), stops, KeptIndices(stops, StopIn(ids)), StopIn(ids))
    ensures forall stop :: stop in GetStopFromRoute(route, stopTimes, trips, stops) <==>
      stop in stops && Serves(route, stop, stopTimes, trips)
  {
    var tripIds := Map(Filter(trips, TripOfRoute(route.id)), TripTripId);
    var ids := StopIdsOfRoute(route, stopTimes, trips);
    FilterSelects(stops, StopIn(ids));
    FilterMembers(stops, StopIn(ids));
    forall stop: Stop
      ensures stop.id in ids <==> Serves(route, stop, stopTimes, trips)
    {
      MapFilterMembers(stopTimes, StopTimeIn(tripIds), StopTimeStopId, stop.id);
      forall st: StopTime
        ensures st.tripId in tripIds <==> exists trip :: trip in trips && trip.routeId == route.id && trip.tripId == st.tripId
      {
        MapFilterMembers(trips, TripOfRoute(route.id), TripTripId, st.tripId);
      }
    }
  }

  function HasRouteId(routeId: string): Route -> bool
  {
    (route: Route) => route.id == routeId
  }

  /** `getRoutenameFromRouteId`: the long name of the first route with the id, or the empty text. */
  function GetRoutenameFromRouteId(routeId: string, routes: seq<Route>): (r: string)
    ensures (forall i :: 0 <= i < |routes| ==> routes[i].id != routeId) ==> r == ""
  {
    var route := Find(routes, HasRouteId(routeId));
    if route.Some? then route.value.longName else ""
  }

  lemma GetRoutenameFirst(routeId: string, routes: seq<Route>, k: int)
    requires 0 <= k < |routes| && routes[k].id == routeId
    requires forall j :: 0 <= j < k ==> routes[j].id != routeId
    ensures GetRoutenameFromRouteId(routeId, routes) == routes[k].longName
  {
    FindFirstAt(routes, HasRouteId(routeId), k);
  }

  /** The arrival and departure texts returned for a stop; both empty when nothing is found. */
  datatype StopTimeTexts = StopTimeTexts(arrivalTime: string, departureTime: string)

  function VehicleTripId(v: Vehicle): Option<string>
  {
    v.tripId
  }

  /** `tripIds.includes(stopTime.trip_id)`; a vehicle without a trip contributes `undefined`,
      which no stop-time's trip id equals. */
  function TrackedBy(tripIds: seq<Option<string>>): StopTime -> bool
  {
    (stopTime: StopTime) => Some(stopTime.tripId) in tripIds
  }

  /** `getStopTimeFromRouteAndStop`: no vehicle list gives empty texts; otherwise the first
      stop-time at the stop among those of the vehicles' trips, or empty texts. */
  function GetStopTimeFromRouteAndStop(stopId: string, stopTimes: seq<StopTime>, trips: Option<seq<Vehicle>>): (r: StopTimeTexts)
    ensures trips.None? ==> r == StopTimeTexts("", "")
  {
    match trips
    case None => StopTimeTexts("", "")
    case Some(vehicles) =>
      var tripIds := Map(vehicles, VehicleTripId);
      var stopTime := Filter(stopTimes, TrackedBy(tripIds));
      var stopTime2 := Find(stopTime, AtStop(stopId));
      if stopTime2.Some? then StopTimeTexts(stopTime2.value.arrival, stopTime2.value.departure)
      else StopTimeTexts("", "")
  }

  /** A stop-time at `stopId` whose trip one of the vehicles runs. */
  function TrackedAt(vehicles: seq<Vehicle>, stopId: string): StopTime -> bool
  {
    (st: StopTime) => (exists v :: v in vehicles && v.tripId == Some(st.tripId)) && st.stopId == stopId
  }

  /** With vehicles, the texts are those of the first stop-time, in table order, at the stop and on
      a vehicle's trip; empty texts when there is none. */
  lemma StopTimeFromRouteAndStopSpec(stopId: string, stopTimes: seq<StopTime>, vehicles: seq<Vehicle>)
    ensures (forall i :: 0 <= i < |stopTimes| ==> !TrackedAt(vehicles, stopId)(stopTimes[i])) ==>
      GetStopTimeFromRouteAndStop(stopId, stopTimes, Some(vehicles)) == StopTimeTexts("", "")
    ensures forall k :: FirstAt(stopTimes, TrackedAt(vehicles, stopId), k) ==>
      GetStopTimeFromRouteAndStop(stopId, stopTimes, Some(vehicles)) == StopTimeTexts(stopTimes[k].arrival, stopTimes[k].departure)
  {
    var tripIds := Map(vehicles, VehicleTripId);
    forall st: StopTime
      ensures TrackedAt(vehicles, stopId)(st) == (TrackedBy(tripIds)(st) && AtStop(stopId)(st))
    {
      if Some(st.tripId) in tripIds {
        var k :| 0 <= k < |tripIds| && tripIds[k] == Some(st.tripId);
        assert vehicles[k] in vehicles;
      }
      if exists v :: v in vehicles && v.tripId == Some(st.tripId) {
        var v :| v in vehicles && v.tripId == Some(st.tripId);
        var k :| 0 <= k < |vehicles| && vehicles[k] == v;
        assert tripIds[k] == Some(st.tripId);
      }
    }
    FindFiltered(stopTimes, TrackedBy(tripIds), AtStop(stopId), TrackedAt(vehicles, stopId));
    forall k | FirstAt(stopTimes, TrackedAt(vehicles, stopId), k)
      ensures GetStopTimeFromRouteAndStop(stopId, stopTimes, Some(vehicles)) == StopTimeTexts(stopTimes[k].arrival, stopTimes[k].departure)
    {
      FindFirstAt(stopTimes, TrackedAt(vehicles, stopId), k);
    }
  }

  function HasName(stopName: string): Stop -> bool
  {
    (stop: Stop) => stop.name == stopName
  }

  /** `getStopIdfromStopName`: the id of the first stop with the name, or the empty text. */
  function GetStopIdFromStopName(stopName: string, stops: seq<Stop>): (r: string)
    ensures (forall i :: 0 <= i < |stops| ==> stops[i].name != stopName) ==> r == ""
  {
    var stop := Find(stops, HasName(stopName));
    if stop.Some? then stop.value.id else ""
  }

  lemma GetStopIdFirst(stopName: string, stops: seq<Stop>, k: int)
    requires 0 <= k < |stops| && stops[k].name == stopName
    requires forall j :: 0 <= j < k ==> stops[j].name != stopName
    ensures GetStopIdFromStopName(stopName, stops) == stops[k].id
  {
    FindFirstAt(stops, HasName(stopName), k);
  }
}
