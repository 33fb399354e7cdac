/** The route planner behind the trip screen: the main route between the stops nearest to the two
    sights, the alternatives offered when that bus is crowded or another line serves nearby stops,
    and the hook that stores the outcome. The current time is a parameter. */
module RouteCalculation {
  import opened Wrappers
  import opened Seqs
  import opened Sorting
  import opened Text
  import opened Gtfs
  import opened RouteUtils
  import RouteTypes
  import OccupancyUtils

  /** The static and realtime tables the planner reads. */
  datatype Tables = Tables(
    routes: seq<Route>,
    stops: seq<Stop>,
    stopTimes: seq<StopTime>,
    vehicles: seq<Vehicle>,
    fareRules: seq<FareRule>,
    fareAttributes: seq<FareAttribute>)

  function Min(a: int, b: int): int { if a <= b then a else b }
  function Max(a: int, b: int): int { if a <= b then b else a }

  /** A stop-time belongs to a route when its trip id starts with the route id. */
  function OfRoute(routeId: string): StopTime -> bool
  {
    (st: StopTime) => routeId <= st.tripId
  }

  function RouteStopTimes(routeId: string, stopTimes: seq<StopTime>): seq<StopTime>
  {
    Filter(stopTimes, OfRoute(routeId))
  }

  predicate CallsAt(stopTimes: seq<StopTime>, stopId: string)
  {
    exists i :: 0 <= i < |stopTimes| && stopTimes[i].stopId == stopId
  }

  /** A route connects the two stops when its stop-times call at both. */
  function ConnectsOf(fromStop: Stop, toStop: Stop, stopTimes: seq<StopTime>): Route -> bool
  {
    (route: Route) =>
      var routeStopTimes := RouteStopTimes(route.id, stopTimes);
      CallsAt(routeStopTimes, fromStop.id) && CallsAt(routeStopTimes, toStop.id)
  }

  /** A departure from the stop at or after the current minute. */
  function DepartsOf(fromStop: Stop, currentMinutes: int): StopTime -> bool
  {
    (st: StopTime) => st.stopId == fromStop.id && TimeToMinutes(st.departure) >= currentMinutes
  }

  function InTrip(tripId: string): StopTime -> bool
  {
    (st: StopTime) => st.tripId == tripId
  }

  function AtStop(stopId: string): StopTime -> bool
  {
    (st: StopTime) => st.stopId == stopId
  }

  function ByArrival(): (StopTime, StopTime) -> bool
  {
    (a: StopTime, b: StopTime) => TimeToMinutes(a.arrival) <= TimeToMinutes(b.arrival)
  }

  function BySequence(): (StopTime, StopTime) -> bool
  {
    (a: StopTime, b: StopTime) => a.sequence <= b.sequence
  }

  lemma OrdersArePreorders()
    ensures TotalPreorder(ByArrival()) && TotalPreorder(BySequence())
  {
  }

  /** The chosen ride before stop records, fare and occupancy are attached: the route, the trip,
      the trip's stop-times in `stop_sequence` order, the first index of each of the two stops in
      them, and the stop-times from the one to the other. */
  datatype Leg = Leg(route: Route, tripId: string, tripStops: seq<StopTime>, fromIndex: nat, toIndex: nat, relevant: seq<StopTime>)

  /** Step 1: the first route, in table order, that calls at both stops. */
  function SelectedRoute(fromStop: Stop, toStop: Stop, t: Tables): Option<Route>
  {
    var availableRoutes := Filter(t.routes, ConnectsOf(fromStop, toStop, t.stopTimes));
    if availableRoutes == [] then None else Some(availableRoutes[0])
  }

  /** Step 2: the route's stop-times in arrival-minute order. */
  function ByArrivalOnRoute(routeId: string, stopTimes: seq<StopTime>): seq<StopTime>
  {
    SortBy(RouteStopTimes(routeId, stopTimes), ByArrival())
  }

  /** Steps 3 and 4: the trip of the first of them departing from the boarding stop at or after the
      current minute. */
  function NextTripId(routeStopTimes: seq<StopTime>, fromStop: Stop, currentMinutes: int): Option<string>
  {
    var nextDepartures := Filter(routeStopTimes, DepartsOf(fromStop, currentMinutes));
    if nextDepartures == [] then None else Some(nextDepartures[0].tripId)
  }

  /** Step 5: the trip's stop-times in `stop_sequence` order. */
  function TripStops(routeStopTimes: seq<StopTime>, tripId: string): seq<StopTime>
  {
    SortBy(Filter(routeStopTimes, InTrip(tripId)), BySequence())
  }

  /** Step 6: the stop-times between the first calls at the two stops, in trip order whichever
      stop comes first; nothing when the trip misses one of them. */
  function LegBetween(route: Route, tripId: string, tripStops: seq<StopTime>, fromStop: Stop, toStop: Stop): (r: Option<Leg>)
    ensures r.Some? ==> r.value.relevant != []
  {
    var fromIndex := FirstIndex(tripStops, AtStop(fromStop.id));
    var toIndex := FirstIndex(tripStops, AtStop(toStop.id));
    if fromIndex == -1 || toIndex == -1 then None
    else
      var relevant := tripStops[Min(fromIndex, toIndex)..Max(fromIndex, toIndex) + 1];
      Some(Leg(route, tripId, tripStops, fromIndex, toIndex, relevant))
  }

  /** Steps 1 to 6 of `calculateMainRoute`. */
  function SelectLeg(fromStop: Stop, toStop: Stop, t: Tables, currentTime: string): (r: Option<Leg>)
    ensures r.Some? ==> r.value.relevant != []
  {
    match SelectedRoute(fromStop, toStop, t)
    case None => None
    case Some(route) =>
      var routeStopTimes := ByArrivalOnRoute(route.id, t.stopTimes);
      match NextTripId(routeStopTimes, fromStop, TimeToMinutes(currentTime))
      case None => None
      case Some(tripId) => LegBetween(route, tripId, TripStops(routeStopTimes, tripId), fromStop, toStop)
  }

  /** `stops[k]` is the last stop with the id. */
  ghost predicate LastWithId(stops: seq<Stop>, id: string, k: int)
  {
    0 <= k < |stops| && stops[k].id == id && forall j :: k < j < |stops| ==> stops[j].id != id
  }

  /** `new Map(stops.map(s => [s.stop_id, s])).get(id)`: the last stop with the id wins. */
  function LookupStop(stops: seq<Stop>, id: string): Option<Stop>
  {
    if stops == [] then None
    else
      var later := LookupStop(stops[1..], id);
      if later.Some? then later
      else if stops[0].id == id then Some(stops[0])
      else None
  }

  /** The lookup finds nothing exactly when no stop has the id, and otherwise the last one that has. */
  lemma {:induction false} LookupStopSpec(stops: seq<Stop>, id: string)
    ensures var r := LookupStop(stops, id);
      && (r.None? <==> forall k :: 0 <= k < |stops| ==> stops[k].id != id)
      && (r.Some? ==> exists k :: LastWithId(stops, id, k) && stops[k] == r.value)
  {
    if stops != [] {
      LookupStopSpec(stops[1..], id);
      assert forall k :: 1 <= k < |stops| ==> stops[1..][k - 1] == stops[k];
      var later := LookupStop(stops[1..], id);
      if later.Some? {
        var k :| LastWithId(stops[1..], id, k) && stops[1..][k] == later.value;
        assert LastWithId(stops, id, k + 1);
      } else if stops[0].id == id {
        assert LastWithId(stops, id, 0);
      }
    }
  }

  /** The stop record `createRouteStop` makes for a stop-time, at the given time and occupancy. */
  function StopRecord(currentTime: string, occupancyLevel: int): (Stop, StopTime) -> RouteTypes.RouteStop
  {
    (stop: Stop, stopTime: StopTime) => CreateRouteStop(stop, stopTime, currentTime, occupancyLevel)
  }

  /** The stop records of a slice, each made by `make`; `None` when one of its stop ids is not in the
      stop table (the source throws there and its `catch` turns the route into null). */
  function ResolveStops<X>(relevant: seq<StopTime>, stops: seq<Stop>, make: (Stop, StopTime) -> X): Option<seq<X>>
  {
    if relevant == [] then Some([])
    else
      var stop := LookupStop(stops, relevant[0].stopId);
      var rest := ResolveStops(relevant[1..], stops, make);
      if stop.None? || rest.None? then None
      else Some([make(stop.value, relevant[0])] + rest.value)
  }

  /** Resolution fails exactly when some stop id is missing, and otherwise makes one stop record
      per stop-time, in order. */
  lemma {:induction false} ResolveStopsSpec<X>(relevant: seq<StopTime>, stops: seq<Stop>, make: (Stop, StopTime) -> X)
    ensures var r := ResolveStops(relevant, stops, make);
      && (r.None? <==> exists i :: 0 <= i < |relevant| && LookupStop(stops, relevant[i].stopId).None?)
      && (r.Some? ==> |r.value| == |relevant| && forall i :: 0 <= i < |relevant| ==>
            r.value[i] == make(LookupStop(stops, relevant[i].stopId).value, relevant[i]))
  {
    if relevant != [] {
      var tail := relevant[1..];
      var stop := LookupStop(stops, relevant[0].stopId);
      var rest := ResolveStops(tail, stops, make);
      ResolveStopsSpec(tail, stops, make);
      assert forall i :: 1 <= i < |relevant| ==> tail[i - 1] == relevant[i];
      if stop.Some? && rest.Some? {
        var head := make(stop.value, relevant[0]);
        assert ResolveStops(relevant, stops, make) == Some([head] + rest.value);
        assert forall i :: 1 <= i < |relevant| ==> ([head] + rest.value)[i] == rest.value[i - 1];
      } else if stop.None? {
        assert LookupStop(stops, relevant[0].stopId).None?;
      } else {
        var i :| 0 <= i < |tail| && LookupStop(stops, tail[i].stopId).None?;
        assert LookupStop(stops, relevant[i + 1].stopId).None?;
      }
    }
  }

  /** The occupancy the first vehicle whose `trip.trip_id` is the trip reports, or EMPTY (0). The
      feed's status is taken as its enum number. */
  function VehicleOccupancy(vehicles: seq<Vehicle>, tripId: string): (r: int)
    ensures (forall k :: 0 <= k < |vehicles| ==> vehicles[k].snakeTripId != Some(tripId)) ==> r == 0
    ensures forall k :: FirstAt(vehicles, (v: Vehicle) => v.snakeTripId == Some(tripId), k) ==>
      r == if vehicles[k].occupancyStatus.Some? then vehicles[k].occupancyStatus.value.Number() else 0
  {
    var currentVehicle := Find(vehicles, (v: Vehicle) => v.snakeTripId == Some(tripId));
    if currentVehicle.Some? && currentVehicle.value.occupancyStatus.Some? then
      currentVehicle.value.occupancyStatus.value.Number()
    else 0
  }

  /** Steps 7 to 9 of `calculateMainRoute`: the route info of a leg. */
  function RouteInfoOf(leg: Leg, fromStop: Stop, toStop: Stop, t: Tables, currentTime: string): Option<RouteTypes.RouteInfo>
    requires leg.relevant != []
  {
    var occupancyLevel := VehicleOccupancy(t.vehicles, leg.tripId);
    var routeStops := ResolveStops(leg.relevant, t.stops, StopRecord(currentTime, occupancyLevel));
    if routeStops.None? then None
    else
      var first := leg.relevant[0];
      var last := leg.relevant[|leg.relevant| - 1];
      Some(RouteTypes.RouteInfo(
        "route-" + leg.route.id + "-" + leg.tripId,
        leg.route,
        routeStops.value,
        CalculateFare(leg.route, fromStop, toStop, t.fareRules, t.fareAttributes),
        CalculateTotalTime(first.departure, last.arrival),
        RouteTypes.StopLabel(fromStop.name, first.departure),
        RouteTypes.StopLabel(toStop.name, last.arrival),
        None,
        occupancyLevel))
  }

  /** `calculateMainRoute`. */
  function CalculateMainRoute(fromStop: Stop, toStop: Stop, t: Tables, currentTime: string): Option<RouteTypes.RouteInfo>
  {
    match SelectLeg(fromStop, toStop, t, currentTime)
    case None => None
    case Some(leg) => RouteInfoOf(leg, fromStop, toStop, t, currentTime)
  }

  /** The route is the first, in table order, whose stop-times call at both stops; with none there
      is no route. */
  lemma SelectLegRoute(fromStop: Stop, toStop: Stop, t: Tables, currentTime: string)
    ensures (forall k :: 0 <= k < |t.routes| ==> !ConnectsOf(fromStop, toStop, t.stopTimes)(t.routes[k])) ==>
      SelectLeg(fromStop, toStop, t, currentTime).None?
    ensures SelectLeg(fromStop, toStop, t, currentTime).Some? ==>
      exists k :: FirstAt(t.routes, ConnectsOf(fromStop, toStop, t.stopTimes), k) &&
        SelectLeg(fromStop, toStop, t, currentTime).value.route == t.routes[k]
  {
    var connects := ConnectsOf(fromStop, toStop, t.stopTimes);
    FilterEmpty(t.routes, connects);
    if Filter(t.routes, connects) != [] {
      FilterHead(t.routes, connects);
    }
  }

  /** The trip is that of the first departure from the boarding stop at or after the current minute,
      first in arrival-minute order and, among equal minutes, in table order; with no such
      departure there is no trip. */
  lemma NextTripIdSpec(routeId: string, stopTimes: seq<StopTime>, fromStop: Stop, currentMinutes: int)
    ensures var s := RouteStopTimes(routeId, stopTimes);
      var departs := DepartsOf(fromStop, currentMinutes);
      var r := NextTripId(ByArrivalOnRoute(routeId, stopTimes), fromStop, currentMinutes);
      && (r.None? <==> forall j :: 0 <= j < |s| ==> !departs(s[j]))
      && (r.Some? ==> exists k :: FirstLeastWhere(s, departs, ByArrival(), k) && r.value == s[k].tripId)
  {
    OrdersArePreorders();
    SortedFilterHead(RouteStopTimes(routeId, stopTimes), ByArrival(), DepartsOf(fromStop, currentMinutes));
  }

  /** The trip's stop-times are all the route's stop-times of that trip, each as often as in the
      table and no others, in `stop_sequence` order. */
  lemma TripStopsSpec(routeId: string, stopTimes: seq<StopTime>, tripId: string)
    ensures var ts := TripStops(ByArrivalOnRoute(routeId, stopTimes), tripId);
      && SortedBy(ts, BySequence())
      && multiset(ts) == multiset(Filter(RouteStopTimes(routeId, stopTimes), InTrip(tripId)))
      && forall x :: x in ts <==> x in stopTimes && x.tripId == tripId && routeId <= x.tripId
  {
    var s := RouteStopTimes(routeId, stopTimes);
    var sorted := ByArrivalOnRoute(routeId, stopTimes);
    var inTrip := Filter(sorted, InTrip(tripId));
    var ts := TripStops(sorted, tripId);
    OrdersArePreorders();
    SortIsSorted(inTrip, BySequence());
    SortPermutes(inTrip, BySequence());
    SortFilterCommute(s, ByArrival(), InTrip(tripId));
    SortPermutes(Filter(s, InTrip(tripId)), ByArrival());
    assert multiset(ts) == multiset(Filter(s, InTrip(tripId)));
    FilterMembers(s, InTrip(tripId));
    FilterMembers(stopTimes, OfRoute(routeId));
    forall x ensures x in ts <==> x in stopTimes && x.tripId == tripId && routeId <= x.tripId {
      assert x in ts <==> x in multiset(ts);
      assert x in Filter(s, InTrip(tripId)) <==> x in multiset(Filter(s, InTrip(tripId)));
    }
  }

  /** The slice runs from the first call at one stop to the first call at the other, whichever
      comes first in the trip; a trip that misses one of the stops gives no leg. */
  lemma LegBetweenEnds(route: Route, tripId: string, tripStops: seq<StopTime>, fromStop: Stop, toStop: Stop)
    ensures var leg := LegBetween(route, tripId, tripStops, fromStop, toStop);
      && (leg.None? <==> (forall i :: 0 <= i < |tripStops| ==> tripStops[i].stopId != fromStop.id) ||
                          (forall i :: 0 <= i < |tripStops| ==> tripStops[i].stopId != toStop.id))
      && (leg.Some? ==>
            var r := leg.value.relevant;
            && FirstAt(tripStops, AtStop(fromStop.id), leg.value.fromIndex)
            && FirstAt(tripStops, AtStop(toStop.id), leg.value.toIndex)
            && (leg.value.fromIndex <= leg.value.toIndex ==> r[0].stopId == fromStop.id && r[|r| - 1].stopId == toStop.id)
            && (leg.value.toIndex < leg.value.fromIndex ==> r[0].stopId == toStop.id && r[|r| - 1].stopId == fromStop.id))
  {
  }

  /** The slice takes nothing from outside the trip's stop-times and keeps their order. */
  lemma LegBetweenOrder(route: Route, tripId: string, tripStops: seq<StopTime>, fromStop: Stop, toStop: Stop)
    requires LegBetween(route, tripId, tripStops, fromStop, toStop).Some?
    ensures var r := LegBetween(route, tripId, tripStops, fromStop, toStop).value.relevant;
      && (forall x :: x in r ==> x in tripStops)
      && (SortedBy(tripStops, BySequence()) ==> forall i, j :: 0 <= i < j < |r| ==> r[i].sequence <= r[j].sequence)
  {
    var fromIndex := FirstIndex(tripStops, AtStop(fromStop.id));
    var toIndex := FirstIndex(tripStops, AtStop(toStop.id));
    var lo := Min(fromIndex, toIndex);
    var r := tripStops[lo..Max(fromIndex, toIndex) + 1];
    assert LegBetween(route, tripId, tripStops, fromStop, toStop).value.relevant == r;
    if SortedBy(tripStops, BySequence()) {
      forall i, j | 0 <= i < j < |r| ensures r[i].sequence <= r[j].sequence {
        assert BySequence()(tripStops[lo + i], tripStops[lo + j]);
      }
    }
  }

  /** The chosen leg holds all the stop-times of the chosen trip on the chosen route, in
      `stop_sequence` order, and its slice is the whole stretch of them from the first call at one
      stop to the first call at the other, both ends included. */
  lemma SelectLegSlice(fromStop: Stop, toStop: Stop, t: Tables, currentTime: string)
    requires SelectLeg(fromStop, toStop, t, currentTime).Some?
    ensures var leg := SelectLeg(fromStop, toStop, t, currentTime).value;
      var r := leg.relevant;
      && SortedBy(leg.tripStops, BySequence())
      && multiset(leg.tripStops) == multiset(Filter(RouteStopTimes(leg.route.id, t.stopTimes), InTrip(leg.tripId)))
      && FirstAt(leg.tripStops, AtStop(fromStop.id), leg.fromIndex)
      && FirstAt(leg.tripStops, AtStop(toStop.id), leg.toIndex)
      && r == leg.tripStops[Min(leg.fromIndex, leg.toIndex)..Max(leg.fromIndex, leg.toIndex) + 1]
      && (forall x :: x in r ==> x in t.stopTimes && x.tripId == leg.tripId && leg.route.id <= x.tripId)
      && (forall i, j :: 0 <= i < j < |r| ==> r[i].sequence <= r[j].sequence)
  {
    var route := SelectedRoute(fromStop, toStop, t).value;
    var routeStopTimes := ByArrivalOnRoute(route.id, t.stopTimes);
    var tripId := NextTripId(routeStopTimes, fromStop, TimeToMinutes(currentTime)).value;
    var tripStops := TripStops(routeStopTimes, tripId);
    var leg := SelectLeg(fromStop, toStop, t, currentTime).value;
    assert SelectLeg(fromStop, toStop, t, currentTime) == LegBetween(route, tripId, tripStops, fromStop, toStop);
    assert leg.route == route && leg.tripId == tripId && leg.tripStops == tripStops;
    TripStopsSpec(route.id, t.stopTimes, tripId);
    LegBetweenEnds(route, tripId, tripStops, fromStop, toStop);
    LegBetweenOrder(route, tripId, tripStops, fromStop, toStop);
  }

  /** The route info of a leg: the stop records of its stop-times, the first vehicle's occupancy,
      the fare, and the departure and arrival of the slice's two ends. A stop id missing from the
      stop table gives no route. */
  lemma RouteInfoOfSpec(leg: Leg, fromStop: Stop, toStop: Stop, t: Tables, currentTime: string)
    requires leg.relevant != []
    ensures var r := RouteInfoOf(leg, fromStop, toStop, t, currentTime);
      var rel := leg.relevant;
      var occupancy := VehicleOccupancy(t.vehicles, leg.tripId);
      && (r.Some? <==> forall i :: 0 <= i < |rel| ==> LookupStop(t.stops, rel[i].stopId).Some?)
      && (r.Some? ==>
            && r.value.id == "route-" + leg.route.id + "-" + leg.tripId
            && r.value.route == leg.route
            && |r.value.stops| == |rel|
            && (forall i :: 0 <= i < |rel| ==>
                  r.value.stops[i] == CreateRouteStop(LookupStop(t.stops, rel[i].stopId).value, rel[i], currentTime, occupancy))
            && r.value.occupancyLevel == occupancy
            && r.value.fareAmount == CalculateFare(leg.route, fromStop, toStop, t.fareRules, t.fareAttributes)
            && r.value.departureStop == RouteTypes.StopLabel(fromStop.name, rel[0].departure)
            && r.value.arrivalStop == RouteTypes.StopLabel(toStop.name, rel[|rel| - 1].arrival)
            && r.value.totalTime == CalculateTotalTime(rel[0].departure, rel[|rel| - 1].arrival)
            && r.value.walkingDistance.None?)
  {
    var rel := leg.relevant;
    var make := StopRecord(currentTime, VehicleOccupancy(t.vehicles, leg.tripId));
    var routeStops := ResolveStops(rel, t.stops, make);
    ResolveStopsSpec(rel, t.stops, make);
    if routeStops.Some? {
      var r := RouteInfoOf(leg, fromStop, toStop, t, currentTime);
      assert r.value.stops == routeStops.value;
    }
  }

  /** `findNextTrip`: the route's stop-times departing strictly after the main route's departure. */
  function FindNextTrip(currentRoute: RouteTypes.RouteInfo, stopTimes: seq<StopTime>): seq<StopTime>
  {
    var currentTripTime := TimeToMinutes(currentRoute.departureStop.time);
    Filter(stopTimes, LaterOnRoute(currentRoute.route.id, currentTripTime))
  }

  /** A stop-time of a trip of the route that departs after the given minute. */
  function LaterOnRoute(routeId: string, minutes: int): StopTime -> bool
  {
    (st: StopTime) => routeId <= st.tripId && TimeToMinutes(st.departure) > minutes
  }

  /** The occupancy above which an alternative is looked for: MANY_SEATS_AVAILABLE with a suitcase,
      STANDING_ROOM_ONLY without. */
  function Threshold(hasTrunk: bool): int
  {
    if hasTrunk then RouteTypes.OccupancyLevel.ManySeatsAvailable.Ordinal() else RouteTypes.OccupancyLevel.StandingRoomOnly.Ordinal()
  }

  /** The planner's test is the default-threshold rule of the occupancy policy. */
  lemma ThresholdIsDefaultPolicy(occupancy: int, hasTrunk: bool)
    ensures occupancy > Threshold(hasTrunk) <==>
      OccupancyUtils.ShouldSuggestAlternative(occupancy, hasTrunk, RouteTypes.DefaultOccupancyThresholds)
  {
  }

  const OccupancyReason := RouteTypes.AlternativeReason(RouteTypes.Occupancy, "混雑を避けるため、次の便をお勧めします")
  const LessWalkingReason := RouteTypes.AlternativeReason(RouteTypes.LessWalking, "少し歩きますが、混雑の少ない経路があります")

  /** The later run of the main route's line, offered only when the main bus is over the threshold.
      It is planned between the nearest stops over the stop-times `findNextTrip` keeps; with no
      nearest stop the source reads `undefined` and its `catch` yields no route. */
  function NextTripAlternative(mainRoute: RouteTypes.RouteInfo, fromStops: seq<Stop>, toStops: seq<Stop>, t: Tables, currentTime: string, hasTrunk: bool): seq<RouteTypes.AlternativeRoute>
  {
    if mainRoute.occupancyLevel > Threshold(hasTrunk) && fromStops != [] && toStops != [] then
      var nextTrip := FindNextTrip(mainRoute, t.stopTimes);
      var nextTripRoute := CalculateMainRoute(fromStops[0], toStops[0], t.(routes := [mainRoute.route], stopTimes := nextTrip), currentTime);
      if nextTripRoute.Some? then [RouteTypes.AlternativeRoute(nextTripRoute.value, OccupancyReason)] else []
    else []
  }

  /** The main-route planner restricted to one route: what each stop pair of the walking search
      yields. */
  function PlanOn(route: Route, t: Tables, currentTime: string): (Stop, Stop) -> Option<RouteTypes.RouteInfo>
  {
    (fromStop: Stop, toStop: Stop) => CalculateMainRoute(fromStop, toStop, t.(routes := [route]), currentTime)
  }

  /** The first alighting stop, in the given order, for which `plan` yields something. */
  function FirstPairFrom<X>(fromStop: Stop, toStops: seq<Stop>, plan: (Stop, Stop) -> Option<X>): Option<(Stop, X)>
  {
    if toStops == [] then None
    else
      var found := plan(fromStop, toStops[0]);
      if found.Some? then Some((toStops[0], found.value))
      else FirstPairFrom(fromStop, toStops[1..], plan)
  }

  /** The first stop pair, boarding stop major, for which `plan` yields something. */
  function FirstPair<X>(fromStops: seq<Stop>, toStops: seq<Stop>, plan: (Stop, Stop) -> Option<X>): Option<(Stop, Stop, X)>
  {
    if fromStops == [] then None
    else
      match FirstPairFrom(fromStops[0], toStops, plan)
      case Some((toStop, x)) => Some((fromStops[0], toStop, x))
      case None => FirstPair(fromStops[1..], toStops, plan)
  }

  /** The route info of a successful pair, with the walks from the nearest boarding stop to the one
      used and from the alighting stop used to the nearest one. */
  function WithWalking(info: RouteTypes.RouteInfo, fromStops: seq<Stop>, toStops: seq<Stop>, fromStop: Stop, toStop: Stop, dist: Distance): RouteTypes.RouteInfo
    requires fromStops != [] && toStops != []
  {
    var walkingDistance := RouteTypes.WalkingDistance(
      Some(dist(fromStops[0].lat, fromStops[0].lon, fromStop.lat, fromStop.lon)),
      Some(dist(toStop.lat, toStop.lon, toStops[0].lat, toStops[0].lon)));
    info.(walkingDistance := Some(walkingDistance))
  }

  /** What `calculateRouteWithWalking` returns. */
  function RouteWithWalking(fromStops: seq<Stop>, toStops: seq<Stop>, route: Route, t: Tables, currentTime: string, dist: Distance): Option<RouteTypes.RouteInfo>
  {
    match FirstPair(fromStops, toStops, PlanOn(route, t, currentTime))
    case None => None
    case Some((fromStop, toStop, info)) =>
      if fromStops == [] || toStops == [] then None
      else Some(WithWalking(info, fromStops, toStops, fromStop, toStop, dist))
  }

  /** The inner loop of `calculateRouteWithWalking`: the first alighting stop, nearest first, that
      the route reaches from the given boarding stop. */
  method FirstRouteFrom(fromStop: Stop, toStops: seq<Stop>, route: Route, t: Tables, currentTime: string)
    returns (r: Option<(Stop, RouteTypes.RouteInfo)>)
    ensures r == FirstPairFrom(fromStop, toStops, PlanOn(route, t, currentTime))
  {
    var j := 0;
    while j < |toStops|
      invariant 0 <= j <= |toStops|
      invariant FirstPairFrom(fromStop, toStops, PlanOn(route, t, currentTime)) == FirstPairFrom(fromStop, toStops[j..], PlanOn(route, t, currentTime))
    {
      var toStop := toStops[j];
      var routeInfo := CalculateMainRoute(fromStop, toStop, t.(routes := [route]), currentTime);
      if routeInfo.Some? {
        return Some((toStop, routeInfo.value));
      }
      assert toStops[j..][1..] == toStops[j + 1..];
      j := j + 1;
    }
    return None;
  }

  /** `calculateRouteWithWalking`: tries the stop pairs nearest first, from-stop major, and returns
      the first route found, with its walking distances. */
  method CalculateRouteWithWalking(fromStops: seq<Stop>, toStops: seq<Stop>, route: Route, t: Tables, currentTime: string, dist: Distance)
    returns (r: Option<RouteTypes.RouteInfo>)
    ensures r == RouteWithWalking(fromStops, toStops, route, t, currentTime, dist)
  {
    var i := 0;
    while i < |fromStops|
      invariant 0 <= i <= |fromStops|
      invariant FirstPair(fromStops, toStops, PlanOn(route, t, currentTime)) == FirstPair(fromStops[i..], toStops, PlanOn(route, t, currentTime))
    {
      var fromStop := fromStops[i];
      var found := FirstRouteFrom(fromStop, toStops, route, t, currentTime);
      if found.Some? {
        var (toStop, routeInfo) := found.value;
        var walkingDistance := RouteTypes.WalkingDistance(
          Some(dist(fromStops[0].lat, fromStops[0].lon, fromStop.lat, fromStop.lon)),
          Some(dist(toStop.lat, toStop.lon, toStops[0].lat, toStops[0].lon)));
        return Some(routeInfo.(walkingDistance := Some(walkingDistance)));
      }
      assert fromStops[i..][1..] == fromStops[i + 1..];
      i := i + 1;
    }
    return None;
  }

  /** The different-line alternatives for the routes tried so far, in route-table order. */
  function LineAlternatives(candidates: seq<Route>, fromStops: seq<Stop>, toStops: seq<Stop>, t: Tables, currentTime: string, hasTrunk: bool, dist: Distance): seq<RouteTypes.AlternativeRoute>
  {
    if candidates == [] then []
    else
      var n := |candidates| - 1;
      LineAlternatives(candidates[..n], fromStops, toStops, t, currentTime, hasTrunk, dist) +
        LineOffer(candidates[n], fromStops, toStops, t, currentTime, hasTrunk, dist)
  }

  /** The alternative one candidate line contributes: its walking route, when it has one within the
      threshold. */
  function LineOffer(candidate: Route, fromStops: seq<Stop>, toStops: seq<Stop>, t: Tables, currentTime: string, hasTrunk: bool, dist: Distance): seq<RouteTypes.AlternativeRoute>
  {
    var alternativeRoute := RouteWithWalking(fromStops, toStops, candidate, t, currentTime, dist);
    if alternativeRoute.Some? && alternativeRoute.value.occupancyLevel <= Threshold(hasTrunk) then
      [RouteTypes.AlternativeRoute(alternativeRoute.value, LessWalkingReason)]
    else []
  }

  function OtherRoutes(mainRoute: RouteTypes.RouteInfo, routes: seq<Route>): seq<Route>
  {
    Filter(routes, OtherLine(mainRoute.route.id))
  }

  function OtherLine(routeId: string): Route -> bool
  {
    (route: Route) => route.id != routeId
  }

  /** What `calculateAlternativeRoutes` returns. The different-line search runs whatever the main
      route's occupancy. */
  function AlternativeRoutes(mainRoute: Option<RouteTypes.RouteInfo>, fromStops: seq<Stop>, toStops: seq<Stop>, t: Tables, currentTime: string, hasTrunk: bool, dist: Distance): seq<RouteTypes.AlternativeRoute>
  {
    if mainRoute.None? then []
    else
      NextTripAlternative(mainRoute.value, fromStops, toStops, t, currentTime, hasTrunk) +
      LineAlternatives(OtherRoutes(mainRoute.value, t.routes), fromStops, toStops, t, currentTime, hasTrunk, dist)
  }

  /** The first half of `calculateAlternativeRoutes`: over the threshold, the next run of the main
      route's line, if it has one. */
  method CalculateNextTripAlternative(main: RouteTypes.RouteInfo, fromStops: seq<Stop>, toStops: seq<Stop>, t: Tables, currentTime: string, threshold: int)
    returns (alternatives: seq<RouteTypes.AlternativeRoute>)
    requires threshold == Threshold(false) || threshold == Threshold(true)
    ensures alternatives == NextTripAlternative(main, fromStops, toStops, t, currentTime, threshold == Threshold(true))
  {
    alternatives := [];
    if main.occupancyLevel > threshold && fromStops != [] && toStops != [] {
      var nextTrip := FindNextTrip(main, t.stopTimes);
      var nextTripRoute := CalculateMainRoute(fromStops[0], toStops[0], t.(routes := [main.route], stopTimes := nextTrip), currentTime);
      if nextTripRoute.Some? {
        alternatives := alternatives + [RouteTypes.AlternativeRoute(nextTripRoute.value, OccupancyReason)];
      }
    }
  }

  /** The second half of `calculateAlternativeRoutes`: one alternative per candidate line that has
      a route, within the threshold, between some pair of nearby stops. */
  method CalculateLineAlternatives(alternativeRoutes: seq<Route>, fromStops: seq<Stop>, toStops: seq<Stop>, t: Tables, currentTime: string, hasTrunk: bool, dist: Distance)
    returns (alternatives: seq<RouteTypes.AlternativeRoute>)
    ensures alternatives == LineAlternatives(alternativeRoutes, fromStops, toStops, t, currentTime, hasTrunk, dist)
  {
    var threshold := Threshold(hasTrunk);
    alternatives := [];
    var i := 0;
    while i < |alternativeRoutes|
      invariant 0 <= i <= |alternativeRoutes|
      invariant alternatives == LineAlternatives(alternativeRoutes[..i], fromStops, toStops, t, currentTime, hasTrunk, dist)
    {
      var alternativeRoute := CalculateRouteWithWalking(fromStops, toStops, alternativeRoutes[i], t, currentTime, dist);
      assert alternativeRoutes[..i + 1][..i] == alternativeRoutes[..i];
      if alternativeRoute.Some? && alternativeRoute.value.occupancyLevel <= threshold {
        alternatives := alternatives + [RouteTypes.AlternativeRoute(alternativeRoute.value, LessWalkingReason)];
      }
      i := i + 1;
    }
    assert alternativeRoutes[..i] == alternativeRoutes;
  }

  /** `calculateAlternativeRoutes`: the next-trip alternative, then the other lines'. */
  method CalculateAlternativeRoutes(mainRoute: Option<RouteTypes.RouteInfo>, fromStops: seq<Stop>, toStops: seq<Stop>, t: Tables, currentTime: string, hasTrunk: bool, dist: Distance)
    returns (alternatives: seq<RouteTypes.AlternativeRoute>)
    ensures alternatives == AlternativeRoutes(mainRoute, fromStops, toStops, t, currentTime, hasTrunk, dist)
  {
    if mainRoute.None? {
      return [];
    }
    var main := mainRoute.value;
    var threshold := if hasTrunk then RouteTypes.OccupancyLevel.ManySeatsAvailable.Ordinal() else RouteTypes.OccupancyLevel.StandingRoomOnly.Ordinal();
    alternatives := CalculateNextTripAlternative(main, fromStops, toStops, t, currentTime, threshold);
    var lineAlternatives := CalculateLineAlternatives(OtherRoutes(main, t.routes), fromStops, toStops, t, currentTime, hasTrunk, dist);
    alternatives := alternatives + lineAlternatives;
  }

  /** A main route runs on one of the routes it was given and has no walking legs. */
  lemma MainRouteOnRoute(fromStop: Stop, toStop: Stop, t: Tables, currentTime: string)
    ensures var r := CalculateMainRoute(fromStop, toStop, t, currentTime);
      r.Some? ==> r.value.route in t.routes && r.value.walkingDistance.None?
  {
    SelectLegRoute(fromStop, toStop, t, currentTime);
    var leg := SelectLeg(fromStop, toStop, t, currentTime);
    if leg.Some? {
      RouteInfoOfSpec(leg.value, fromStop, toStop, t, currentTime);
    }
  }

  /** The next-trip alternative exists only when the main bus is over the threshold; it runs on the
      main route's line, has no walking legs and leaves strictly later than the main route. */
  lemma NextTripAlternativeSpec(mainRoute: RouteTypes.RouteInfo, fromStops: seq<Stop>, toStops: seq<Stop>, t: Tables, currentTime: string, hasTrunk: bool)
    ensures var alternatives := NextTripAlternative(mainRoute, fromStops, toStops, t, currentTime, hasTrunk);
      && |alternatives| <= 1
      && (alternatives != [] ==> mainRoute.occupancyLevel > Threshold(hasTrunk))
      && (alternatives != [] ==>
           var a := alternatives[0];
           && a.reason == OccupancyReason
           && a.info.route == mainRoute.route
           && a.info.walkingDistance.None?
           && TimeToMinutes(a.info.departureStop.time) > TimeToMinutes(mainRoute.departureStop.time))
  {
    if mainRoute.occupancyLevel > Threshold(hasTrunk) && fromStops != [] && toStops != [] {
      var t2 := t.(routes := [mainRoute.route], stopTimes := FindNextTrip(mainRoute, t.stopTimes));
      MainRouteOnRoute(fromStops[0], toStops[0], t2, currentTime);
      MainRouteDeparture(fromStops[0], toStops[0], t2, currentTime);
      var r := CalculateMainRoute(fromStops[0], toStops[0], t2, currentTime);
      LaterDeparture(mainRoute, t.stopTimes, r);
      if r.Some? {
        assert r.value.route == mainRoute.route;
        assert NextTripAlternative(mainRoute, fromStops, toStops, t, currentTime, hasTrunk) == [RouteTypes.AlternativeRoute(r.value, OccupancyReason)];
      } else {
        assert NextTripAlternative(mainRoute, fromStops, toStops, t, currentTime, hasTrunk) == [];
      }
    } else {
      assert NextTripAlternative(mainRoute, fromStops, toStops, t, currentTime, hasTrunk) == [];
    }
  }

  /** A route leaving at the departure of one of the stop-times `findNextTrip` keeps leaves strictly
      after the main route. */
  lemma LaterDeparture(mainRoute: RouteTypes.RouteInfo, stopTimes: seq<StopTime>, r: Option<RouteTypes.RouteInfo>)
    requires r.Some? ==> exists x :: x in FindNextTrip(mainRoute, stopTimes) && r.value.departureStop.time == x.departure
    ensures r.Some? ==> TimeToMinutes(r.value.departureStop.time) > TimeToMinutes(mainRoute.departureStop.time)
  {
    FilterMembers(stopTimes, LaterOnRoute(mainRoute.route.id, TimeToMinutes(mainRoute.departureStop.time)));
  }

  /** A main route leaves at the departure time of one of the stop-times it was given. */
  lemma MainRouteDeparture(fromStop: Stop, toStop: Stop, t: Tables, currentTime: string)
    ensures var r := CalculateMainRoute(fromStop, toStop, t, currentTime);
      r.Some? ==> exists x :: x in t.stopTimes && r.value.departureStop.time == x.departure
  {
    var leg := SelectLeg(fromStop, toStop, t, currentTime);
    if leg.Some? {
      SelectLegSlice(fromStop, toStop, t, currentTime);
      RouteInfoOfSpec(leg.value, fromStop, toStop, t, currentTime);
      assert leg.value.relevant[0] in leg.value.relevant;
    }
  }

  /** `(i, j)` is the first pair, boarding stop major, that `plan` serves. */
  ghost predicate FirstServed<X>(fromStops: seq<Stop>, toStops: seq<Stop>, plan: (Stop, Stop) -> Option<X>, i: int, j: int)
  {
    && 0 <= i < |fromStops| && 0 <= j < |toStops|
    && plan(fromStops[i], toStops[j]).Some?
    && (forall i2, j2 :: 0 <= i2 < i && 0 <= j2 < |toStops| ==> plan(fromStops[i2], toStops[j2]).None?)
    && (forall j2 :: 0 <= j2 < j ==> plan(fromStops[i], toStops[j2]).None?)
  }

  /** `j` is the first alighting stop that `plan` serves from the boarding stop. */
  ghost predicate FirstServedFrom<X>(fromStop: Stop, toStops: seq<Stop>, plan: (Stop, Stop) -> Option<X>, j: int)
  {
    && 0 <= j < |toStops|
    && plan(fromStop, toStops[j]).Some?
    && forall j2 :: 0 <= j2 < j ==> plan(fromStop, toStops[j2]).None?
  }

  lemma {:induction false} FirstPairFromSpec<X>(fromStop: Stop, toStops: seq<Stop>, plan: (Stop, Stop) -> Option<X>)
    ensures var r := FirstPairFrom(fromStop, toStops, plan);
      && (r.None? <==> forall j :: 0 <= j < |toStops| ==> plan(fromStop, toStops[j]).None?)
      && (r.Some? ==> exists j :: FirstServedFrom(fromStop, toStops, plan, j) && r.value == (toStops[j], plan(fromStop, toStops[j]).value))
  {
    if toStops != [] && plan(fromStop, toStops[0]).None? {
      FirstPairFromSpec(fromStop, toStops[1..], plan);
      assert forall j :: 1 <= j < |toStops| ==> toStops[1..][j - 1] == toStops[j];
      var r := FirstPairFrom(fromStop, toStops[1..], plan);
      if r.Some? {
        var j :| FirstServedFrom(fromStop, toStops[1..], plan, j) && r.value == (toStops[1..][j], plan(fromStop, toStops[1..][j]).value);
        assert FirstServedFrom(fromStop, toStops, plan, j + 1);
      }
    } else if toStops != [] {
      assert FirstServedFrom(fromStop, toStops, plan, 0);
    }
  }

  lemma {:induction false} FirstPairSpec<X>(fromStops: seq<Stop>, toStops: seq<Stop>, plan: (Stop, Stop) -> Option<X>)
    ensures var r := FirstPair(fromStops, toStops, plan);
      && (r.None? <==> forall i, j :: 0 <= i < |fromStops| && 0 <= j < |toStops| ==> plan(fromStops[i], toStops[j]).None?)
      && (r.Some? ==> exists i, j :: (FirstServed(fromStops, toStops, plan, i, j) &&
                                      r.value == (fromStops[i], toStops[j], plan(fromStops[i], toStops[j]).value)))
  {
    if fromStops != [] {
      FirstPairFromSpec(fromStops[0], toStops, plan);
      var head := FirstPairFrom(fromStops[0], toStops, plan);
      if head.None? {
        FirstPairSpec(fromStops[1..], toStops, plan);
        assert forall i :: 1 <= i < |fromStops| ==> fromStops[1..][i - 1] == fromStops[i];
        var r := FirstPair(fromStops[1..], toStops, plan);
        if r.Some? {
          var i, j :| FirstServed(fromStops[1..], toStops, plan, i, j) &&
            r.value == (fromStops[1..][i], toStops[j], plan(fromStops[1..][i], toStops[j]).value);
          assert FirstServed(fromStops, toStops, plan, i + 1, j);
        }
      } else {
        var j :| FirstServedFrom(fromStops[0], toStops, plan, j) && head.value == (toStops[j], plan(fromStops[0], toStops[j]).value);
        assert FirstServed(fromStops, toStops, plan, 0, j);
      }
    }
  }

  /** `calculateRouteWithWalking` finds nothing exactly when no stop pair has a route on the line;
      otherwise it returns the route of the first pair, nearest boarding stop first and then nearest
      alighting stop, with the walks from the nearest boarding stop and to the nearest alighting
      stop, and that route runs on the line tried. */
  lemma RouteWithWalkingSpec(fromStops: seq<Stop>, toStops: seq<Stop>, route: Route, t: Tables, currentTime: string, dist: Distance)
    ensures var r := RouteWithWalking(fromStops, toStops, route, t, currentTime, dist);
      var plan := PlanOn(route, t, currentTime);
      && (r.None? <==> forall i, j :: 0 <= i < |fromStops| && 0 <= j < |toStops| ==> plan(fromStops[i], toStops[j]).None?)
      && (r.Some? ==> exists i, j :: (FirstServed(fromStops, toStops, plan, i, j) &&
                                      r.value == plan(fromStops[i], toStops[j]).value.(walkingDistance := Some(RouteTypes.WalkingDistance(
                                        Some(dist(fromStops[0].lat, fromStops[0].lon, fromStops[i].lat, fromStops[i].lon)),
                                        Some(dist(toStops[j].lat, toStops[j].lon, toStops[0].lat, toStops[0].lon)))))))
  {
    FirstPairSpec(fromStops, toStops, PlanOn(route, t, currentTime));
  }

  /** A route found by the walking search runs on the line tried. */
  lemma RouteWithWalkingOnRoute(fromStops: seq<Stop>, toStops: seq<Stop>, route: Route, t: Tables, currentTime: string, dist: Distance)
    ensures var r := RouteWithWalking(fromStops, toStops, route, t, currentTime, dist);
      r.Some? ==> r.value.route == route && r.value.walkingDistance.Some?
  {
    var plan := PlanOn(route, t, currentTime);
    FirstPairSpec(fromStops, toStops, plan);
    var r := RouteWithWalking(fromStops, toStops, route, t, currentTime, dist);
    if r.Some? {
      var i, j :| FirstServed(fromStops, toStops, plan, i, j) &&
        FirstPair(fromStops, toStops, plan).value == (fromStops[i], toStops[j], plan(fromStops[i], toStops[j]).value);
      PlanOnRoute(route, t, currentTime, fromStops[i], toStops[j]);
    }
  }

  lemma PlanOnRoute(route: Route, t: Tables, currentTime: string, fromStop: Stop, toStop: Stop)
    ensures var r := PlanOn(route, t, currentTime)(fromStop, toStop);
      r.Some? ==> r.value.route == route
  {
    MainRouteOnRoute(fromStop, toStop, t.(routes := [route]), currentTime);
  }

  /** The different-line alternatives: at most one per candidate line, each on its line, within the
      threshold and with its walking legs; and every candidate line whose walking route is within
      the threshold is offered, with that route. */
  lemma LineAlternativesSpec(candidates: seq<Route>, fromStops: seq<Stop>, toStops: seq<Stop>, t: Tables, currentTime: string, hasTrunk: bool, dist: Distance)
    ensures var alternatives := LineAlternatives(candidates, fromStops, toStops, t, currentTime, hasTrunk, dist);
      && |alternatives| <= |candidates|
      && (forall a :: a in alternatives ==>
           && a.reason == LessWalkingReason
           && a.info.occupancyLevel <= Threshold(hasTrunk)
           && a.info.route in candidates
           && a.info.walkingDistance.Some?)
      && (forall k :: 0 <= k < |candidates| ==>
           var found := RouteWithWalking(fromStops, toStops, candidates[k], t, currentTime, dist);
           found.Some? && found.value.occupancyLevel <= Threshold(hasTrunk) ==>
             RouteTypes.AlternativeRoute(found.value, LessWalkingReason) in alternatives)
  {
    LineAlternativesSound(candidates, fromStops, toStops, t, currentTime, hasTrunk, dist);
    LineAlternativesComplete(candidates, fromStops, toStops, t, currentTime, hasTrunk, dist);
    forall k | 0 <= k < |candidates|
      ensures var found := RouteWithWalking(fromStops, toStops, candidates[k], t, currentTime, dist);
        found.Some? && found.value.occupancyLevel <= Threshold(hasTrunk) ==>
          RouteTypes.AlternativeRoute(found.value, LessWalkingReason) in LineAlternatives(candidates, fromStops, toStops, t, currentTime, hasTrunk, dist)
    {
      LineOfferSpec(candidates[k], fromStops, toStops, t, currentTime, hasTrunk, dist);
    }
  }

  /** At most one alternative per candidate, each a candidate's walking route within the threshold. */
  lemma {:induction false} LineAlternativesSound(candidates: seq<Route>, fromStops: seq<Stop>, toStops: seq<Stop>, t: Tables, currentTime: string, hasTrunk: bool, dist: Distance)
    ensures var alternatives := LineAlternatives(candidates, fromStops, toStops, t, currentTime, hasTrunk, dist);
      && |alternatives| <= |candidates|
      && (forall a :: a in alternatives ==>
           && a.reason == LessWalkingReason
           && a.info.occupancyLevel <= Threshold(hasTrunk)
           && a.info.route in candidates
           && a.info.walkingDistance.Some?)
  {
    if candidates != [] {
      var n := |candidates| - 1;
      var front := candidates[..n];
      LineAlternativesSound(front, fromStops, toStops, t, currentTime, hasTrunk, dist);
      LineOfferSpec(candidates[n], fromStops, toStops, t, currentTime, hasTrunk, dist);
      assert forall x :: x in front ==> x in candidates;
    }
  }

  /** Every candidate's offer is among the alternatives. */
  lemma {:induction false} LineAlternativesComplete(candidates: seq<Route>, fromStops: seq<Stop>, toStops: seq<Stop>, t: Tables, currentTime: string, hasTrunk: bool, dist: Distance)
    ensures forall k, a :: 0 <= k < |candidates| && a in LineOffer(candidates[k], fromStops, toStops, t, currentTime, hasTrunk, dist) ==>
      a in LineAlternatives(candidates, fromStops, toStops, t, currentTime, hasTrunk, dist)
  {
    if candidates != [] {
      var n := |candidates| - 1;
      var front := candidates[..n];
      var earlier := LineAlternatives(front, fromStops, toStops, t, currentTime, hasTrunk, dist);
      var last := LineOffer(candidates[n], fromStops, toStops, t, currentTime, hasTrunk, dist);
      assert LineAlternatives(candidates, fromStops, toStops, t, currentTime, hasTrunk, dist) == earlier + last;
      LineAlternativesComplete(front, fromStops, toStops, t, currentTime, hasTrunk, dist);
      forall k, a | 0 <= k < |candidates| && a in LineOffer(candidates[k], fromStops, toStops, t, currentTime, hasTrunk, dist)
        ensures a in earlier + last
      {
        if k < n {
          assert front[k] == candidates[k];
        }
      }
    }
  }

  /** A candidate's offer is at most its own walking route, within the threshold, for less walking;
      and that route is offered whenever it is within the threshold. */
  lemma LineOfferSpec(candidate: Route, fromStops: seq<Stop>, toStops: seq<Stop>, t: Tables, currentTime: string, hasTrunk: bool, dist: Distance)
    ensures var offer := LineOffer(candidate, fromStops, toStops, t, currentTime, hasTrunk, dist);
      var found := RouteWithWalking(fromStops, toStops, candidate, t, currentTime, dist);
      && |offer| <= 1
      && (forall a :: a in offer ==>
           && a.reason == LessWalkingReason
           && a.info.occupancyLevel <= Threshold(hasTrunk)
           && a.info.route == candidate
           && a.info.walkingDistance.Some?)
      && (found.Some? && found.value.occupancyLevel <= Threshold(hasTrunk) ==>
           RouteTypes.AlternativeRoute(found.value, LessWalkingReason) in offer)
  {
    RouteWithWalkingOnRoute(fromStops, toStops, candidate, t, currentTime, dist);
  }

  /** The different-line search does not depend on the main bus being crowded: when it is within
      the threshold, the alternatives are exactly the other lines' offers. */
  lemma OtherLinesWhenNotCrowded(main: RouteTypes.RouteInfo, fromStops: seq<Stop>, toStops: seq<Stop>, t: Tables, currentTime: string, hasTrunk: bool, dist: Distance)
    requires main.occupancyLevel <= Threshold(hasTrunk)
    ensures AlternativeRoutes(Some(main), fromStops, toStops, t, currentTime, hasTrunk, dist) ==
      LineAlternatives(OtherRoutes(main, t.routes), fromStops, toStops, t, currentTime, hasTrunk, dist)
  {
    assert NextTripAlternative(main, fromStops, toStops, t, currentTime, hasTrunk) == [];
  }

  /** What an alternative offered beside the main route is: the next run of the main line, when
      the main bus is over the threshold, leaving strictly later; or a route on another line of the
      table, within the threshold, with its walking legs. */
  ghost predicate Justified(a: RouteTypes.AlternativeRoute, main: RouteTypes.RouteInfo, routes: seq<Route>, hasTrunk: bool)
  {
    || (&& a.reason == OccupancyReason
        && main.occupancyLevel > Threshold(hasTrunk)
        && a.info.route == main.route
        && TimeToMinutes(a.info.departureStop.time) > TimeToMinutes(main.departureStop.time))
    || (&& a.reason == LessWalkingReason
        && a.info.occupancyLevel <= Threshold(hasTrunk)
        && a.info.route in routes
        && a.info.route.id != main.route.id
        && a.info.walkingDistance.Some?)
  }

  lemma JustifiedParts(main: RouteTypes.RouteInfo, nextTrip: seq<RouteTypes.AlternativeRoute>, lines: seq<RouteTypes.AlternativeRoute>,
                       others: seq<Route>, routes: seq<Route>, hasTrunk: bool)
    requires |nextTrip| <= 1
    requires nextTrip != [] ==> main.occupancyLevel > Threshold(hasTrunk)
    requires nextTrip != [] ==> (nextTrip[0].reason == OccupancyReason && nextTrip[0].info.route == main.route &&
                                 TimeToMinutes(nextTrip[0].info.departureStop.time) > TimeToMinutes(main.departureStop.time))
    requires forall a :: a in lines ==> (a.reason == LessWalkingReason && a.info.occupancyLevel <= Threshold(hasTrunk) &&
                                         a.info.route in others && a.info.walkingDistance.Some?)
    requires forall r :: r in others ==> r in routes && r.id != main.route.id
    ensures forall a :: a in nextTrip + lines ==> Justified(a, main, routes, hasTrunk)
  {
    assert forall a :: a in nextTrip ==> a == nextTrip[0];
  }

  /** Without a main route there are no alternatives; with one, every alternative is justified,
      and every other line of the table whose walking route is within the threshold is offered,
      whether or not the main bus is crowded. */
  lemma AlternativeRoutesSpec(mainRoute: Option<RouteTypes.RouteInfo>, fromStops: seq<Stop>, toStops: seq<Stop>, t: Tables, currentTime: string, hasTrunk: bool, dist: Distance)
    ensures var alternatives := AlternativeRoutes(mainRoute, fromStops, toStops, t, currentTime, hasTrunk, dist);
      && (mainRoute.None? ==> alternatives == [])
      && (mainRoute.Some? ==> forall a :: a in alternatives ==> Justified(a, mainRoute.value, t.routes, hasTrunk))
      && (mainRoute.Some? ==> forall k :: 0 <= k < |t.routes| && t.routes[k].id != mainRoute.value.route.id ==>
           var found := RouteWithWalking(fromStops, toStops, t.routes[k], t, currentTime, dist);
           found.Some? && found.value.occupancyLevel <= Threshold(hasTrunk) ==>
             RouteTypes.AlternativeRoute(found.value, LessWalkingReason) in alternatives)
  {
    if mainRoute.Some? {
      var main := mainRoute.value;
      var others := OtherRoutes(main, t.routes);
      var nextTrip := NextTripAlternative(main, fromStops, toStops, t, currentTime, hasTrunk);
      var lines := LineAlternatives(others, fromStops, toStops, t, currentTime, hasTrunk, dist);
      NextTripAlternativeSpec(main, fromStops, toStops, t, currentTime, hasTrunk);
      LineAlternativesSpec(others, fromStops, toStops, t, currentTime, hasTrunk, dist);
      FilterMembers(t.routes, OtherLine(main.route.id));
      JustifiedParts(main, nextTrip, lines, others, t.routes, hasTrunk);
      forall k | 0 <= k < |t.routes| && t.routes[k].id != main.route.id
        ensures var found := RouteWithWalking(fromStops, toStops, t.routes[k], t, currentTime, dist);
          found.Some? && found.value.occupancyLevel <= Threshold(hasTrunk) ==>
            RouteTypes.AlternativeRoute(found.value, LessWalkingReason) in nextTrip + lines
      {
        assert t.routes[k] in others;
        var j :| 0 <= j < |others| && others[j] == t.routes[k];
      }
    }
  }

  /** The clock text the hook builds from the current hour and minute, both padded to two digits. */
  function CurrentClock(hours: nat, minutes: nat): string
  {
    PadStart2(IntToText(hours)) + ":" + PadStart2(IntToText(minutes))
  }

  /** The clock text reads back as the minute of the day. */
  lemma CurrentClockReadsBack(hours: nat, minutes: nat)
    requires minutes < 60
    ensures TimeToMinutes(CurrentClock(hours, minutes)) == hours * 60 + minutes
  {
    var m := hours * 60 + minutes;
    assert m / 60 == hours && m % 60 == minutes;
    assert CurrentClock(hours, minutes) == MinutesToTime(m);
    MinutesToTimeRoundTrip(m);
  }

  /** The tables and the two sights are all there: without them the hook keeps its last result. */
  predicate HasInputs(fromSpot: Option<RouteTypes.TouristSpot>, toSpot: Option<RouteTypes.TouristSpot>, t: Tables)
  {
    fromSpot.Some? && toSpot.Some? && t.routes != [] && t.stops != [] && t.stopTimes != []
  }

  /** The result planned between the stops nearest to the two sights, nearest first. */
  function PlanResult(nearestFromStops: seq<Stop>, nearestToStops: seq<Stop>, hasTrunk: bool, t: Tables, currentTime: string, dist: Distance): RouteTypes.RouteCalculationResult
  {
    if nearestFromStops == [] || nearestToStops == [] then
      RouteTypes.RouteCalculationResult(None, [], Some(RouteTypes.CalculationError))
    else
      var mainRoute := CalculateMainRoute(nearestFromStops[0], nearestToStops[0], t, currentTime);
      var alternativeRoutes := AlternativeRoutes(mainRoute, nearestFromStops, nearestToStops, t, currentTime, hasTrunk, dist);
      RouteTypes.RouteCalculationResult(mainRoute, alternativeRoutes, if mainRoute.Some? then None else Some(RouteTypes.CalculationError))
  }

  /** The result the hook's effect stores. */
  function EffectResult(previous: RouteTypes.RouteCalculationResult, fromSpot: Option<RouteTypes.TouristSpot>, toSpot: Option<RouteTypes.TouristSpot>,
                        hasTrunk: bool, t: Tables, currentTime: string, dist: Distance): RouteTypes.RouteCalculationResult
  {
    if !HasInputs(fromSpot, toSpot, t) then previous
    else PlanResult(FindNearestStops(fromSpot.value, t.stops, dist), FindNearestStops(toSpot.value, t.stops, dist), hasTrunk, t, currentTime, dist)
  }

  /** The body of the effect's `try` block, from the nearest stops on. */
  method PlanTrip(nearestFromStops: seq<Stop>, nearestToStops: seq<Stop>, hasTrunk: bool, t: Tables, currentTime: string, dist: Distance)
    returns (r: RouteTypes.RouteCalculationResult)
    ensures r == PlanResult(nearestFromStops, nearestToStops, hasTrunk, t, currentTime, dist)
  {
    if |nearestFromStops| == 0 || |nearestToStops| == 0 {
      return RouteTypes.RouteCalculationResult(None, [], Some(RouteTypes.CalculationError));
    }
    var mainRoute := CalculateMainRoute(nearestFromStops[0], nearestToStops[0], t, currentTime);
    var alternativeRoutes := CalculateAlternativeRoutes(mainRoute, nearestFromStops, nearestToStops, t, currentTime, hasTrunk, dist);
    r := RouteTypes.RouteCalculationResult(mainRoute, alternativeRoutes, if mainRoute.Some? then None else Some(RouteTypes.CalculationError));
  }

  /** `useRouteCalculation`: the state the hook returns, and its effect run on new inputs. */
  class RouteCalculationHook {
    var result: RouteTypes.RouteCalculationResult

    constructor()
      ensures result == RouteTypes.RouteCalculationResult(None, [], None)
    {
      result := RouteTypes.RouteCalculationResult(None, [], None);
    }

    /** The effect, with the clock's hour and minute as parameters. */
    method Recalculate(fromSpot: Option<RouteTypes.TouristSpot>, toSpot: Option<RouteTypes.TouristSpot>, hasTrunk: bool, t: Tables,
                       hours: nat, minutes: nat, dist: Distance)
      modifies this
      ensures result == EffectResult(old(result), fromSpot, toSpot, hasTrunk, t, CurrentClock(hours, minutes), dist)
    {
      if fromSpot.None? || toSpot.None? || |t.routes| == 0 || |t.stops| == 0 || |t.stopTimes| == 0 {
        return;
      }
      var nearestFromStops := FindNearestStops(fromSpot.value, t.stops, dist);
      var nearestToStops := FindNearestStops(toSpot.value, t.stops, dist);
      var currentTime := CurrentClock(hours, minutes);
      result := PlanTrip(nearestFromStops, nearestToStops, hasTrunk, t, currentTime, dist);
    }
  }

  /** The error is set exactly when there is no main route, and is then a calculation error with
      no alternatives; without a nearby stop at either end there is no main route; a main route runs
      on a route of the table, and every alternative is justified against it. */
  lemma PlanResultSpec(nearestFromStops: seq<Stop>, nearestToStops: seq<Stop>, hasTrunk: bool, t: Tables, currentTime: string, dist: Distance)
    ensures var r := PlanResult(nearestFromStops, nearestToStops, hasTrunk, t, currentTime, dist);
      && (r.error.Some? <==> r.mainRoute.None?)
      && (r.error.Some? ==> r.error == Some(RouteTypes.CalculationError) && r.alternativeRoutes == [])
      && (nearestFromStops == [] || nearestToStops == [] ==> r.mainRoute.None?)
      && (r.mainRoute.Some? ==> r.mainRoute.value.route in t.routes)
      && (r.mainRoute.Some? ==> forall a :: a in r.alternativeRoutes ==> Justified(a, r.mainRoute.value, t.routes, hasTrunk))
  {
    if nearestFromStops != [] && nearestToStops != [] {
      var mainRoute := CalculateMainRoute(nearestFromStops[0], nearestToStops[0], t, currentTime);
      MainRouteOnRoute(nearestFromStops[0], nearestToStops[0], t, currentTime);
      AlternativeRoutesSpec(mainRoute, nearestFromStops, nearestToStops, t, currentTime, hasTrunk, dist);
    }
  }

  /** A main route takes its occupancy from a vehicle whose `trip.trip_id` is set: when no vehicle
      carries that key, the route is EMPTY. */
  lemma MainRouteWithoutFeedTripIds(fromStop: Stop, toStop: Stop, t: Tables, currentTime: string)
    requires forall k :: 0 <= k < |t.vehicles| ==> t.vehicles[k].snakeTripId.None?
    ensures var r := CalculateMainRoute(fromStop, toStop, t, currentTime);
      r.Some? ==> r.value.occupancyLevel == 0
  {
    var leg := SelectLeg(fromStop, toStop, t, currentTime);
    if leg.Some? {
      SelectLegSlice(fromStop, toStop, t, currentTime);
      RouteInfoOfSpec(leg.value, fromStop, toStop, t, currentTime);
    }
  }

  /** When no vehicle of the feed carries `trip.trip_id`, the hook never finds the main bus crowded:
      the main route is EMPTY, and every alternative is a different line offered for less walking,
      never the next trip. */
  lemma PlanWithoutFeedTripIds(nearestFromStops: seq<Stop>, nearestToStops: seq<Stop>, hasTrunk: bool, t: Tables, currentTime: string, dist: Distance)
    requires forall k :: 0 <= k < |t.vehicles| ==> t.vehicles[k].snakeTripId.None?
    ensures var r := PlanResult(nearestFromStops, nearestToStops, hasTrunk, t, currentTime, dist);
      && (r.mainRoute.Some? ==> r.mainRoute.value.occupancyLevel == 0)
      && forall a :: a in r.alternativeRoutes ==> a.reason == LessWalkingReason
  {
    if nearestFromStops != [] && nearestToStops != [] {
      var mainRoute := CalculateMainRoute(nearestFromStops[0], nearestToStops[0], t, currentTime);
      MainRouteWithoutFeedTripIds(nearestFromStops[0], nearestToStops[0], t, currentTime);
      if mainRoute.Some? {
        OtherLinesWhenNotCrowded(mainRoute.value, nearestFromStops, nearestToStops, t, currentTime, hasTrunk, dist);
        LineAlternativesSpec(OtherRoutes(mainRoute.value, t.routes), nearestFromStops, nearestToStops, t, currentTime, hasTrunk, dist);
      }
    }
  }

  /** With no stop within range of the sight, there are no nearest stops. */
  lemma NoNearbyStop(spot: RouteTypes.TouristSpot, stops: seq<Stop>, dist: Distance)
    requires forall k :: 0 <= k < |stops| ==> SpotDistance(spot, stops[k], dist) > 1.0
    ensures FindNearestStops(spot, stops, dist) == []
  {
    FilterEmpty(stops, WithinOf(spot, dist, 1.0));
  }

  /** Without its inputs the effect keeps the last result. With them, the error is set exactly when
      there is no main route, a main route runs on a route of the table and every alternative is
      justified against it; and when no stop lies within range of one of the sights there is no main
      route. */
  lemma EffectResultSpec(previous: RouteTypes.RouteCalculationResult, fromSpot: Option<RouteTypes.TouristSpot>, toSpot: Option<RouteTypes.TouristSpot>,
                         hasTrunk: bool, t: Tables, currentTime: string, dist: Distance)
    ensures var r := EffectResult(previous, fromSpot, toSpot, hasTrunk, t, currentTime, dist);
      && (!HasInputs(fromSpot, toSpot, t) ==> r == previous)
      && (HasInputs(fromSpot, toSpot, t) ==>
            && (r.error.Some? <==> r.mainRoute.None?)
            && (r.error.Some? ==> r.error == Some(RouteTypes.CalculationError) && r.alternativeRoutes == [])
            && (r.mainRoute.Some? ==> r.mainRoute.value.route in t.routes)
            && (r.mainRoute.Some? ==> forall a :: a in r.alternativeRoutes ==> Justified(a, r.mainRoute.value, t.routes, hasTrunk))
            && ((forall k :: 0 <= k < |t.stops| ==> SpotDistance(fromSpot.value, t.stops[k], dist) > 1.0) ==> r.mainRoute.None?)
            && ((forall k :: 0 <= k < |t.stops| ==> SpotDistance(toSpot.value, t.stops[k], dist) > 1.0) ==> r.mainRoute.None?))
  {
    if HasInputs(fromSpot, toSpot, t) {
      var nearestFromStops := FindNearestStops(fromSpot.value, t.stops, dist);
      var nearestToStops := FindNearestStops(toSpot.value, t.stops, dist);
      PlanResultSpec(nearestFromStops, nearestToStops, hasTrunk, t, currentTime, dist);
      if forall k :: 0 <= k < |t.stops| ==> SpotDistance(fromSpot.value, t.stops[k], dist) > 1.0 {
        NoNearbyStop(fromSpot.value, t.stops, dist);
      }
      if forall k :: 0 <= k < |t.stops| ==> SpotDistance(toSpot.value, t.stops[k], dist) > 1.0 {
        NoNearbyStop(toSpot.value, t.stops, dist);
      }
    }
  }
}
