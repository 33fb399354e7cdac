/** The earlier stop-by-stop planner: from every stop within 1000 m of the start, every vehicle
    whose trip calls at that stop and at a stop within 1000 m of the destination gives a
    four-step option (start, walk, bus, walk); the fastest option is returned, with the first one
    on an uncrowded bus as the comfortable choice. Distances are in metres here. */
module RouteCalculator {
  import opened Wrappers
  import opened Seqs
  import opened Sorting
  import opened Text
  import opened Gtfs
  import RouteUtils
  import RouteTypes
  import RouteCalculation
  import FareCalculator

  /** Walking speed, in metres per minute. */
  const WalkSpeed: real := 80.0

  /** The default search radius around a sight, in metres. */
  const MaxWalkingDistance: real := 1000.0

  /** The inputs of `calculateRoutes`. */
  datatype CalculateRoutesParams = CalculateRoutesParams(
    fromSpot: RouteTypes.TouristSpot,
    toSpot: RouteTypes.TouristSpot,
    stops: seq<Stop>,
    vehicles: seq<Vehicle>,
    routes: seq<Route>,
    stopTimes: seq<StopTime>,
    fareAttributes: seq<FareAttribute>,
    fareRules: seq<FareRule>)

  /** The outcome of `calculateRoutes`: the fastest option and, if any, a comfortable one. */
  datatype RouteCalculationResult = RouteCalculationResult(fastest: RouteTypes.RouteOption, comfortable: Option<RouteTypes.RouteOption>)

  function NearOf(lat: real, lon: real, dist: Distance, maxDistance: real): Stop -> bool
  {
    (stop: Stop) => dist(lat, lon, stop.lat, stop.lon) <= maxDistance
  }

  /** `findNearbyStops`: the stops within `maxDistance` of the position, in table order. */
  function FindNearbyStops(lat: real, lon: real, stops: seq<Stop>, dist: Distance, maxDistance: real := MaxWalkingDistance): seq<Stop>
  {
    Filter(stops, NearOf(lat, lon, dist, maxDistance))
  }

  /** The result is the subsequence of the table at exactly the positions of the stops in range. */
  lemma FindNearbyStopsSpec(lat: real, lon: real, stops: seq<Stop>, dist: Distance, maxDistance: real)
    ensures OrderedSelection(FindNearbyStops(lat, lon, stops, dist, maxDistance), stops,
      KeptIndices(stops, NearOf(lat, lon, dist, maxDistance)), NearOf(lat, lon, dist, maxDistance))
    ensures forall s :: s in FindNearbyStops(lat, lon, stops, dist, maxDistance) <==>
      s in stops && dist(lat, lon, s.lat, s.lon) <= maxDistance
  {
    FilterSelects(stops, NearOf(lat, lon, dist, maxDistance));
    FilterMembers(stops, NearOf(lat, lon, dist, maxDistance));
  }

  /** `calculateTimeDifference`: the distance in minutes between two clock texts, either way round. */
  function CalculateTimeDifference(time1: string, time2: string): (r: nat)
    ensures r == RouteUtils.TimeToMinutes(time2) - RouteUtils.TimeToMinutes(time1)
         || r == RouteUtils.TimeToMinutes(time1) - RouteUtils.TimeToMinutes(time2)
    ensures r == 0 <==> RouteUtils.TimeToMinutes(time1) == RouteUtils.TimeToMinutes(time2)
  {
    var a, b := RouteUtils.TimeToMinutes(time1), RouteUtils.TimeToMinutes(time2);
    if b >= a then b - a else a - b
  }

  /** The difference does not depend on the order of the two times, and a time is 0 minutes from
      itself. */
  lemma TimeDifferenceSymmetric(time1: string, time2: string)
    ensures CalculateTimeDifference(time1, time2) == CalculateTimeDifference(time2, time1)
    ensures CalculateTimeDifference(time1, time1) == 0
  {
  }

  /** `Math.ceil`. */
  function Ceil(x: real): (r: int)
    ensures x <= r as real < x + 1.0
  {
    -((-x).Floor)
  }

  /** `Math.ceil(distance / WALK_SPEED)`: whole minutes to walk the distance. */
  function WalkMinutes(distance: real): int
  {
    Ceil(distance / WalkSpeed)
  }

  /** The route a vehicle reports, matched by id. */
  function RouteOfVehicle(vehicle: Vehicle): Route -> bool
  {
    (r: Route) => vehicle.routeId == Some(r.id)
  }

  /** A stop-time of the trip the vehicle runs. */
  function OnVehicleTrip(vehicle: Vehicle): StopTime -> bool
  {
    (st: StopTime) => vehicle.snakeTripId == Some(st.tripId)
  }

  function StopIdOf(st: StopTime): string
  {
    st.stopId
  }

  /** The stop ids the vehicle's trip calls at, as `stopsOnRoute` collects them. */
  function StopsOnTrip(vehicle: Vehicle, stopTimes: seq<StopTime>): seq<string>
  {
    Map(Filter(stopTimes, OnVehicleTrip(vehicle)), StopIdOf)
  }

  /** The filter on `vehicles`: the vehicle's route exists and its trip calls at both stops. */
  function AvailableOf(startStop: Stop, endStop: Stop, routes: seq<Route>, stopTimes: seq<StopTime>): Vehicle -> bool
  {
    (vehicle: Vehicle) =>
      && Find(routes, RouteOfVehicle(vehicle)).Some?
      && startStop.id in StopsOnTrip(vehicle, stopTimes)
      && endStop.id in StopsOnTrip(vehicle, stopTimes)
  }

  function AvailableBuses(startStop: Stop, endStop: Stop, p: CalculateRoutesParams): seq<Vehicle>
  {
    Filter(p.vehicles, AvailableOf(startStop, endStop, p.routes, p.stopTimes))
  }

  /** A stop-time of the vehicle's trip at the stop. */
  ghost predicate TripCallsAt(vehicle: Vehicle, stopTimes: seq<StopTime>, stopId: string)
  {
    exists i :: 0 <= i < |stopTimes| && vehicle.snakeTripId == Some(stopTimes[i].tripId) && stopTimes[i].stopId == stopId
  }

  /** A vehicle qualifies exactly when a route has its route id and its trip calls at both stops,
      in either order. */
  lemma AvailableSpec(startStop: Stop, endStop: Stop, routes: seq<Route>, stopTimes: seq<StopTime>, vehicle: Vehicle)
    ensures AvailableOf(startStop, endStop, routes, stopTimes)(vehicle) <==>
      && (exists i :: 0 <= i < |routes| && vehicle.routeId == Some(routes[i].id))
      && TripCallsAt(vehicle, stopTimes, startStop.id)
      && TripCallsAt(vehicle, stopTimes, endStop.id)
  {
    TripStopIds(vehicle, stopTimes, startStop.id);
    TripStopIds(vehicle, stopTimes, endStop.id);
  }

  lemma TripStopIds(vehicle: Vehicle, stopTimes: seq<StopTime>, stopId: string)
    ensures stopId in StopsOnTrip(vehicle, stopTimes) <==> TripCallsAt(vehicle, stopTimes, stopId)
  {
    var trip := Filter(stopTimes, OnVehicleTrip(vehicle));
    FilterMembers(stopTimes, OnVehicleTrip(vehicle));
    if stopId in StopsOnTrip(vehicle, stopTimes) {
      var k :| 0 <= k < |trip| && StopIdOf(trip[k]) == stopId;
      assert trip[k] in stopTimes;
    }
    if TripCallsAt(vehicle, stopTimes, stopId) {
      var i :| 0 <= i < |stopTimes| && vehicle.snakeTripId == Some(stopTimes[i].tripId) && stopTimes[i].stopId == stopId;
      assert stopTimes[i] in trip;
      var k :| 0 <= k < |trip| && trip[k] == stopTimes[i];
      assert StopsOnTrip(vehicle, stopTimes)[k] == stopId;
    }
  }

  /** `bus.vehicle?.occupancyStatus || 'UNKNOWN'`. */
  function StatusText(vehicle: Vehicle): string
  {
    if vehicle.occupancyStatus.Some? then vehicle.occupancyStatus.value.Name() else "UNKNOWN"
  }

  function CrowdLevel(vehicle: Vehicle): Option<string>
  {
    if vehicle.occupancyStatus.Some? then Some(vehicle.occupancyStatus.value.Name()) else None
  }

  /** The option of one vehicle between the two stops, given the two stop-times found on its trip. */
  function BuildOption(startStop: Stop, endStop: Stop, startStopTime: StopTime, endStopTime: StopTime, routeInfo: Route,
                       bus: Vehicle, toSpot: RouteTypes.TouristSpot, p: CalculateRoutesParams, currentTime: string, dist: Distance): RouteTypes.RouteOption
  {
    var walkToStartDistance := dist(startStop.lat, startStop.lon, toSpot.lat, toSpot.lon);
    var walkToStartTime := WalkMinutes(walkToStartDistance);
    var busTime := CalculateTimeDifference(startStopTime.arrival, endStopTime.arrival);
    var fare := FareCalculator.CalculateFare(routeInfo.id, p.fareAttributes, p.fareRules);
    var walkToDestDistance := dist(endStop.lat, endStop.lon, toSpot.lat, toSpot.lon);
    var walkToDestTime := WalkMinutes(walkToDestDistance);
    RouteTypes.RouteOption(
      "fastest",
      walkToStartTime + busTime + walkToDestTime,
      fare,
      [ RouteTypes.RouteStep(RouteTypes.Start, currentTime, startStop.name, 0, None, None),
        RouteTypes.RouteStep(RouteTypes.Walk, startStopTime.departure, startStop.name, walkToStartTime, Some(walkToStartDistance), None),
        RouteTypes.RouteStep(RouteTypes.Bus, endStopTime.arrival, endStop.name, busTime, None,
          Some(RouteTypes.BusDetails(routeInfo.id, routeInfo.shortName, StatusText(bus)))),
        RouteTypes.RouteStep(RouteTypes.Walk, endStopTime.arrival, toSpot.name, walkToDestTime, Some(walkToDestDistance), None) ],
      CrowdLevel(bus))
  }

  /** The filter reads `trip.routeId` for the route and `trip.trip_id` for the stop-times: a vehicle
      lacking either key passes no filter and yields no option. */
  lemma NeedsRouteAndFeedTripId(startStop: Stop, endStop: Stop, bus: Vehicle, toSpot: RouteTypes.TouristSpot,
                                p: CalculateRoutesParams, currentTime: string, dist: Distance)
    requires bus.routeId.None? || bus.snakeTripId.None?
    ensures !AvailableOf(startStop, endStop, p.routes, p.stopTimes)(bus)
    ensures OptionFor(startStop, endStop, bus, toSpot, p, currentTime, dist).None?
  {
    AvailableSpec(startStop, endStop, p.routes, p.stopTimes, bus);
    if bus.snakeTripId.None? {
      FilterEmpty(p.stopTimes, OnVehicleTrip(bus));
      SortPermutes(Filter(p.stopTimes, OnVehicleTrip(bus)), RouteCalculation.BySequence());
      assert TripInOrder(bus, p.stopTimes) == [];
    }
  }

  /** The trip's stop-times in stop-sequence order. */
  function TripInOrder(bus: Vehicle, stopTimes: seq<StopTime>): seq<StopTime>
  {
    SortBy(Filter(stopTimes, OnVehicleTrip(bus)), RouteCalculation.BySequence())
  }

  /** The body of the loop over `availableBuses`: no option when the vehicle's route is missing or
      its trip lacks one of the stops. */
  function OptionFor(startStop: Stop, endStop: Stop, bus: Vehicle, toSpot: RouteTypes.TouristSpot,
                     p: CalculateRoutesParams, currentTime: string, dist: Distance): Option<RouteTypes.RouteOption>
  {
    match Find(p.routes, RouteOfVehicle(bus))
    case None => None
    case Some(routeInfo) =>
      var relevantStopTimes := TripInOrder(bus, p.stopTimes);
      var startStopTime := Find(relevantStopTimes, RouteCalculation.AtStop(startStop.id));
      var endStopTime := Find(relevantStopTimes, RouteCalculation.AtStop(endStop.id));
      if startStopTime.Some? && endStopTime.Some? then
        Some(BuildOption(startStop, endStop, startStopTime.value, endStopTime.value, routeInfo, bus, toSpot, p, currentTime, dist))
      else None
  }

  function OptionList(o: Option<RouteTypes.RouteOption>): seq<RouteTypes.RouteOption>
  {
    if o.Some? then [o.value] else []
  }

  /** The options pushed for the given vehicles, in their order. */
  function OptionsForBuses(startStop: Stop, endStop: Stop, buses: seq<Vehicle>, toSpot: RouteTypes.TouristSpot,
                           p: CalculateRoutesParams, currentTime: string, dist: Distance): seq<RouteTypes.RouteOption>
  {
    if buses == [] then []
    else
      OptionsForBuses(startStop, endStop, buses[..|buses| - 1], toSpot, p, currentTime, dist)
        + OptionList(OptionFor(startStop, endStop, buses[|buses| - 1], toSpot, p, currentTime, dist))
  }

  /** The options pushed for the given end stops, in their order. */
  function OptionsForEnds(startStop: Stop, endStops: seq<Stop>, toSpot: RouteTypes.TouristSpot,
                          p: CalculateRoutesParams, currentTime: string, dist: Distance): seq<RouteTypes.RouteOption>
  {
    if endStops == [] then []
    else
      var endStop := endStops[|endStops| - 1];
      OptionsForEnds(startStop, endStops[..|endStops| - 1], toSpot, p, currentTime, dist)
        + OptionsForBuses(startStop, endStop, AvailableBuses(startStop, endStop, p), toSpot, p, currentTime, dist)
  }

  /** What `calculateRoutesFromStop` returns. */
  function RoutesFromStop(startStop: Stop, toSpot: RouteTypes.TouristSpot, p: CalculateRoutesParams, currentTime: string, dist: Distance): seq<RouteTypes.RouteOption>
  {
    OptionsForEnds(startStop, FindNearbyStops(toSpot.lat, toSpot.lon, p.stops, dist), toSpot, p, currentTime, dist)
  }

  /** `calculateRoutesFromStop`, with the loop over end stops and the loop over vehicles. */
  method CalculateRoutesFromStop(startStop: Stop, toSpot: RouteTypes.TouristSpot, p: CalculateRoutesParams, currentTime: string, dist: Distance)
    returns (possibleRoutes: seq<RouteTypes.RouteOption>)
    ensures possibleRoutes == RoutesFromStop(startStop, toSpot, p, currentTime, dist)
  {
    possibleRoutes := [];
    var endStops := FindNearbyStops(toSpot.lat, toSpot.lon, p.stops, dist);
    for e := 0 to |endStops|
      invariant possibleRoutes == OptionsForEnds(startStop, endStops[..e], toSpot, p, currentTime, dist)
    {
      var endStop := endStops[e];
      var availableBuses := AvailableBuses(startStop, endStop, p);
      possibleRoutes := PushOptionsForBuses(possibleRoutes, startStop, endStop, availableBuses, toSpot, p, currentTime, dist);
      assert endStops[..e + 1][..e] == endStops[..e];
    }
    assert endStops[..|endStops|] == endStops;
  }

  /** The inner loop: one option pushed for each vehicle whose trip has stop-times at both stops. */
  method PushOptionsForBuses(possibleRoutes0: seq<RouteTypes.RouteOption>, startStop: Stop, endStop: Stop, availableBuses: seq<Vehicle>,
                             toSpot: RouteTypes.TouristSpot, p: CalculateRoutesParams, currentTime: string, dist: Distance)
    returns (possibleRoutes: seq<RouteTypes.RouteOption>)
    ensures possibleRoutes == possibleRoutes0 + OptionsForBuses(startStop, endStop, availableBuses, toSpot, p, currentTime, dist)
  {
    possibleRoutes := possibleRoutes0;
    for b := 0 to |availableBuses|
      invariant possibleRoutes == possibleRoutes0 + OptionsForBuses(startStop, endStop, availableBuses[..b], toSpot, p, currentTime, dist)
    {
      var bus := availableBuses[b];
      var option := OptionForBus(startStop, endStop, bus, toSpot, p, currentTime, dist);
      OptionsForBusesStep(startStop, endStop, availableBuses, b, toSpot, p, currentTime, dist);
      possibleRoutes := possibleRoutes + OptionList(option);
    }
    assert availableBuses[..|availableBuses|] == availableBuses;
  }

  lemma OptionsForBusesStep(startStop: Stop, endStop: Stop, buses: seq<Vehicle>, b: int, toSpot: RouteTypes.TouristSpot,
                            p: CalculateRoutesParams, currentTime: string, dist: Distance)
    requires 0 <= b < |buses|
    ensures OptionsForBuses(startStop, endStop, buses[..b + 1], toSpot, p, currentTime, dist)
         == OptionsForBuses(startStop, endStop, buses[..b], toSpot, p, currentTime, dist)
            + OptionList(OptionFor(startStop, endStop, buses[b], toSpot, p, currentTime, dist))
  {
    assert buses[..b + 1][..b] == buses[..b];
  }

  /** One vehicle: the route lookup and the two stop-times on its trip. */
  method OptionForBus(startStop: Stop, endStop: Stop, bus: Vehicle, toSpot: RouteTypes.TouristSpot,
                      p: CalculateRoutesParams, currentTime: string, dist: Distance)
    returns (option: Option<RouteTypes.RouteOption>)
    ensures option == OptionFor(startStop, endStop, bus, toSpot, p, currentTime, dist)
  {
    var routeInfo := Find(p.routes, RouteOfVehicle(bus));
    if routeInfo.None? {
      return None;
    }
    var relevantStopTimes := TripInOrder(bus, p.stopTimes);
    var startStopTime := Find(relevantStopTimes, RouteCalculation.AtStop(startStop.id));
    var endStopTime := Find(relevantStopTimes, RouteCalculation.AtStop(endStop.id));
    if startStopTime.None? || endStopTime.None? {
      return None;
    }
    var built := BuildSteps(startStop, endStop, startStopTime.value, endStopTime.value, routeInfo.value, bus, toSpot, p, currentTime, dist);
    option := Some(built);
  }

  /** The option of a vehicle whose stop-times were found: the total built up walk, ride, walk,
      and the four steps pushed at once. */
  method BuildSteps(startStop: Stop, endStop: Stop, startStopTime: StopTime, endStopTime: StopTime, routeInfo: Route,
                    bus: Vehicle, toSpot: RouteTypes.TouristSpot, p: CalculateRoutesParams, currentTime: string, dist: Distance)
    returns (option: RouteTypes.RouteOption)
    ensures option == BuildOption(startStop, endStop, startStopTime, endStopTime, routeInfo, bus, toSpot, p, currentTime, dist)
  {
    var totalTime := 0;
    var walkToStartDistance := dist(startStop.lat, startStop.lon, toSpot.lat, toSpot.lon);
    var walkToStartTime := WalkMinutes(walkToStartDistance);
    totalTime := totalTime + walkToStartTime;
    var busTime := CalculateTimeDifference(startStopTime.arrival, endStopTime.arrival);
    totalTime := totalTime + busTime;
    var fare := FareCalculator.CalculateFare(routeInfo.id, p.fareAttributes, p.fareRules);
    var walkToDestDistance := dist(endStop.lat, endStop.lon, toSpot.lat, toSpot.lon);
    var walkToDestTime := WalkMinutes(walkToDestDistance);
    totalTime := totalTime + walkToDestTime;
    var steps: seq<RouteTypes.RouteStep> := [];
    steps := steps + [
      RouteTypes.RouteStep(RouteTypes.Start, currentTime, startStop.name, 0, None, None),
      RouteTypes.RouteStep(RouteTypes.Walk, startStopTime.departure, startStop.name, walkToStartTime, Some(walkToStartDistance), None),
      RouteTypes.RouteStep(RouteTypes.Bus, endStopTime.arrival, endStop.name, busTime, None,
        Some(RouteTypes.BusDetails(routeInfo.id, routeInfo.shortName, StatusText(bus)))),
      RouteTypes.RouteStep(RouteTypes.Walk, endStopTime.arrival, toSpot.name, walkToDestTime, Some(walkToDestDistance), None)];
    option := RouteTypes.RouteOption("fastest", totalTime, fare, steps, CrowdLevel(bus));
  }

  /** An option as the planner builds it: start, walk, bus, walk; its total is the sum of the step
      durations; the bus step names the route, whose fare it carries, and the vehicle's status,
      'UNKNOWN' when the vehicle reports none. */
  ghost predicate FourStepOption(o: RouteTypes.RouteOption, p: CalculateRoutesParams)
  {
    && o.kind == "fastest"
    && |o.steps| == 4
    && o.steps[0].kind == RouteTypes.Start && o.steps[1].kind == RouteTypes.Walk
    && o.steps[2].kind == RouteTypes.Bus && o.steps[3].kind == RouteTypes.Walk
    && o.steps[0].duration == 0
    && o.totalTime == o.steps[0].duration + o.steps[1].duration + o.steps[2].duration + o.steps[3].duration
    && o.steps[2].busDetails.Some?
    && o.totalFare == FareCalculator.CalculateFare(o.steps[2].busDetails.value.routeId, p.fareAttributes, p.fareRules)
    && o.steps[2].busDetails.value.occupancyStatus == (if o.crowdLevel.Some? then o.crowdLevel.value else "UNKNOWN")
  }

  /** The option's first walk is measured from the boarding stop to the destination sight. */
  ghost predicate WalksFrom(o: RouteTypes.RouteOption, startStop: Stop, toSpot: RouteTypes.TouristSpot, dist: Distance)
  {
    |o.steps| == 4 && o.steps[0].location == startStop.name
    && o.steps[1].distance == Some(dist(startStop.lat, startStop.lon, toSpot.lat, toSpot.lon))
  }

  lemma OptionForShape(startStop: Stop, endStop: Stop, bus: Vehicle, toSpot: RouteTypes.TouristSpot,
                       p: CalculateRoutesParams, currentTime: string, dist: Distance)
    ensures var o := OptionFor(startStop, endStop, bus, toSpot, p, currentTime, dist);
      o.Some? ==> FourStepOption(o.value, p) && WalksFrom(o.value, startStop, toSpot, dist)
  {
  }

  /** Every option for a list of vehicles has the planner's shape. */
  lemma {:induction false} OptionsForBusesShape(startStop: Stop, endStop: Stop, buses: seq<Vehicle>, toSpot: RouteTypes.TouristSpot,
                                                 p: CalculateRoutesParams, currentTime: string, dist: Distance)
    ensures forall o :: o in OptionsForBuses(startStop, endStop, buses, toSpot, p, currentTime, dist) ==>
      FourStepOption(o, p) && WalksFrom(o, startStop, toSpot, dist)
  {
    if buses != [] {
      OptionsForBusesShape(startStop, endStop, buses[..|buses| - 1], toSpot, p, currentTime, dist);
      OptionForShape(startStop, endStop, buses[|buses| - 1], toSpot, p, currentTime, dist);
    }
  }

  lemma {:induction false} OptionsForEndsShape(startStop: Stop, endStops: seq<Stop>, toSpot: RouteTypes.TouristSpot,
                                                p: CalculateRoutesParams, currentTime: string, dist: Distance)
    ensures forall o :: o in OptionsForEnds(startStop, endStops, toSpot, p, currentTime, dist) ==>
      FourStepOption(o, p) && WalksFrom(o, startStop, toSpot, dist)
  {
    if endStops != [] {
      var endStop := endStops[|endStops| - 1];
      OptionsForEndsShape(startStop, endStops[..|endStops| - 1], toSpot, p, currentTime, dist);
      OptionsForBusesShape(startStop, endStop, AvailableBuses(startStop, endStop, p), toSpot, p, currentTime, dist);
    }
  }

  /** Every option from a stop has four steps whose durations add up to its total, the fare of its
      route's first fare rule, and a first walk from that stop to the destination. */
  lemma RoutesFromStopShape(startStop: Stop, toSpot: RouteTypes.TouristSpot, p: CalculateRoutesParams, currentTime: string, dist: Distance)
    ensures forall o :: o in RoutesFromStop(startStop, toSpot, p, currentTime, dist) ==>
      FourStepOption(o, p) && WalksFrom(o, startStop, toSpot, dist)
  {
    OptionsForEndsShape(startStop, FindNearbyStops(toSpot.lat, toSpot.lon, p.stops, dist), toSpot, p, currentTime, dist);
  }

  /** A vehicle that passes the filter always yields an option. */
  lemma AvailableYieldsOption(startStop: Stop, endStop: Stop, bus: Vehicle, toSpot: RouteTypes.TouristSpot,
                              p: CalculateRoutesParams, currentTime: string, dist: Distance)
    requires AvailableOf(startStop, endStop, p.routes, p.stopTimes)(bus)
    ensures OptionFor(startStop, endStop, bus, toSpot, p, currentTime, dist).Some?
  {
    TripInOrderCalls(bus, p.stopTimes, startStop.id);
    TripInOrderCalls(bus, p.stopTimes, endStop.id);
  }

  lemma TripInOrderCalls(bus: Vehicle, stopTimes: seq<StopTime>, stopId: string)
    requires stopId in StopsOnTrip(bus, stopTimes)
    ensures Find(TripInOrder(bus, stopTimes), RouteCalculation.AtStop(stopId)).Some?
  {
    var trip := Filter(stopTimes, OnVehicleTrip(bus));
    var k :| 0 <= k < |trip| && StopIdOf(trip[k]) == stopId;
    SortPermutes(trip, RouteCalculation.BySequence());
    assert trip[k] in multiset(TripInOrder(bus, stopTimes));
    var sorted := TripInOrder(bus, stopTimes);
    var j :| 0 <= j < |sorted| && sorted[j] == trip[k];
    assert RouteCalculation.AtStop(stopId)(sorted[j]);
  }

  /** Each vehicle in a list of qualifying vehicles contributes exactly one option. */
  lemma {:induction false} OnePerBus(startStop: Stop, endStop: Stop, buses: seq<Vehicle>, toSpot: RouteTypes.TouristSpot,
                                      p: CalculateRoutesParams, currentTime: string, dist: Distance)
    requires forall b :: b in buses ==> AvailableOf(startStop, endStop, p.routes, p.stopTimes)(b)
    ensures |OptionsForBuses(startStop, endStop, buses, toSpot, p, currentTime, dist)| == |buses|
  {
    if buses != [] {
      OnePerBus(startStop, endStop, buses[..|buses| - 1], toSpot, p, currentTime, dist);
      AvailableYieldsOption(startStop, endStop, buses[|buses| - 1], toSpot, p, currentTime, dist);
    }
  }

  /** For one end stop there are as many options as vehicles passing the filter. */
  lemma OptionsPerEndStop(startStop: Stop, endStop: Stop, toSpot: RouteTypes.TouristSpot,
                          p: CalculateRoutesParams, currentTime: string, dist: Distance)
    ensures |OptionsForBuses(startStop, endStop, AvailableBuses(startStop, endStop, p), toSpot, p, currentTime, dist)|
         == |AvailableBuses(startStop, endStop, p)|
  {
    FilterMembers(p.vehicles, AvailableOf(startStop, endStop, p.routes, p.stopTimes));
    OnePerBus(startStop, endStop, AvailableBuses(startStop, endStop, p), toSpot, p, currentTime, dist);
  }

  /** `(a, b) => a.totalTime - b.totalTime` as an order. */
  function ByTotalTime(): (RouteTypes.RouteOption, RouteTypes.RouteOption) -> bool
  {
    (a: RouteTypes.RouteOption, b: RouteTypes.RouteOption) => a.totalTime <= b.totalTime
  }

  function AnyOption(): RouteTypes.RouteOption -> bool
  {
    (o: RouteTypes.RouteOption) => true
  }

  /** The option `selectFastestRoute` returns for the given list. */
  function Fastest(routes: seq<RouteTypes.RouteOption>): Option<RouteTypes.RouteOption>
  {
    if routes == [] then None else Some(SortBy(routes, ByTotalTime())[0])
  }

  /** `selectFastestRoute`: a non-empty list is sorted in place by total time and its new first
      element returned; an empty list is left alone and gives nothing. */
  method SelectFastestRoute(routes: array<RouteTypes.RouteOption>) returns (r: Option<RouteTypes.RouteOption>)
    modifies routes
    ensures routes[..] == SortBy(old(routes[..]), ByTotalTime())
    ensures r == Fastest(old(routes[..]))
  {
    if routes.Length == 0 {
      return None;
    }
    var sorted := SortBy(routes[..], ByTotalTime());
    forall i | 0 <= i < routes.Length {
      routes[i] := sorted[i];
    }
    assert routes[..] == sorted;
    return Some(routes[0]);
  }

  /** Nothing is returned only for an empty list; otherwise the option returned is one of the list
      with the least total time, the earliest such one in list order. */
  lemma FastestSpec(routes: seq<RouteTypes.RouteOption>)
    ensures Fastest(routes).None? <==> routes == []
    ensures Fastest(routes).Some? ==> exists k :: FirstLeastWhere(routes, AnyOption(), ByTotalTime(), k) && Fastest(routes).value == routes[k]
    ensures Fastest(routes).Some? ==>
      Fastest(routes).value in routes && forall o :: o in routes ==> Fastest(routes).value.totalTime <= o.totalTime
  {
    if routes != [] {
      SortHead(routes, ByTotalTime(), AnyOption());
      var k :| FirstLeastWhere(routes, AnyOption(), ByTotalTime(), k) && Fastest(routes).value == routes[k];
      forall o | o in routes ensures Fastest(routes).value.totalTime <= o.totalTime {
        var j :| 0 <= j < |routes| && routes[j] == o;
        assert ByTotalTime()(routes[k], routes[j]);
      }
    }
  }

  function BusStep(): RouteTypes.RouteStep -> bool
  {
    (step: RouteTypes.RouteStep) => step.kind == RouteTypes.Bus
  }

  function VehicleOnRoute(routeId: string): Vehicle -> bool
  {
    (v: Vehicle) => v.routeId == Some(routeId)
  }

  /** The test of `findComfortableAlternative`: the option's first bus step has details, and the
      first vehicle on that route reports EMPTY or MANY_SEATS_AVAILABLE. */
  predicate IsComfortable(route: RouteTypes.RouteOption, vehicles: seq<Vehicle>)
  {
    match Find(route.steps, BusStep())
    case None => false
    case Some(busStep) =>
      if busStep.busDetails.None? then false
      else
        match Find(vehicles, VehicleOnRoute(busStep.busDetails.value.routeId))
        case None => false
        case Some(vehicle) =>
          vehicle.occupancyStatus.Some? && HasRoom(vehicle.occupancyStatus.value)
  }

  /** The status test of `findComfortableAlternative`, by the status's name. */
  predicate HasRoom(status: OccupancyStatus)
  {
    status.Name() == "MANY_SEATS_AVAILABLE" || status.Name() == "EMPTY"
  }

  /** Exactly the two emptiest statuses pass the name test. */
  lemma HasRoomSpec(status: OccupancyStatus)
    ensures HasRoom(status) <==> status == Empty || status == ManySeatsAvailable
  {
    match status
    case Empty =>
    case ManySeatsAvailable =>
    case FewSeatsAvailable =>
    case StandingRoomOnly =>
    case CrushedStandingRoomOnly =>
    case Full =>
    case NotAcceptingPassengers =>
    case NoDataAvailable =>
    case NotBoardable =>
  }

  function ComfortableOf(vehicles: seq<Vehicle>): RouteTypes.RouteOption -> bool
  {
    (route: RouteTypes.RouteOption) => IsComfortable(route, vehicles)
  }

  /** `findComfortableAlternative`: the first comfortable option. */
  function FindComfortableAlternative(routes: seq<RouteTypes.RouteOption>, vehicles: seq<Vehicle>): Option<RouteTypes.RouteOption>
  {
    Find(routes, ComfortableOf(vehicles))
  }

  /** An option is comfortable exactly when it has a bus step, the first one carries details, a
      vehicle runs that route, and the first such vehicle is empty or has many seats left. */
  lemma ComfortableSpec(route: RouteTypes.RouteOption, vehicles: seq<Vehicle>)
    ensures (forall i :: 0 <= i < |route.steps| ==> route.steps[i].kind != RouteTypes.Bus) ==> !IsComfortable(route, vehicles)
    ensures forall k :: FirstAt(route.steps, BusStep(), k) && route.steps[k].busDetails.None? ==> !IsComfortable(route, vehicles)
    ensures forall k :: FirstAt(route.steps, BusStep(), k) && route.steps[k].busDetails.Some? ==>
      var routeId := route.steps[k].busDetails.value.routeId;
      && ((forall j :: 0 <= j < |vehicles| ==> vehicles[j].routeId != Some(routeId)) ==> !IsComfortable(route, vehicles))
      && (forall j :: FirstAt(vehicles, VehicleOnRoute(routeId), j) ==>
            (IsComfortable(route, vehicles) <==>
              vehicles[j].occupancyStatus == Some(Empty) || vehicles[j].occupancyStatus == Some(ManySeatsAvailable)))
  {
    forall k | FirstAt(route.steps, BusStep(), k) ensures Find(route.steps, BusStep()) == Some(route.steps[k]) {
      FindFirstAt(route.steps, BusStep(), k);
    }
    forall j, routeId | FirstAt(vehicles, VehicleOnRoute(routeId), j)
      ensures Find(vehicles, VehicleOnRoute(routeId)) == Some(vehicles[j])
    {
      FindFirstAt(vehicles, VehicleOnRoute(routeId), j);
    }
    forall status: OccupancyStatus ensures HasRoom(status) <==> status == Empty || status == ManySeatsAvailable {
      HasRoomSpec(status);
    }
  }

  /** The current time as `calculateRoutes` writes it: the hour unpadded, the minutes padded to two
      digits. */
  function RouteClock(hours: nat, minutes: nat): string
  {
    IntToText(hours) + ":" + PadStart2(IntToText(minutes))
  }

  /** The clock text reads back as `hours * 60 + minutes`. */
  lemma RouteClockReadsBack(hours: nat, minutes: nat)
    ensures RouteUtils.TimeToMinutes(RouteClock(hours, minutes)) == hours * 60 + minutes
  {
    var h, m := NatToText(hours), PadStart2(NatToText(minutes));
    PadKeepsValue(NatToText(minutes));
    assert RouteClock(hours, minutes) == h + ":" + m + [];
    RouteUtils.TimeToMinutesOfClock(h, m, []);
  }

  /** The options of the given boarding stops, in their order. */
  function AllRoutes(startStops: seq<Stop>, p: CalculateRoutesParams, currentTime: string, dist: Distance): seq<RouteTypes.RouteOption>
  {
    if startStops == [] then []
    else AllRoutes(startStops[..|startStops| - 1], p, currentTime, dist) + RoutesFromStop(startStops[|startStops| - 1], p.toSpot, p, currentTime, dist)
  }

  /** What `calculateRoutes` returns, or the message it throws. The comfortable option is looked
      for in the list `selectFastestRoute` has already sorted. */
  function CalculateRoutesResult(p: CalculateRoutesParams, currentTime: string, dist: Distance): Result<RouteCalculationResult, string>
  {
    var allRoutes := AllRoutes(FindNearbyStops(p.fromSpot.lat, p.fromSpot.lon, p.stops, dist), p, currentTime, dist);
    SelectRoutes(allRoutes, p.vehicles)
  }

  /** The end of `calculateRoutes`, once every option is collected. */
  function SelectRoutes(allRoutes: seq<RouteTypes.RouteOption>, vehicles: seq<Vehicle>): Result<RouteCalculationResult, string>
  {
    match Fastest(allRoutes)
    case None => Failure("No routes found")
    case Some(fastest) => Success(RouteCalculationResult(fastest, FindComfortableAlternative(SortBy(allRoutes, ByTotalTime()), vehicles)))
  }

  /** `calculateRoutes`, with the clock read as `hours` and `minutes`. */
  method CalculateRoutes(p: CalculateRoutesParams, hours: nat, minutes: nat, dist: Distance) returns (r: Result<RouteCalculationResult, string>)
    ensures r == CalculateRoutesResult(p, RouteClock(hours, minutes), dist)
  {
    var currentTime := RouteClock(hours, minutes);
    var nearbyStops := FindNearbyStops(p.fromSpot.lat, p.fromSpot.lon, p.stops, dist);
    var allRoutes := CollectRoutes(nearbyStops, p, currentTime, dist);
    var routesArray := new RouteTypes.RouteOption[|allRoutes|](i requires 0 <= i < |allRoutes| => allRoutes[i]);
    assert routesArray[..] == allRoutes;
    var fastestRoute := SelectFastestRoute(routesArray);
    if fastestRoute.None? {
      return Failure("No routes found");
    }
    var comfortableRoute := FindComfortableAlternative(routesArray[..], p.vehicles);
    return Success(RouteCalculationResult(fastestRoute.value, comfortableRoute));
  }

  /** The loop of `calculateRoutes`: the options of each boarding stop appended in turn. */
  method CollectRoutes(nearbyStops: seq<Stop>, p: CalculateRoutesParams, currentTime: string, dist: Distance)
    returns (allRoutes: seq<RouteTypes.RouteOption>)
    ensures allRoutes == AllRoutes(nearbyStops, p, currentTime, dist)
  {
    allRoutes := [];
    for i := 0 to |nearbyStops|
      invariant allRoutes == AllRoutes(nearbyStops[..i], p, currentTime, dist)
    {
      var routes := CalculateRoutesFromStop(nearbyStops[i], p.toSpot, p, currentTime, dist);
      assert nearbyStops[..i + 1][..i] == nearbyStops[..i];
      allRoutes := allRoutes + routes;
    }
    assert nearbyStops[..|nearbyStops|] == nearbyStops;
  }

  /** Every option from the given boarding stops has the planner's four-step shape and walks from
      one of them. */
  lemma {:induction false} AllRoutesShape(startStops: seq<Stop>, p: CalculateRoutesParams, currentTime: string, dist: Distance)
    ensures forall o :: o in AllRoutes(startStops, p, currentTime, dist) ==>
      FourStepOption(o, p) && exists s :: s in startStops && WalksFrom(o, s, p.toSpot, dist)
  {
    if startStops != [] {
      var front, last := startStops[..|startStops| - 1], startStops[|startStops| - 1];
      AllRoutesShape(front, p, currentTime, dist);
      RoutesFromStopShape(last, p.toSpot, p, currentTime, dist);
      forall o | o in AllRoutes(startStops, p, currentTime, dist)
        ensures exists s :: s in startStops && WalksFrom(o, s, p.toSpot, dist)
      {
        if o in AllRoutes(front, p, currentTime, dist) {
          var s :| s in front && WalksFrom(o, s, p.toSpot, dist);
          assert s in startStops;
        } else {
          assert WalksFrom(o, last, p.toSpot, dist);
        }
      }
    }
  }

  /** Over any list of options: a failure with "No routes found" exactly for no options; otherwise
      the fastest is an option of least total time, and the comfortable one, when there is one,
      is an option that passes the comfort test; there is none only when no option passes it. */
  lemma SelectRoutesSpec(allRoutes: seq<RouteTypes.RouteOption>, vehicles: seq<Vehicle>)
    ensures var r := SelectRoutes(allRoutes, vehicles);
      && (r.Failure? <==> allRoutes == [])
      && (r.Failure? ==> r.error == "No routes found")
      && (r.Success? ==>
            && r.value.fastest in allRoutes
            && forall o :: o in allRoutes ==> r.value.fastest.totalTime <= o.totalTime)
      && (r.Success? && r.value.comfortable.Some? ==>
            r.value.comfortable.value in allRoutes && IsComfortable(r.value.comfortable.value, vehicles))
      && (r.Success? && r.value.comfortable.None? ==> forall o :: o in allRoutes ==> !IsComfortable(o, vehicles))
  {
    FastestSpec(allRoutes);
    if allRoutes != [] {
      var sorted := SortBy(allRoutes, ByTotalTime());
      SortKeepsMembers(allRoutes, ByTotalTime());
      NoComfortableLeft(sorted, vehicles);
    }
  }

  /** `calculateRoutes` throws "No routes found" exactly when there is no option, and otherwise
      returns, as the fastest, a four-step option from a stop near the starting sight. */
  lemma CalculateRoutesSpec(p: CalculateRoutesParams, currentTime: string, dist: Distance)
    ensures var allRoutes := AllRoutes(FindNearbyStops(p.fromSpot.lat, p.fromSpot.lon, p.stops, dist), p, currentTime, dist);
      var r := CalculateRoutesResult(p, currentTime, dist);
      && (r.Failure? <==> allRoutes == [])
      && (r.Success? ==> r.value.fastest in allRoutes && FourStepOption(r.value.fastest, p))
  {
    var nearbyStops := FindNearbyStops(p.fromSpot.lat, p.fromSpot.lon, p.stops, dist);
    var allRoutes := AllRoutes(nearbyStops, p, currentTime, dist);
    SelectRoutesSpec(allRoutes, p.vehicles);
    AllRoutesShape(nearbyStops, p, currentTime, dist);
  }

  /** When no option is comfortable enough for the search, none of them is. */
  lemma NoComfortableLeft(routes: seq<RouteTypes.RouteOption>, vehicles: seq<Vehicle>)
    ensures FindComfortableAlternative(routes, vehicles).None? ==> forall o :: o in routes ==> !IsComfortable(o, vehicles)
  {
    if FindComfortableAlternative(routes, vehicles).None? {
      forall o | o in routes ensures !IsComfortable(o, vehicles) {
        var j :| 0 <= j < |routes| && routes[j] == o;
        assert !ComfortableOf(vehicles)(routes[j]);
      }
    }
  }

  /** No vehicle of the feed carries both `trip.routeId` and `trip.trip_id`. */
  predicate NoVehicleMatched(vehicles: seq<Vehicle>)
  {
    forall k :: 0 <= k < |vehicles| ==> vehicles[k].routeId.None? || vehicles[k].snakeTripId.None?
  }

  lemma {:induction false} NoMatchedVehicleNoOptions(startStop: Stop, endStops: seq<Stop>, toSpot: RouteTypes.TouristSpot,
                                                     p: CalculateRoutesParams, currentTime: string, dist: Distance)
    requires NoVehicleMatched(p.vehicles)
    ensures OptionsForEnds(startStop, endStops, toSpot, p, currentTime, dist) == []
  {
    if endStops != [] {
      var endStop := endStops[|endStops| - 1];
      NoMatchedVehicleNoOptions(startStop, endStops[..|endStops| - 1], toSpot, p, currentTime, dist);
      forall k | 0 <= k < |p.vehicles| ensures !AvailableOf(startStop, endStop, p.routes, p.stopTimes)(p.vehicles[k]) {
        NeedsRouteAndFeedTripId(startStop, endStop, p.vehicles[k], toSpot, p, currentTime, dist);
      }
      FilterEmpty(p.vehicles, AvailableOf(startStop, endStop, p.routes, p.stopTimes));
    }
  }

  lemma {:induction false} NoMatchedVehicleNoRoutes(startStops: seq<Stop>, p: CalculateRoutesParams, currentTime: string, dist: Distance)
    requires NoVehicleMatched(p.vehicles)
    ensures AllRoutes(startStops, p, currentTime, dist) == []
  {
    if startStops != [] {
      var last := startStops[|startStops| - 1];
      NoMatchedVehicleNoRoutes(startStops[..|startStops| - 1], p, currentTime, dist);
      NoMatchedVehicleNoOptions(last, FindNearbyStops(p.toSpot.lat, p.toSpot.lon, p.stops, dist), p.toSpot, p, currentTime, dist);
    }
  }

  /** When no vehicle carries both `trip.routeId` and `trip.trip_id` (a feed that spells every trip
      key one way), there is no option and the planner throws "No routes found". */
  lemma NoMatchedVehicleThrows(p: CalculateRoutesParams, currentTime: string, dist: Distance)
    requires NoVehicleMatched(p.vehicles)
    ensures CalculateRoutesResult(p, currentTime, dist) == Failure("No routes found")
  {
    NoMatchedVehicleNoRoutes(FindNearbyStops(p.fromSpot.lat, p.fromSpot.lon, p.stops, dist), p, currentTime, dist);
  }

  /** With no stop within range of the starting sight there is no option, and the planner throws. */
  lemma NoStartStopNoRoutes(p: CalculateRoutesParams, currentTime: string, dist: Distance)
    requires forall s :: s in p.stops ==> dist(p.fromSpot.lat, p.fromSpot.lon, s.lat, s.lon) > MaxWalkingDistance
    ensures CalculateRoutesResult(p, currentTime, dist) == Failure("No routes found")
  {
    FilterEmpty(p.stops, NearOf(p.fromSpot.lat, p.fromSpot.lon, dist, MaxWalkingDistance));
  }
}
