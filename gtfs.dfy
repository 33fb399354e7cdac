/** In-memory rows of the GTFS Schedule tables (`stops`, `routes`, `trips`, `stop_times`,
    `fare_rules`, `fare_attributes`) and the vehicles of a GTFS Realtime feed.
    Every identifier is a string; coordinates and prices are reals. */
module Gtfs {
  import opened Wrappers

  datatype Stop = Stop(id: string, name: string, lat: real, lon: real)

  datatype Route = Route(id: string, agencyId: string, shortName: string, longName: string, routeType: int)

  datatype Trip = Trip(routeId: string, serviceId: string, tripId: string, headsign: string, directionId: string)

  /** One row of `stop_times`; the times are the "H:M:S" texts of the feed. */
  datatype StopTime = StopTime(tripId: string, arrival: string, departure: string, stopId: string, sequence: int)

  /** One row of `fare_rules`; an absent origin or destination is a wildcard. */
  datatype FareRule = FareRule(fareId: string, routeId: string, originId: Option<string>, destinationId: Option<string>)

  datatype FareAttribute = FareAttribute(fareId: string, price: real, currencyType: string, paymentMethod: int, transfers: int)

  /** `VehiclePosition.OccupancyStatus` of GTFS Realtime. */
  datatype OccupancyStatus =
    | Empty
    | ManySeatsAvailable
    | FewSeatsAvailable
    | StandingRoomOnly
    | CrushedStandingRoomOnly
    | Full
    | NotAcceptingPassengers
    | NoDataAvailable
    | NotBoardable
  {
    /** The enum value's name, as a feed decoded with enums as strings carries it. */
    function Name(): string
    {
      match this
      case Empty => "EMPTY"
      case ManySeatsAvailable => "MANY_SEATS_AVAILABLE"
      case FewSeatsAvailable => "FEW_SEATS_AVAILABLE"
      case StandingRoomOnly => "STANDING_ROOM_ONLY"
      case CrushedStandingRoomOnly => "CRUSHED_STANDING_ROOM_ONLY"
      case Full => "FULL"
      case NotAcceptingPassengers => "NOT_ACCEPTING_PASSENGERS"
      case NoDataAvailable => "NO_DATA_AVAILABLE"
      case NotBoardable => "NOT_BOARDABLE"
    }

    /** The enum value's number in the GTFS Realtime protocol. */
    function Number(): nat
    {
      match this
      case Empty => 0
      case ManySeatsAvailable => 1
      case FewSeatsAvailable => 2
      case StandingRoomOnly => 3
      case CrushedStandingRoomOnly => 4
      case Full => 5
      case NotAcceptingPassengers => 6
      case NoDataAvailable => 7
      case NotBoardable => 8
    }
  }

  /** The status a feed text names, if it names one. */
  function StatusOfName(name: string): (r: Option<OccupancyStatus>)
    ensures r.Some? ==> r.value.Name() == name
  {
    if name == "EMPTY" then Some(Empty)
    else if name == "MANY_SEATS_AVAILABLE" then Some(ManySeatsAvailable)
    else if name == "FEW_SEATS_AVAILABLE" then Some(FewSeatsAvailable)
    else if name == "STANDING_ROOM_ONLY" then Some(StandingRoomOnly)
    else if name == "CRUSHED_STANDING_ROOM_ONLY" then Some(CrushedStandingRoomOnly)
    else if name == "FULL" then Some(Full)
    else if name == "NOT_ACCEPTING_PASSENGERS" then Some(NotAcceptingPassengers)
    else if name == "NO_DATA_AVAILABLE" then Some(NoDataAvailable)
    else if name == "NOT_BOARDABLE" then Some(NotBoardable)
    else None
  }

  /** Every status is named by exactly its own name. */
  lemma NameRoundTrip(status: OccupancyStatus)
    ensures StatusOfName(status.Name()) == Some(status)
  {
  }

  /** A vehicle of the realtime feed, with each field the planner code reads under the spelling it
      reads it: `snakeTripId` is `trip.trip_id` (the declared spelling), `tripId` is `trip.tripId`,
      `routeId` is `trip.routeId` and `occupancyStatus` is `occupancyStatus`. Each is absent unless
      the feed object carries that key; nothing ties one spelling's value to another's. */
  datatype Vehicle = Vehicle(
    id: string,
    snakeTripId: Option<string>,
    tripId: Option<string>,
    routeId: Option<string>,
    occupancyStatus: Option<OccupancyStatus>)

  /** Great-circle distance between two (latitude, longitude) points; each caller fixes the unit. */
  type Distance = (real, real, real, real) -> real
}
