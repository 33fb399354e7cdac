/** The planner's own records: occupancy levels and thresholds, the stops and routes it returns,
    alternative routes, errors, and the options built by the older stop-by-stop planner. */
module RouteTypes {
  import opened Wrappers
  import Gtfs

  /** A sight the user travels from or to; `lat`, `lon` are the two entries of its `position`. */
  datatype TouristSpot = TouristSpot(id: string, name: string, lat: real, lon: real)

  /** The occupancy scale of the planner, from the emptiest to a bus that takes nobody. */
  datatype OccupancyLevel =
    | Empty
    | ManySeatsAvailable
    | FewSeatsAvailable
    | StandingRoomOnly
    | CrushedStandingRoom
    | Full
    | NotAccepting
  {
    function Ordinal(): nat
    {
      match this
      case Empty => 0
      case ManySeatsAvailable => 1
      case FewSeatsAvailable => 2
      case StandingRoomOnly => 3
      case CrushedStandingRoom => 4
      case Full => 5
      case NotAccepting => 6
    }
  }

  /** The level with the given ordinal, if there is one. */
  function LevelOf(n: int): (r: Option<OccupancyLevel>)
    ensures r.Some? <==> 0 <= n <= 6
  {
    if n == 0 then Some(Empty)
    else if n == 1 then Some(ManySeatsAvailable)
    else if n == 2 then Some(FewSeatsAvailable)
    else if n == 3 then Some(StandingRoomOnly)
    else if n == 4 then Some(CrushedStandingRoom)
    else if n == 5 then Some(Full)
    else if n == 6 then Some(NotAccepting)
    else None
  }

  /** The ordinals are exactly 0..6, one level each: `LevelOf` inverts `Ordinal`. */
  lemma OrdinalRoundTrip(level: OccupancyLevel, n: int)
    ensures level.Ordinal() <= 6
    ensures LevelOf(level.Ordinal()) == Some(level)
    ensures LevelOf(n).Some? ==> LevelOf(n).value.Ordinal() == n
  {
  }

  /** Declaration order is ordinal order. */
  const DeclarationOrder: seq<OccupancyLevel> :=
    [Empty, ManySeatsAvailable, FewSeatsAvailable, StandingRoomOnly, CrushedStandingRoom, Full, NotAccepting]

  lemma OrdinalsFollowDeclaration()
    ensures forall i :: 0 <= i < |DeclarationOrder| ==> DeclarationOrder[i].Ordinal() == i
    ensures forall i, j :: 0 <= i < j < |DeclarationOrder| ==> DeclarationOrder[i].Ordinal() < DeclarationOrder[j].Ordinal()
  {
  }

  datatype OccupancyThreshold = OccupancyThreshold(withTrunk: OccupancyLevel, withoutTrunk: OccupancyLevel)

  /** With a suitcase ("trunk") only a bus with many seats left is acceptable; without one, standing room is. */
  const DefaultOccupancyThresholds := OccupancyThreshold(ManySeatsAvailable, StandingRoomOnly)

  /** One stop of a planned ride; `occupancyLevel` is the number the vehicle reported. */
  datatype RouteStop = RouteStop(
    stop: Gtfs.Stop,
    arrivalTime: string,
    departureTime: string,
    isCurrentLocation: bool,
    isBusAtStop: bool,
    occupancyLevel: int)

  datatype StopLabel = StopLabel(name: string, time: string)

  /** Walking legs of a route that boards and alights away from the nearest stops; both optional. */
  datatype WalkingDistance = WalkingDistance(toFirstStop: Option<real>, fromLastStop: Option<real>)

  datatype RouteInfo = RouteInfo(
    id: string,
    route: Gtfs.Route,
    stops: seq<RouteStop>,
    fareAmount: real,
    totalTime: string,
    departureStop: StopLabel,
    arrivalStop: StopLabel,
    walkingDistance: Option<WalkingDistance>,
    occupancyLevel: int)

  datatype ReasonType = Occupancy | Faster | LessWalking

  datatype AlternativeReason = AlternativeReason(kind: ReasonType, description: string)

  /** A route info together with the reason it is offered instead of the main route. */
  datatype AlternativeRoute = AlternativeRoute(info: RouteInfo, reason: AlternativeReason)

  datatype RouteError = FetchError | CalculationError | NoService | RealtimeError

  datatype RouteCalculationResult = RouteCalculationResult(
    mainRoute: Option<RouteInfo>,
    alternativeRoutes: seq<AlternativeRoute>,
    error: Option<RouteError>)

  /** The steps and options of the stop-by-stop planner. */
  datatype StepKind = Start | Walk | Bus

  datatype BusDetails = BusDetails(routeId: string, routeName: string, occupancyStatus: string)

  datatype RouteStep = RouteStep(
    kind: StepKind,
    time: string,
    location: string,
    duration: int,
    distance: Option<real>,
    busDetails: Option<BusDetails>)

  datatype RouteOption = RouteOption(
    kind: string,
    totalTime: int,
    totalFare: real,
    steps: seq<RouteStep>,
    crowdLevel: Option<string>)
}
