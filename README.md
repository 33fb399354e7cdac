# Bus route planning of commitkyoto, in Dafny

commitkyoto is a web app for sightseeing in Kyoto by city bus. A user picks two sights, and the app
plans a bus trip between them. It reads GTFS Schedule tables (stops, routes, trips, stop-times,
fare rules, fare attributes) and the vehicles of a GTFS Realtime feed with their occupancy. This
project models the planning core of the app:

- the route-calculation hook (`useRouteCalculation`). It finds the stops nearest to each sight.
  It then plans the main route: the first route that calls at both stops, the next trip from the
  boarding stop, the slice of that trip between the two stops, stop records, fare, total time and
  occupancy. It also finds the alternatives: the next run of the same line when the bus is
  crowded, and routes on other lines that need a walk.
- the older stop-by-stop planner (`calculateRoutes`). It builds four-step options (start, walk,
  bus, walk) for every vehicle whose `trip.routeId` names a route and whose `trip.trip_id` trip
  calls at a stop near each end. It returns the fastest option and the first comfortable one.
  It throws "No routes found" when there is none.
- the shared helpers: clock texts and minutes, where a bus is between two stops, fare-rule
  lookup, and the total-time text.
- the occupancy policy and its texts and colours, the crowding labels and the route score.
- the small lookups that join the GTFS tables.
- the stop locators, the route result panel and the photo slider of a sight.

Each source file is one module. Pure code is modelled as functions with lemmas about them. Loops
are methods with invariants, each proved equal to the function that specifies it. The in-place
sort of `selectFastestRoute` works on an `array`. The React state of the hook and of the photo
slider are classes whose methods update a field. `Seqs`, `Sorting`, `Text` and `Wrappers` hold
the generic pieces:

- JavaScript's `filter`, `find`, `findIndex` and `map`;
- its stable `sort`, with membership, permutation, sortedness and "first least" lemmas;
- decimal texts and `padStart`;
- `Option` and `Result`.

Some things are parameters rather than modelled:

- Distances come in as a function parameter `dist`, because the haversine formula is
  floating-point. Each module keeps the unit its file uses: kilometres in `routeUtils.ts` and the
  stop locators, metres in `routeCalculator.ts` and `routeResult.tsx`.
- The clock is read as an hour and a minute passed as parameters.

The code reads a realtime vehicle's keys under mixed spellings. The trip id is `trip.trip_id` in
`routeCalculator.ts` and the hook, but `trip.tripId` in `getRouteToStop.ts`. The route id is
`trip.routeId` and the status is `occupancyStatus`, although `gtfsTypes.ts` declares `route_id`
and `occupancy_status`. `Gtfs.Vehicle` keeps one optional field per spelling read, and each
member reads the spelling its source line reads. Lemmas state what follows:

- `RouteCalculator.NoMatchedVehicleThrows`: a feed whose vehicles lack `trip.routeId` or
  `trip.trip_id` makes the planner throw.
- `RouteCalculation.PlanWithoutFeedTripIds`: a feed without `trip.trip_id` leaves every main
  route EMPTY, so the hook never offers the next trip.

## Model

| member | source | states |
|---|---|---|
| Gtfs.StatusOfName | src/types/gtfsTypes.ts:32 | a feed text is read as a status only when it is that status's enum name |
| Gtfs.NameRoundTrip | src/types/gtfsTypes.ts:32 | every occupancy status is read back from its own name |
| RouteTypes.LevelOf | src/types/routeTypes.ts:13-21 | a number names an occupancy level exactly when it lies in 0..6 |
| RouteTypes.OrdinalRoundTrip | src/types/routeTypes.ts:13-21 | the level ordinals are 0..6, one per level, and `LevelOf` inverts them |
| RouteTypes.OrdinalsFollowDeclaration | src/types/routeTypes.ts:13-21 | declaration order of the levels is ordinal order, EMPTY = 0 up to NOT_ACCEPTING = 6 |
| RouteUtils.FindNearestStops | src/utils/routeUtils.ts:25-43 | `findNearestStops`, as a filter by distance and a stable sort; its properties are in `FindNearestStopsSpec` |
| RouteUtils.FindNearestStopsSpec | src/utils/routeUtils.ts:25-43 | the nearest stops are exactly the table's stops within range, each as often as in the table, sorted nearest first; the first is the earliest in table order among the nearest in range, as the stable sort keeps ties in table order |
| RouteUtils.TimeToMinutes | src/utils/routeUtils.ts:46-49 | `timeToMinutes`; read on clock texts by `TimeToMinutesOfClock` |
| RouteUtils.MinutesToTime | src/utils/routeUtils.ts:52-56 | `minutesToTime`; inverted by `timeToMinutes` in `MinutesToTimeRoundTrip` |
| RouteUtils.TimeToMinutesOfClock | src/utils/routeUtils.ts:46-49 | "H:M" and "H:M:S" with digit fields read as H * 60 + M minutes; seconds are ignored |
| RouteUtils.JsRemainder | src/utils/routeUtils.ts:54 | JavaScript `%`: the remainder lies in [0, b) for a non-negative dividend and in (-b, 0] for a negative one |
| RouteUtils.MinutesToTimeRoundTrip | src/utils/routeUtils.ts:46-56 | a non-negative count of minutes written by `minutesToTime` reads back as the same count, with a two-digit minutes field below 60 |
| RouteUtils.CalculateBusPosition | src/utils/routeUtils.ts:59-78 | at the stop with progress 0 up to departure, at the stop with progress 1 from arrival on, otherwise between stops with progress strictly between 0 and 1 |
| RouteUtils.FarePrice | src/utils/routeUtils.ts:113-118 | the price of the first fare attribute with the fare id, 0 when there is none |
| RouteUtils.CalculateFare | src/utils/routeUtils.ts:81-119 | `calculateFare`; its cases are in `CalculateFareSpec` |
| RouteUtils.CalculateFareSpec | src/utils/routeUtils.ts:81-119 | 0 when no rule matches the route and stops (absent or empty origin and destination match any stop); otherwise the price of the first matching rule's fare |
| RouteUtils.CalculateTotalTime | src/utils/routeUtils.ts:122-137 | `calculateTotalTime`; its text is described by `DurationText` and read back in `DurationRoundTrip` |
| RouteUtils.DurationText | src/utils/routeUtils.ts:122-137 | "{m}分" below an hour, "{h}時間{m}分" from one hour on with floor hours and the remainder minutes, and the JavaScript remainder alone for a negative total |
| RouteUtils.ParseMinutes | src/utils/routeUtils.ts:136 | a "{m}分" text with a digit field reads back as m minutes |
| RouteUtils.ParseHoursAndMinutes | src/utils/routeUtils.ts:134 | a "{h}時間{m}分" text with two digit fields reads back as h * 60 + m minutes |
| RouteUtils.DurationRoundTrip | src/utils/routeUtils.ts:122-137 | every non-negative total of minutes reads back from its duration text |
| RouteUtils.CreateRouteStop | src/utils/routeUtils.ts:140-160 | the stop, its times and the occupancy are copied; the bus is the current location exactly when the time lies strictly between departure and arrival, and at the stop exactly otherwise, never both |
| RouteUtils.IsWithinServiceHours | src/utils/routeUtils.ts:163-172 | `isWithinServiceHours`; the window it checks is stated in `ServiceHoursOfClocks` |
| RouteUtils.ServiceHoursOfClocks | src/utils/routeUtils.ts:163-172 | on clock texts the service-hours check is the closed window start <= now <= end |
| FareCalculator.CalculateFare | src/utils/fareCalculator.ts:4-14 | `calculateFare` of the route-only rule table; its cases are in `CalculateFareSpec` |
| FareCalculator.CalculateFareSpec | src/utils/fareCalculator.ts:4-14 | 0 when no rule has the route id; otherwise the first such rule decides, costing the price of its first fare attribute, or 0 when it has none |
| FareCalculator.FareIgnoresStops | src/utils/fareCalculator.ts:9 | the fare depends only on the route and fare ids of the rules, not on their stops |
| FareCalculator.AgreesWithWildcardRules | src/utils/fareCalculator.ts:4-14 | when every rule is a wildcard for both stops, this fare equals the fare of `routeUtils.calculateFare` |
| OccupancyUtils.GetOccupancyColor | src/utils/occupancyUtils.ts:6-25 | `getOccupancyColor`; its colours are compared in `OccupancyColors` |
| OccupancyUtils.OccupancyColors | src/utils/occupancyUtils.ts:6-25 | the seven levels get seven different colours, and a number outside them gets the colour of EMPTY |
| OccupancyUtils.ShouldSuggestAlternative | src/utils/occupancyUtils.ts:28-35 | an alternative is suggested exactly when the occupancy is strictly above the threshold that applies with or without a suitcase |
| OccupancyUtils.SuggestionIsStrictAndMonotone | src/utils/occupancyUtils.ts:28-35 | never suggested at the threshold itself; once suggested, suggested at every higher occupancy |
| OccupancyUtils.DefaultThresholds | src/types/routeTypes.ts:86-89 | the default thresholds are 1 with a suitcase and 3 without, so a suitcase never makes the planner less picky |
| OccupancyUtils.GetOccupancyDescription | src/utils/occupancyUtils.ts:38-57 | the unknown-state sentence exactly for numbers that name no level |
| OccupancyUtils.GetOccupancyErrorMessage | src/utils/occupancyUtils.ts:60-64 | `getOccupancyErrorMessage`; its two branches are told apart in `ErrorMessageTellsTrunk` |
| OccupancyUtils.ErrorMessageTellsTrunk | src/utils/occupancyUtils.ts:60-64 | travellers with and without a suitcase get different advice |
| OccupancyStatusView.GetOccupancyStatusText | src/utils/occupancyStatus.ts:2-23 | `getOccupancyStatusText`; its texts are characterised by the three lemmas below |
| OccupancyStatusView.StatusTextUnknown | src/utils/occupancyStatus.ts:2-23 | the unknown text exactly for statuses numbered 7 and up, for UNKNOWN_CONGESTION_LEVEL and for any text naming no status |
| OccupancyStatusView.StatusTextRoundTrip | src/utils/occupancyStatus.ts:2-23 | the text of each status from EMPTY to NOT_ACCEPTING_PASSENGERS tells that status back |
| OccupancyStatusView.StatusTextsDistinct | src/utils/occupancyStatus.ts:2-23 | the seven named statuses get seven different texts |
| OccupancyStatusView.GetOccupancyStatusColor | src/utils/occupancyStatus.ts:25-41 | `getOccupancyStatusColor`; its bands are in `StatusColorSpec` |
| OccupancyStatusView.StatusColorSpec | src/utils/occupancyStatus.ts:25-41 | a status's colour is its number's band (green 0-1, yellow 2, orange 3-4, red 5-6, gray otherwise); unnamed texts are gray |
| OccupancyStatusView.GrayIsUnknown | src/utils/occupancyStatus.ts:2-41 | a status is shown gray exactly when it is shown with the unknown text |
| CrowdingUtils.IsCrowded | src/utils/crowdingUtils.ts:4-11 | `isCrowded`; characterised by `IsCrowdedBand` |
| CrowdingUtils.IsCrowdedBand | src/utils/crowdingUtils.ts:4-11 | crowded exactly for the statuses numbered 3 to 5; NOT_ACCEPTING_PASSENGERS and unnamed texts are not crowded |
| CrowdingUtils.GetCrowdingLevel | src/utils/crowdingUtils.ts:14-25 | `getCrowdingLevel`; characterised by `CrowdingLevelSpec` |
| CrowdingUtils.CrowdingLevelSpec | src/utils/crowdingUtils.ts:14-25 | "不明" exactly for the statuses numbered 7 and up and for unnamed texts; the other seven get seven different labels |
| RouteOptimizer.StatusPenalty | src/utils/routeOptimizer.ts:30-37 | a status penalty never exceeds 15 |
| RouteOptimizer.StepPenalty | src/utils/routeOptimizer.ts:29-39 | a step never adds more than 15 |
| RouteOptimizer.CrowdingPenalty | src/utils/routeOptimizer.ts:24-44 | the penalty the loop computes, as a sum over the bus steps; bounded in `CrowdingPenaltySpec` |
| RouteOptimizer.CalculateCrowdingPenalty | src/utils/routeOptimizer.ts:24-44 | the loop over the bus steps returns the sum of their penalties |
| RouteOptimizer.PenaltySumConcat | src/utils/routeOptimizer.ts:28-41 | penalties add up over consecutive pieces of a ride |
| RouteOptimizer.PenaltySumBound | src/utils/routeOptimizer.ts:28-41 | the penalty of a ride is at most 15 per step |
| RouteOptimizer.CrowdingPenaltySpec | src/utils/routeOptimizer.ts:24-44 | at most 15 per bus step; walking steps and bus steps without a status add nothing wherever they stand |
| RouteOptimizer.QuietAddsNothing | src/utils/routeOptimizer.ts:25-29 | steps that are not buses, or report no status, add no penalty |
| RouteOptimizer.StatusPenaltyTable | src/utils/routeOptimizer.ts:30-37 | by status number the penalties are 0, 0, 2, 5, 10, 15, never falling up to FULL, and 0 after it |
| RouteOptimizer.Score | src/utils/routeOptimizer.ts:7-21 | the score `evaluateRoute` computes; bounded in `ScoreSpec` |
| RouteOptimizer.EvaluateRoute | src/utils/routeOptimizer.ts:7-21 | the score is minus the time, minus a hundredth of the fare, minus the crowding penalty |
| RouteOptimizer.ScoreSpec | src/utils/routeOptimizer.ts:7-21 | the score lies between the time-and-fare score and that minus 15 per bus step; with equal time and fare, the less crowded route scores at least as high |
| TimeUtils.ParseTime | src/utils/timeUtils.ts:7-12 | the minute of the day is hours * 60 + minutes of the first two fields |
| TimeUtils.ParseTimeOfClock | src/utils/timeUtils.ts:7-12 | a clock text "H:M" or "H:M:S" with digit fields is H * 60 + M minutes after midnight; seconds are dropped |
| TimeUtils.FormatTime | src/utils/timeUtils.ts:15-17 | `formatTime`; its shape and read-back are in `FormatTimeSpec` |
| TimeUtils.FormatTimeSpec | src/utils/timeUtils.ts:15-17 | "HH:MM" with two digits on each side, reading back as the time of day |
| TimeUtils.DayMinutes | src/utils/timeUtils.ts:15-17 | the hour of the day and the minute of the hour make up the minute of the day |
| TimeUtils.ByDepartureIsPreorder | src/utils/timeUtils.ts:24 | comparing departure texts is a total preorder |
| TimeUtils.GetNextDepartureTime | src/utils/timeUtils.ts:20-25 | `getNextDepartureTime`; characterised by `NextDepartureSpec` |
| TimeUtils.NextDepartureSpec | src/utils/timeUtils.ts:20-25 | nothing exactly when no departure text comes after now; otherwise the least later departure in string order, first in table order among equal ones |
| TimeUtils.CalculateTimeDifference | src/utils/timeUtils.ts:28-32 | `calculateTimeDifference` of `timeUtils`; related to the planner's by `TimeDifferenceSpec` |
| TimeUtils.TimeDifferenceSpec | src/utils/timeUtils.ts:28-32 | symmetric, 0 for a time and itself, and equal to the stop-by-stop planner's difference |
| MinimumDistanceStop.ByDistanceIsPreorder | src/utils/StartToStopMinimumDistanceStop.ts:25 | the distance comparator is a total preorder |
| MinimumDistanceStop.StartToStopMinimumDistanceStop | src/utils/StartToStopMinimumDistanceStop.ts:9-28 | `StartToStopMinimumDistanceStop`; characterised by `NearestStopSpec` |
| MinimumDistanceStop.NearestStopSpec | src/utils/StartToStopMinimumDistanceStop.ts:9-28 | nothing exactly for an empty table; otherwise a stop at least as near as every other, the earliest of the nearest |
| MinimumDistanceStop.BusStopsToTo | src/utils/StartToStopMinimumDistanceStop.ts:64-89 | `BusStopsToTo`; characterised by `BusStopsToToIsFilter` and `BusStopsToToSpec` |
| MinimumDistanceStop.BusStopsToToIsFilter | src/utils/StartToStopMinimumDistanceStop.ts:64-89 | the map, filter and map pipeline is a filter of the table by distance |
| MinimumDistanceStop.BusStopsToToSpec | src/utils/StartToStopMinimumDistanceStop.ts:64-89 | empty for an empty table; otherwise exactly the stops within the radius (1 by default), in table order |
| MinimumDistanceStop.BusStopsToToMonotone | src/utils/StartToStopMinimumDistanceStop.ts:84-86 | a larger radius keeps every stop of a smaller one, and narrowing its result gives the smaller one |
| K5IsBusToTo.BusStopsToTo | src/utils/K5IsBusToTo.ts:12-38 | never more stops than the table |
| K5IsBusToTo.BusStopsToToSpec | src/utils/K5IsBusToTo.ts:12-38 | empty for an empty table; exactly the stops within the radius by the K5 distance, in table order; monotone in the radius; radius 1 by default |
| IsStopsInTo.IsStopsInTo | src/utils/IsStopsInTo.ts:8-14 | no name exactly when no destination stop is among the route's stops |
| IsStopsInTo.IsStopsInToFirst | src/utils/IsStopsInTo.ts:12-13 | the name is that of the first destination stop the route calls at |
| GetRouteToStop.GetRouteFromStop | src/utils/getRouteToStop.ts:17-36 | `getRouteFromStop`; characterised by `GetRouteFromStopSpec` |
| GetRouteToStop.GetRouteFromStopSpec | src/utils/getRouteToStop.ts:17-36 | in table order, exactly the routes that own a trip calling at the stop; none when no stop-time mentions the stop |
| GetRouteToStop.GetStopFromRoute | src/utils/getRouteToStop.ts:46-60 | `getStopFromRoute`; characterised by `GetStopFromRouteSpec` |
| GetRouteToStop.GetStopFromRouteSpec | src/utils/getRouteToStop.ts:46-60 | in table order, exactly the stops some trip of the route calls at |
| GetRouteToStop.GetRoutenameFromRouteId | src/utils/getRouteToStop.ts:81-87 | the empty text when no route has the id |
| GetRouteToStop.GetRoutenameFirst | src/utils/getRouteToStop.ts:85-86 | the long name of the first route with the id |
| GetRouteToStop.GetStopTimeFromRouteAndStop | src/utils/getRouteToStop.ts:88-93 | empty texts when there is no vehicle list |
| GetRouteToStop.StopTimeFromRouteAndStopSpec | src/utils/getRouteToStop.ts:88-106 | with vehicles, the texts of the first stop-time at the stop on a vehicle's trip; empty texts when there is none |
| GetRouteToStop.GetStopIdFromStopName | src/utils/getRouteToStop.ts:107-113 | the empty text when no stop has the name |
| GetRouteToStop.GetStopIdFirst | src/utils/getRouteToStop.ts:111-112 | the id of the first stop with the name |
| RouteResult.FindNearestStop | src/components/layouts/routeResult.tsx:26-39 | `findNearestStop`, a left reduce; characterised by `ReduceNearestSpec` |
| RouteResult.ReduceNearestSpec | src/components/layouts/routeResult.tsx:26-39 | nothing exactly when no stop is within the radius; otherwise the nearest stop in range with its distance, the earliest on ties since only a strictly nearer stop replaces the accumulator |
| RouteResult.ReduceStep | src/components/layouts/routeResult.tsx:34-37 | one reducer step keeps the nearest-in-range property from the stops before to the stops including the next |
| RouteResult.FindBestRoute | src/components/layouts/routeResult.tsx:42-73 | `findBestRoute`; characterised by `FindBestRouteSpec` |
| RouteResult.FindBestRouteSpec | src/components/layouts/routeResult.tsx:42-73 | nothing exactly when a sight has no stop in range or there is no route; otherwise the first route, the buses on it in feed order, and the two nearest stops |
| PhotoSlider.Previous | src/components/PhotoSlider.tsx:13-17 | the update of `goToPrevious`; shown cyclic in `MovesAreCyclic` |
| PhotoSlider.Next | src/components/PhotoSlider.tsx:19-23 | the update of `goToNext`; shown cyclic in `MovesAreCyclic` |
| PhotoSlider.MovesAreCyclic | src/components/PhotoSlider.tsx:13-23 | on a non-empty list both moves are steps around a cycle (mod length), stay in range and undo each other |
| PhotoSlider.NextTimesClimbs | src/components/PhotoSlider.tsx:19-23 | presses of "next" that do not reach the last photo move one place each |
| PhotoSlider.NextTimesAdd | src/components/PhotoSlider.tsx:19-23 | pressing a times and then b times is pressing a + b times |
| PhotoSlider.NextTimesWraps | src/components/PhotoSlider.tsx:19-23 | as many presses as there are photos come back to the same photo |
| PhotoSlider.PhotoSliderState.constructor | src/components/PhotoSlider.tsx:11 | the slider starts at the first photo |
| PhotoSlider.PhotoSliderState.GoToPrevious | src/components/PhotoSlider.tsx:13-17 | the index becomes the previous one, from the first to the last, and stays valid |
| PhotoSlider.PhotoSliderState.GoToNext | src/components/PhotoSlider.tsx:19-23 | the index becomes the next one, from the last to the first, and stays valid |
| PhotoSlider.PhotoSliderState.Render | src/components/PhotoSlider.tsx:25-37 | nothing exactly for an empty list; otherwise the photo at the current index, the alt text "{place} - Photo {n}" and the counter "{n} / {length}" with n = index + 1 between 1 and the length |
| PhotoSlider.CounterTellsPosition | src/components/PhotoSlider.tsx:37 | different positions in the same list show different counters |
| RouteCalculator.FindNearbyStops | src/utils/routeCalculator.ts:34-48 | `findNearbyStops`; characterised by `FindNearbyStopsSpec` |
| RouteCalculator.FindNearbyStopsSpec | src/utils/routeCalculator.ts:34-48 | exactly the stops within the radius, in table order |
| RouteCalculator.CalculateTimeDifference | src/utils/routeCalculator.ts:51-55 | the absolute difference of the two minute counts, 0 exactly for equal times |
| RouteCalculator.TimeDifferenceSymmetric | src/utils/routeCalculator.ts:51-55 | the difference does not depend on the order of the two times |
| RouteCalculator.Ceil | src/utils/routeCalculator.ts:112 | `Math.ceil`: the least integer not below x |
| RouteCalculator.AvailableBuses | src/utils/routeCalculator.ts:83-94 | the `availableBuses` filter over the vehicles' `trip.routeId` and `trip.trip_id`; characterised by `AvailableSpec` |
| RouteCalculator.AvailableSpec | src/utils/routeCalculator.ts:83-94 | a vehicle qualifies exactly when a route has its `trip.routeId` as id and a stop-time of its `trip.trip_id` is at each of the two stops |
| RouteCalculator.TripStopIds | src/utils/routeCalculator.ts:87-90 | a stop id is among the trip's stop ids exactly when a stop-time of the trip is at that stop |
| RouteCalculator.CalculateRoutesFromStop | src/utils/routeCalculator.ts:58-191 | the two loops collect the options of every end stop and every vehicle that passes the `trip.routeId`/`trip.trip_id` filter, in order |
| RouteCalculator.PushOptionsForBuses | src/utils/routeCalculator.ts:98-187 | the vehicle loop appends the options of the vehicles in order |
| RouteCalculator.OptionFor | src/utils/routeCalculator.ts:99-186 | the option one vehicle yields from its `trip.routeId` route and its `trip.trip_id` stop-times; its shape is in `OptionForShape` |
| RouteCalculator.NeedsRouteAndFeedTripId | src/utils/routeCalculator.ts:83-123 | a vehicle without `trip.routeId` or without `trip.trip_id` passes no filter and yields no option |
| RouteCalculator.NoMatchedVehicleNoOptions | src/utils/routeCalculator.ts:82-187 | when no vehicle carries both keys, no end stop gives an option |
| RouteCalculator.NoMatchedVehicleNoRoutes | src/utils/routeCalculator.ts:229-245 | when no vehicle carries both keys, no boarding stop gives an option |
| RouteCalculator.NoMatchedVehicleThrows | src/utils/routeCalculator.ts:222-251 | when no vehicle carries both `trip.routeId` and `trip.trip_id`, `calculateRoutes` throws "No routes found" |
| RouteCalculator.BuildOption | src/utils/routeCalculator.ts:103-185 | the option built from the route and the two stop-times; computed step by step by `BuildSteps` |
| RouteCalculator.RoutesFromStop | src/utils/routeCalculator.ts:58-191 | what `calculateRoutesFromStop` returns; computed by the method of that name, shaped by `RoutesFromStopShape` |
| RouteCalculator.OptionForBus | src/utils/routeCalculator.ts:99-186 | no option without the `trip.routeId` route or either stop-time of the `trip.trip_id` trip, otherwise the option built from them |
| RouteCalculator.BuildSteps | src/utils/routeCalculator.ts:103-185 | the total built walk, ride, walk and the four steps pushed form the planner's option |
| RouteCalculator.OptionForShape | src/utils/routeCalculator.ts:102-185 | an option is start, walk, bus, walk; its total is the sum of the durations; it has the route's fare and the status or 'UNKNOWN'; its first walk is measured from the boarding stop to the destination sight, as the code does |
| RouteCalculator.OptionsForBusesShape | src/utils/routeCalculator.ts:98-187 | every option for a list of vehicles has that shape |
| RouteCalculator.OptionsForEndsShape | src/utils/routeCalculator.ts:82-188 | every option for a list of end stops has that shape |
| RouteCalculator.RoutesFromStopShape | src/utils/routeCalculator.ts:58-191 | every option from a boarding stop has that shape and walks from that stop |
| RouteCalculator.AvailableYieldsOption | src/utils/routeCalculator.ts:83-123 | a vehicle that passes the filter always yields an option |
| RouteCalculator.TripInOrderCalls | src/utils/routeCalculator.ts:116-121 | a stop the trip calls at is found in the trip's sorted stop-times |
| RouteCalculator.OnePerBus | src/utils/routeCalculator.ts:98-187 | each qualifying vehicle contributes exactly one option |
| RouteCalculator.OptionsPerEndStop | src/utils/routeCalculator.ts:82-187 | for one end stop there are as many options as qualifying vehicles |
| RouteCalculator.SelectFastestRoute | src/utils/routeCalculator.ts:196-200 | the array is sorted in place by total time (stable), and its new first element is returned; nothing for an empty array |
| RouteCalculator.Fastest | src/utils/routeCalculator.ts:196-200 | the option `selectFastestRoute` returns; characterised by `FastestSpec` |
| RouteCalculator.FastestSpec | src/utils/routeCalculator.ts:196-200 | nothing exactly for no options; otherwise an option of least total time, the earliest such one |
| RouteCalculator.HasRoomSpec | src/utils/routeCalculator.ts:216-217 | exactly EMPTY and MANY_SEATS_AVAILABLE pass the comfort test |
| RouteCalculator.IsComfortable | src/utils/routeCalculator.ts:203-219 | the test of `findComfortableAlternative`; characterised by `ComfortableSpec` |
| RouteCalculator.FindComfortableAlternative | src/utils/routeCalculator.ts:203-219 | `findComfortableAlternative`; when it finds nothing, `NoComfortableLeft` holds |
| RouteCalculator.ComfortableSpec | src/utils/routeCalculator.ts:203-219 | comfortable exactly when the first bus step has details and the first vehicle on its route is EMPTY or MANY_SEATS_AVAILABLE |
| RouteCalculator.NoComfortableLeft | src/utils/routeCalculator.ts:203-219 | when the search finds nothing, no option is comfortable |
| RouteCalculator.RouteClockReadsBack | src/utils/routeCalculator.ts:224-225 | the clock text reads back as hours * 60 + minutes |
| RouteCalculator.AllRoutes | src/utils/routeCalculator.ts:228-245 | the options of all boarding stops; computed by `CollectRoutes`, shaped by `AllRoutesShape` |
| RouteCalculator.CollectRoutes | src/utils/routeCalculator.ts:228-245 | the loop appends the options of each boarding stop in turn |
| RouteCalculator.AllRoutesShape | src/utils/routeCalculator.ts:228-245 | every collected option has the four-step shape and walks from one of the boarding stops |
| RouteCalculator.CalculateRoutesResult | src/utils/routeCalculator.ts:222-260 | what `calculateRoutes` returns or throws; characterised by `CalculateRoutesSpec` |
| RouteCalculator.SelectRoutes | src/utils/routeCalculator.ts:247-259 | the fastest and comfortable choice; characterised by `SelectRoutesSpec` |
| RouteCalculator.CalculateRoutes | src/utils/routeCalculator.ts:222-260 | the method computes the specified result for the clock read, which throws exactly when no option is found (`CalculateRoutesSpec`), as it does for a feed without both `trip.routeId` and `trip.trip_id` (`NoMatchedVehicleThrows`) |
| RouteCalculator.SelectRoutesSpec | src/utils/routeCalculator.ts:247-259 | "No routes found" exactly for no options; otherwise the fastest is an option of least total time; a comfortable option passes the comfort test, and there is none only when no option passes it |
| RouteCalculator.CalculateRoutesSpec | src/utils/routeCalculator.ts:222-260 | throws exactly when there is no option; otherwise the fastest is a four-step option from a stop near the starting sight |
| RouteCalculator.NoStartStopNoRoutes | src/utils/routeCalculator.ts:228-251 | with no stop in range of the starting sight, the planner throws "No routes found" |
| RouteCalculation.OrdersArePreorders | src/hooks/useRouteCalculation.ts:238-261 | the arrival-minute and stop-sequence comparators are total preorders |
| RouteCalculation.LegBetween | src/hooks/useRouteCalculation.ts:263-276 | a leg's slice is never empty |
| RouteCalculation.SelectLeg | src/hooks/useRouteCalculation.ts:215-276 | a selected leg's slice is never empty |
| RouteCalculation.SelectedRoute | src/hooks/useRouteCalculation.ts:215-233 | the first route serving both stops; characterised by `SelectLegRoute` |
| RouteCalculation.CalculateMainRoute | src/hooks/useRouteCalculation.ts:186-326 | `calculateMainRoute`: the selected leg and its route info; see `SelectLegSlice`, `RouteInfoOfSpec`, `MainRouteOnRoute` |
| RouteCalculation.SelectLegRoute | src/hooks/useRouteCalculation.ts:215-233 | no route when none calls at both stops; otherwise the first route in table order that does |
| RouteCalculation.NextTripId | src/hooks/useRouteCalculation.ts:243-256 | the trip of the next departure; characterised by `NextTripIdSpec` |
| RouteCalculation.NextTripIdSpec | src/hooks/useRouteCalculation.ts:236-256 | no trip exactly when nothing departs from the boarding stop at or after now; otherwise the trip of the earliest such departure by arrival minute, first in table order among equals |
| RouteCalculation.TripStops | src/hooks/useRouteCalculation.ts:258-261 | the trip's stop-times in stop-sequence order; characterised by `TripStopsSpec` |
| RouteCalculation.TripStopsSpec | src/hooks/useRouteCalculation.ts:258-261 | the trip's stop-times are exactly the route's rows of that trip, each as often as in the table, in stop-sequence order: a stop-time is among them if and only if it is in the table, of that trip and of that route |
| RouteCalculation.LegBetweenEnds | src/hooks/useRouteCalculation.ts:263-276 | no leg exactly when the trip misses a stop; otherwise the slice runs from the first call at one stop to the first call at the other, whichever comes first |
| RouteCalculation.LegBetweenOrder | src/hooks/useRouteCalculation.ts:274-276 | the slice takes only the trip's stop-times and keeps their order |
| RouteCalculation.SelectLegSlice | src/hooks/useRouteCalculation.ts:215-276 | the leg holds all the stop-times of the chosen trip on the chosen route, in stop-sequence order, and its slice is the complete inclusive stretch between the first calls at the two stops; every row of it is a table row of that trip |
| RouteCalculation.LookupStop | src/hooks/useRouteCalculation.ts:287-289 | the stop map lookup; characterised by `LookupStopSpec` |
| RouteCalculation.LookupStopSpec | src/hooks/useRouteCalculation.ts:287-289 | the stop map finds nothing exactly when no stop has the id, and otherwise the last stop with it |
| RouteCalculation.ResolveStops | src/hooks/useRouteCalculation.ts:286-292 | the stop records of a slice; characterised by `ResolveStopsSpec` |
| RouteCalculation.ResolveStopsSpec | src/hooks/useRouteCalculation.ts:287-292 | resolution fails exactly when some stop id is missing; otherwise one record per stop-time, in order |
| RouteCalculation.VehicleOccupancy | src/hooks/useRouteCalculation.ts:278-284 | the status number of the first vehicle whose `trip.trip_id` is the trip, 0 (EMPTY) when no vehicle has it or that vehicle reports nothing |
| RouteCalculation.MainRouteWithoutFeedTripIds | src/hooks/useRouteCalculation.ts:278-320 | with no vehicle carrying `trip.trip_id`, a main route is EMPTY |
| RouteCalculation.PlanWithoutFeedTripIds | src/hooks/useRouteCalculation.ts:278-365 | with no vehicle carrying `trip.trip_id`, the main route is EMPTY and every alternative is a less-walking one, never the next trip |
| RouteCalculation.RouteInfoOf | src/hooks/useRouteCalculation.ts:278-321 | the route info of a leg; characterised by `RouteInfoOfSpec` |
| RouteCalculation.RouteInfoOfSpec | src/hooks/useRouteCalculation.ts:286-325 | no route exactly when a stop id is missing; otherwise the id, route, stop records, occupancy, fare, departure, arrival and total time of the slice, with no walking legs |
| RouteCalculation.MainRouteOnRoute | src/hooks/useRouteCalculation.ts:186-326 | a main route runs on one of the routes given and has no walking legs |
| RouteCalculation.MainRouteDeparture | src/hooks/useRouteCalculation.ts:303-315 | a main route leaves at the departure time of one of the stop-times given |
| RouteCalculation.FindNextTrip | src/hooks/useRouteCalculation.ts:432-443 | `findNextTrip`; its departures are later by `LaterDeparture` |
| RouteCalculation.LaterDeparture | src/hooks/useRouteCalculation.ts:432-443 | a route leaving at a stop-time `findNextTrip` keeps leaves strictly after the main route |
| RouteCalculation.ThresholdIsDefaultPolicy | src/hooks/useRouteCalculation.ts:357-359 | the hook's threshold test is `shouldSuggestAlternative` with the default thresholds |
| RouteCalculation.NextTripAlternative | src/hooks/useRouteCalculation.ts:357-391 | the next-trip alternative; characterised by `NextTripAlternativeSpec` |
| RouteCalculation.NextTripAlternativeSpec | src/hooks/useRouteCalculation.ts:361-391 | at most one next-trip alternative, only over the threshold, on the main line, without walking, leaving strictly later |
| RouteCalculation.FirstPairFrom | src/hooks/useRouteCalculation.ts:470-505 | the inner search of `calculateRouteWithWalking`; characterised by `FirstPairFromSpec` |
| RouteCalculation.FirstPair | src/hooks/useRouteCalculation.ts:469-508 | the two nested searches; characterised by `FirstPairSpec` |
| RouteCalculation.FirstPairFromSpec | src/hooks/useRouteCalculation.ts:470-504 | nothing exactly when no alighting stop is served; otherwise the first one served, with its route |
| RouteCalculation.FirstPairSpec | src/hooks/useRouteCalculation.ts:469-508 | nothing exactly when no stop pair is served; otherwise the first pair, boarding stop major |
| RouteCalculation.FirstRouteFrom | src/hooks/useRouteCalculation.ts:470-505 | the inner loop returns the first alighting stop served, with its route |
| RouteCalculation.CalculateRouteWithWalking | src/hooks/useRouteCalculation.ts:446-509 | the two loops return the specified walking route |
| RouteCalculation.RouteWithWalking | src/hooks/useRouteCalculation.ts:446-509 | what `calculateRouteWithWalking` returns; characterised by `RouteWithWalkingSpec` |
| RouteCalculation.RouteWithWalkingSpec | src/hooks/useRouteCalculation.ts:446-509 | nothing exactly when no pair has a route on the line; otherwise the route of the first pair with the walks from the nearest boarding stop and to the nearest alighting stop |
| RouteCalculation.RouteWithWalkingOnRoute | src/hooks/useRouteCalculation.ts:469-503 | a walking route runs on the line tried and carries walking legs |
| RouteCalculation.PlanOnRoute | src/hooks/useRouteCalculation.ts:471-481 | planning on a single line gives a route on that line |
| RouteCalculation.LineAlternatives | src/hooks/useRouteCalculation.ts:393-422 | the other-line alternatives; characterised by `LineAlternativesSpec` |
| RouteCalculation.LineAlternativesSpec | src/hooks/useRouteCalculation.ts:393-422 | at most one alternative per candidate line, each on its line, within the threshold, with walking legs; and every candidate line whose walking route is within the threshold is offered with that route |
| RouteCalculation.LineOffer | src/hooks/useRouteCalculation.ts:401-422 | one candidate line's contribution; characterised by `LineOfferSpec` |
| RouteCalculation.LineOfferSpec | src/hooks/useRouteCalculation.ts:401-422 | a line offers at most its own walking route, within the threshold, for less walking, and offers it whenever it is within the threshold |
| RouteCalculation.LineAlternativesSound | src/hooks/useRouteCalculation.ts:393-422 | at most one alternative per candidate, each a candidate's walking route within the threshold |
| RouteCalculation.LineAlternativesComplete | src/hooks/useRouteCalculation.ts:393-422 | every candidate's offer is among the alternatives |
| RouteCalculation.JustifiedParts | src/hooks/useRouteCalculation.ts:354-424 | the next-trip and other-line alternatives together are all justified |
| RouteCalculation.CalculateNextTripAlternative | src/hooks/useRouteCalculation.ts:357-391 | the first half of the alternatives search returns the specified next-trip alternative |
| RouteCalculation.CalculateLineAlternatives | src/hooks/useRouteCalculation.ts:393-422 | the loop over the other lines returns the specified alternatives |
| RouteCalculation.CalculateAlternativeRoutes | src/hooks/useRouteCalculation.ts:327-429 | none without a main route; otherwise the next-trip alternative followed by the other lines' |
| RouteCalculation.AlternativeRoutes | src/hooks/useRouteCalculation.ts:327-429 | what `calculateAlternativeRoutes` returns; characterised by `AlternativeRoutesSpec` |
| RouteCalculation.AlternativeRoutesSpec | src/hooks/useRouteCalculation.ts:327-429 | no alternatives without a main route; every alternative is the later run of a crowded main line or another line within the threshold; every other line of the table with a walking route within the threshold is offered, crowded main bus or not |
| RouteCalculation.OtherLinesWhenNotCrowded | src/hooks/useRouteCalculation.ts:361-422 | the other-line search sits outside the crowding test: with the main bus within the threshold, the alternatives are exactly the other lines' offers |
| RouteCalculation.CurrentClock | src/hooks/useRouteCalculation.ts:119-122 | the hook's clock text; read back by `CurrentClockReadsBack` |
| RouteCalculation.CurrentClockReadsBack | src/hooks/useRouteCalculation.ts:119-122 | the hook's clock text reads back as the minute of the day |
| RouteCalculation.PlanTrip | src/hooks/useRouteCalculation.ts:100-162 | the body of the effect computes the specified result |
| RouteCalculation.PlanResult | src/hooks/useRouteCalculation.ts:100-162 | the result planned from the nearest stops; characterised by `PlanResultSpec` |
| RouteCalculation.PlanResultSpec | src/hooks/useRouteCalculation.ts:108-162 | the error is set exactly when there is no main route, and then there are no alternatives; no nearby stop means no main route; a main route is on a route of the table and its alternatives are justified |
| RouteCalculation.NoNearbyStop | src/hooks/useRouteCalculation.ts:100-101 | with no stop within 1 km of a sight there are no nearest stops |
| RouteCalculation.EffectResult | src/hooks/useRouteCalculation.ts:69-181 | the result the effect stores; characterised by `EffectResultSpec` |
| RouteCalculation.EffectResultSpec | src/hooks/useRouteCalculation.ts:69-181 | without its inputs the effect keeps the last result; with them the properties of the planned result hold, and no stop near a sight means no main route |
| RouteCalculation.RouteCalculationHook.constructor | src/hooks/useRouteCalculation.ts:64-67 | the state starts with no main route, no alternatives and no error |
| RouteCalculation.RouteCalculationHook.Recalculate | src/hooks/useRouteCalculation.ts:69-181 | the effect stores the specified result, or keeps the old one without inputs |

## Left out

- Distances: `calculateDistance` (haversine) and the `K5distance` module are not part of this model. Every caller receives the distance as a function parameter, in the unit its file uses.
- The clock: `new Date()` is replaced by an hour and a minute given as parameters. A `Date` in `timeUtils.ts` is the number of minutes since local midnight, so time zones and daylight saving are not modelled.
- `Number` on text: the model has no `NaN`. A clock field reads as its decimal value, and a non-digit character reads as 0. The contracts about clock texts are stated for digit fields only.
- Floating point: coordinates, prices, progress and distances are `real`, without rounding. `Math.ceil` of a walking time is exact.
- JavaScript comparison: `localeCompare` and `<` on strings are code-point lexicographic order. Locale collation is not modelled.
- Sorting: `Array.prototype.sort` is a stable insertion sort. Only the in-place sort of `selectFastestRoute` writes back into an `array`. The other sorts work on copies, as in the source.
- Identifiers: number and string ids compared with `==` or `===` are all strings. Equal texts are equal ids.
- Occupancy: the hook reads `Number(occupancyStatus)` as the enum number of the status. `routeCalculator.ts` and the texts read the status as its enum name. A feed that sends names to the hook, where `Number` yields `NaN`, is not modelled.
- IsStopsInTo.IsStopsInTo: `includes` compares stop objects by identity, and the model compares them by value. Two equal stop records that are distinct objects match in the model but not in the source.
- Record lookups: keys inherited from `Object.prototype` are not modelled.
- Side effects: `console.log` and `console.warn`, React rendering and dependency tracking, and the `vehicles` argument that `routeOptimizer` ignores are left out.
- RouteCalculation.RouteCalculationHook.Recalculate: the `catch` of the effect is not modelled separately. Nothing modelled after the nearest stops throws: `calculateMainRoute` and `calculateAlternativeRoutes` catch their own errors, and the model turns these into no route or no alternatives.
- PhotoSlider.PhotoSliderState: the `photos` prop is fixed for the life of the slider. A parent that shrinks the list under a later index is not modelled.
- Copies: `timeUtils.ts` repeats `crowdingUtils` and `routeOptimizer` word for word. They are modelled once. `K5IsBusToTo.BusStopsToTo` is the function of `StartToStopMinimumDistanceStop.ts` with the K5 distance.
- Out of scope: the data-fetching hooks and API routes, the map, the sidebar, the route cards and the other presentation components. The stop-time row type that `gtfsTypes.ts` does not declare is modelled from its fields as used.
