/** Shared helpers of the planner: nearest stops, "H:M" clock texts and minutes, where a bus is
    between two stops, fare-rule resolution and the total-time text. Distances are in km here. */
module RouteUtils {
  import opened Wrappers
  import opened Seqs
  import opened Sorting
  import opened Text
  import opened Gtfs
  import RouteTypes

  function SpotDistance(spot: RouteTypes.TouristSpot, s: Stop, dist: Distance): real
  {
    dist(spot.lat, spot.lon, s.lat, s.lon)
  }

  function WithinOf(spot: RouteTypes.TouristSpot, dist: Distance, maxDistance: real): Stop -> bool
  {
    (s: Stop) => SpotDistance(spot, s, dist) <= maxDistance
  }

  function NearerOf(spot: RouteTypes.TouristSpot, dist: Distance): (Stop, Stop) -> bool
  {
    (a: Stop, b: Stop) => SpotDistance(spot, a, dist) <= SpotDistance(spot, b, dist)
  }

  lemma NearerIsPreorder(spot: RouteTypes.TouristSpot, dist: Distance)
    ensures TotalPreorder(NearerOf(spot, dist))
  {
  }

  /** `findNearestStops`: the stops within `maxDistance` of the spot, nearest first, ties in table
      order. The source sorts (stop, distance) pairs and then drops the distances; the distance is
      a function of the stop, so sorting the stops by it gives the same sequence. */
  function FindNearestStops(spot: RouteTypes.TouristSpot, stops: seq<Stop>, dist: Distance, maxDistance: real := 1.0): seq<Stop>
  {
    SortBy(Filter(stops, WithinOf(spot, dist, maxDistance)), NearerOf(spot, dist))
  }

  /** The result holds exactly the stops within range, each as often as in the table, nearest first;
      its first stop is the first in table order among the nearest. */
  lemma FindNearestStopsSpec(spot: RouteTypes.TouristSpot, stops: seq<Stop>, dist: Distance, maxDistance: real)
    ensures var r := FindNearestStops(spot, stops, dist, maxDistance);
      && multiset(r) == multiset(Filter(stops, WithinOf(spot, dist, maxDistance)))
      && (forall s :: s in r <==> s in stops && SpotDistance(spot, s, dist) <= maxDistance)
      && (forall i, j :: 0 <= i < j < |r| ==> SpotDistance(spot, r[i], dist) <= SpotDistance(spot, r[j], dist))
      && (r != [] ==> exists k :: FirstLeastWhere(stops, WithinOf(spot, dist, maxDistance), NearerOf(spot, dist), k) && r[0] == stops[k])
  {
    SortFilterCommute(stops, NearerOf(spot, dist), WithinOf(spot, dist, maxDistance));
    SortedFilterHead(stops, NearerOf(spot, dist), WithinOf(spot, dist, maxDistance));
    var within := Filter(stops, WithinOf(spot, dist, maxDistance));
    var r := FindNearestStops(spot, stops, dist, maxDistance);
    SortPermutes(within, NearerOf(spot, dist));
    NearerIsPreorder(spot, dist);
    SortIsSorted(within, NearerOf(spot, dist));
    FilterMembers(stops, WithinOf(spot, dist, maxDistance));
    forall s ensures s in r <==> s in within {
      assert s in r <==> s in multiset(r);
      assert s in within <==> s in multiset(within);
    }
    forall i, j | 0 <= i < j < |r| ensures SpotDistance(spot, r[i], dist) <= SpotDistance(spot, r[j], dist) {
      assert NearerOf(spot, dist)(r[i], r[j]);
    }
  }

  /** `time.split(':').map(Number)` and `hours * 60 + minutes`. */
  function TimeToMinutes(time: string): nat
  {
    DecimalValue(FirstField(time)) * 60 + DecimalValue(SecondField(time))
  }

  /** "H:M", or "H:M:S" with the seconds ignored, is `H * 60 + M` minutes. */
  lemma TimeToMinutesOfClock(h: string, m: string, seconds: string)
    requires AllDigits(h) && AllDigits(m)
    requires seconds == [] || seconds[0] == ':'
    ensures TimeToMinutes(h + ":" + m + seconds) == DecimalValue(h) * 60 + DecimalValue(m)
  {
    DigitsHaveNoColon(h);
    DigitsHaveNoColon(m);
    ClockFields(h, m, seconds);
  }

  /** JavaScript's `%`: the remainder takes the sign of the dividend. */
  function JsRemainder(a: int, b: int): (r: int)
    requires b > 0
    ensures a >= 0 ==> 0 <= r < b
    ensures a < 0 ==> -b < r <= 0
  {
    if a >= 0 then a % b else -((-a) % b)
  }

  /** `minutesToTime`: `Math.floor(minutes / 60)` and `minutes % 60`, each padded to two digits. */
  function MinutesToTime(minutes: int): string
  {
    PadStart2(IntToText(minutes / 60)) + ":" + PadStart2(IntToText(JsRemainder(minutes, 60)))
  }

  lemma ShortText(n: nat)
    requires n < 100
    ensures |NatToText(n)| <= 2
  {
  }

  /** For a non-negative count of minutes the clock text reads back as the same count, and its
      minutes field is two digits below 60. */
  lemma MinutesToTimeRoundTrip(minutes: nat)
    ensures TimeToMinutes(MinutesToTime(minutes)) == minutes
    ensures |SecondField(MinutesToTime(minutes))| == 2
    ensures DecimalValue(SecondField(MinutesToTime(minutes))) < 60
  {
    var h, m := NatToText(minutes / 60), NatToText(minutes % 60);
    ShortText(minutes % 60);
    PadKeepsValue(h);
    PadKeepsValue(m);
    var ph, pm := PadStart2(h), PadStart2(m);
    assert MinutesToTime(minutes) == ph + ":" + pm + [];
    TimeToMinutesOfClock(ph, pm, []);
    DigitsHaveNoColon(ph);
    DigitsHaveNoColon(pm);
    ClockFields(ph, pm, []);
  }

  datatype BusPosition = BusPosition(isAtStop: bool, progress: real)

  /** `calculateBusPosition`: at the stop before departure and from arrival on; in between, the
      share of the ride already done. */
  function CalculateBusPosition(currentTime: string, departureTime: string, arrivalTime: string): (r: BusPosition)
    ensures var c, d, a := TimeToMinutes(currentTime), TimeToMinutes(departureTime), TimeToMinutes(arrivalTime);
      && (c <= d ==> r == BusPosition(true, 0.0))
      && (d < c && a <= c ==> r == BusPosition(true, 1.0))
      && (d < c < a ==> !r.isAtStop && 0.0 < r.progress < 1.0)
  {
    var current := TimeToMinutes(currentTime);
    var departure := TimeToMinutes(departureTime);
    var arrival := TimeToMinutes(arrivalTime);
    if current <= departure then BusPosition(true, 0.0)
    else if current >= arrival then BusPosition(true, 1.0)
    else
      var totalTime := arrival - departure;
      var elapsedTime := current - departure;
      ProperFraction(elapsedTime, totalTime);
      BusPosition(false, elapsedTime as real / totalTime as real)
  }

  lemma ProperFraction(part: int, whole: int)
    requires 0 < part < whole
    ensures 0.0 < part as real / whole as real < 1.0
  {
    var q := part as real / whole as real;
    assert q * whole as real == part as real;
  }

  /** An origin or destination field of a fare rule accepts a stop when it is absent, empty or equal. */
  predicate StopFieldAccepts(field: Option<string>, stopId: string)
  {
    field.None? || field.value == "" || field.value == stopId
  }

  predicate RuleMatches(rule: FareRule, routeId: string, fromId: string, toId: string)
  {
    && rule.routeId == routeId
    && StopFieldAccepts(rule.originId, fromId)
    && StopFieldAccepts(rule.destinationId, toId)
  }

  /** Position `k` holds the first attribute with the fare id. */
  predicate FirstAttributeAt(fareAttributes: seq<FareAttribute>, fareId: string, k: int)
  {
    0 <= k < |fareAttributes| && fareAttributes[k].fareId == fareId &&
    forall j :: 0 <= j < k ==> fareAttributes[j].fareId != fareId
  }

  /** Position `k` holds the first rule that matches the route and the two stops. */
  predicate FirstMatchingRuleAt(fareRules: seq<FareRule>, routeId: string, fromId: string, toId: string, k: int)
  {
    0 <= k < |fareRules| && RuleMatches(fareRules[k], routeId, fromId, toId) &&
    forall j :: 0 <= j < k ==> !RuleMatches(fareRules[j], routeId, fromId, toId)
  }

  /** The price of the first fare attribute with the fare id, or 0 when there is none. */
  function FarePrice(fareId: string, fareAttributes: seq<FareAttribute>): (r: real)
    ensures (forall i :: 0 <= i < |fareAttributes| ==> fareAttributes[i].fareId != fareId) ==> r == 0.0
    ensures forall k :: FirstAttributeAt(fareAttributes, fareId, k) ==> r == fareAttributes[k].price
  {
    var attribute := Find(fareAttributes, (a: FareAttribute) => a.fareId == fareId);
    if attribute.Some? then attribute.value.price else 0.0
  }

  /** `calculateFare`: the fare of the first rule that matches, read from the attributes. */
  function CalculateFare(route: Route, fromStop: Stop, toStop: Stop, fareRules: seq<FareRule>, fareAttributes: seq<FareAttribute>): real
  {
    var routeFareRules := Filter(fareRules, (rule: FareRule) => RuleMatches(rule, route.id, fromStop.id, toStop.id));
    if |routeFareRules| == 0 then 0.0
    else FarePrice(routeFareRules[0].fareId, fareAttributes)
  }

  /** The fare is that of the first rule for the route whose origin and destination accept the two
      stops (absent or empty fields accept any stop), and 0 when no rule matches. */
  lemma CalculateFareSpec(route: Route, fromStop: Stop, toStop: Stop, fareRules: seq<FareRule>, fareAttributes: seq<FareAttribute>)
    ensures (forall i :: 0 <= i < |fareRules| ==> !RuleMatches(fareRules[i], route.id, fromStop.id, toStop.id)) ==>
      CalculateFare(route, fromStop, toStop, fareRules, fareAttributes) == 0.0
    ensures forall k :: FirstMatchingRuleAt(fareRules, route.id, fromStop.id, toStop.id, k) ==>
      CalculateFare(route, fromStop, toStop, fareRules, fareAttributes) == FarePrice(fareRules[k].fareId, fareAttributes)
  {
    var matches := (rule: FareRule) => RuleMatches(rule, route.id, fromStop.id, toStop.id);
    FilterEmpty(fareRules, matches);
    if Filter(fareRules, matches) != [] {
      FilterHead(fareRules, matches);
      var first := FirstIndex(fareRules, matches);
      assert matches(fareRules[first]);
      assert forall k :: FirstMatchingRuleAt(fareRules, route.id, fromStop.id, toStop.id, k) ==> k == first;
    }
  }

  /** The text of a total of minutes: "{h}時間{m}分" from one hour on, else "{m}分", with
      `Math.floor` for the hours and JavaScript's `%` for the minutes. */
  function DurationText(totalMinutes: int): (r: string)
    ensures 0 <= totalMinutes < 60 ==> r == NatToText(totalMinutes) + "分"
    ensures totalMinutes >= 60 ==>
      r == NatToText(totalMinutes / 60) + "時間" + NatToText(totalMinutes % 60) + "分" && totalMinutes % 60 < 60
    ensures totalMinutes < 0 ==> r == IntToText(JsRemainder(totalMinutes, 60)) + "分"
  {
    var hours := totalMinutes / 60;
    var minutes := JsRemainder(totalMinutes, 60);
    if hours > 0 then IntToText(hours) + "時間" + IntToText(minutes) + "分"
    else IntToText(minutes) + "分"
  }

  /** `calculateTotalTime`: the duration text of last arrival minus first departure. */
  function CalculateTotalTime(firstDeparture: string, lastArrival: string): string
  {
    DurationText(TimeToMinutes(lastArrival) - TimeToMinutes(firstDeparture))
  }

  function IsHourMark(): char -> bool
  {
    (c: char) => c == '時'
  }

  /** Reads a duration text back: "{m}分" or "{h}時間{m}分" with decimal fields. */
  function ParseDuration(s: string): Option<nat>
  {
    if s == [] || s[|s| - 1] != '分' then None
    else
      var body := s[..|s| - 1];
      var k := FirstIndex(body, IsHourMark());
      if k == -1 then
        if body != [] && AllDigits(body) then Some(DecimalValue(body)) else None
      else if 0 < k && k + 2 < |body| && body[k + 1] == '間' && AllDigits(body[..k]) && AllDigits(body[k + 2..]) then
        Some(DecimalValue(body[..k]) * 60 + DecimalValue(body[k + 2..]))
      else None
  }

  lemma DigitsHaveNoHour(s: string)
    requires AllDigits(s)
    ensures forall j :: 0 <= j < |s| ==> s[j] != '時'
  {
  }

  /** A duration text whose first hour mark splits it into two digit fields reads as hours and minutes. */
  lemma ParseSplit(s: string, h: string, m: string)
    requires s != [] && s[|s| - 1] == '分'
    requires 0 < |h| && |h| + 3 < |s| && FirstIndex(s[..|s| - 1], IsHourMark()) == |h| && s[|h| + 1] == '間'
    requires s[..|h|] == h && s[|h| + 2..|s| - 1] == m && AllDigits(h) && AllDigits(m)
    ensures ParseDuration(s) == Some(DecimalValue(h) * 60 + DecimalValue(m))
  {
    var body := s[..|s| - 1];
    assert body[..|h|] == h && body[|h| + 1] == s[|h| + 1] && body[|h| + 2..] == m;
  }

  /** A text "{h}時間{m}分" with two non-empty digit fields reads back as h hours and m minutes. */
  lemma ParseHoursAndMinutes(h: string, m: string)
    requires h != [] && m != [] && AllDigits(h) && AllDigits(m)
    ensures ParseDuration(h + "時間" + m + "分") == Some(DecimalValue(h) * 60 + DecimalValue(m))
  {
    var s := h + "時間" + m + "分";
    var k := |h|;
    assert s[..k] == h && s[k + 1] == '間' && s[k + 2..|s| - 1] == m && s[|s| - 1] == '分';
    assert FirstIndex(s[..|s| - 1], IsHourMark()) == k by {
      var body := s[..|s| - 1];
      assert body == h + "時間" + m;
      DigitsHaveNoHour(h);
      forall j | 0 <= j < k ensures !IsHourMark()(body[j]) {
        assert body[j] == h[j];
      }
      assert body[k] == '時';
      FirstIndexAt(body, IsHourMark(), k);
    }
    ParseSplit(s, h, m);
  }

  /** A text "{m}分" with a non-empty digit field reads back as m minutes. */
  lemma ParseMinutes(m: string)
    requires m != [] && AllDigits(m)
    ensures ParseDuration(m + "分") == Some(DecimalValue(m))
  {
    var s := m + "分";
    assert s[..|s| - 1] == m;
    DigitsHaveNoHour(m);
  }

  /** A non-negative total reads back from its text. */
  lemma DurationRoundTrip(totalMinutes: nat)
    ensures ParseDuration(DurationText(totalMinutes)) == Some(totalMinutes)
  {
    if totalMinutes < 60 {
      ParseMinutes(NatToText(totalMinutes));
    } else {
      var hours, minutes := totalMinutes / 60, totalMinutes % 60;
      var h, m := NatToText(hours), NatToText(minutes);
      assert DurationText(totalMinutes) == h + "時間" + m + "分";
      assert DecimalValue(h) * 60 + DecimalValue(m) == totalMinutes by {
        assert DecimalValue(h) == hours && DecimalValue(m) == minutes;
      }
      ParseHoursAndMinutes(h, m);
    }
  }

  /** `createRouteStop`: the stop and its times copied, the bus at the stop or between stops. */
  function CreateRouteStop(stop: Stop, stopTime: StopTime, currentTime: string, occupancyLevel: int): (r: RouteTypes.RouteStop)
    ensures r.stop == stop && r.arrivalTime == stopTime.arrival && r.departureTime == stopTime.departure
    ensures r.occupancyLevel == occupancyLevel
    ensures !(r.isCurrentLocation && r.isBusAtStop)
    ensures var c, d, a := TimeToMinutes(currentTime), TimeToMinutes(stopTime.departure), TimeToMinutes(stopTime.arrival);
      (r.isCurrentLocation <==> d < c < a) && (r.isBusAtStop <==> !(d < c < a))
  {
    var position := CalculateBusPosition(currentTime, stopTime.departure, stopTime.arrival);
    RouteTypes.RouteStop(
      stop,
      stopTime.arrival,
      stopTime.departure,
      !position.isAtStop && position.progress > 0.0 && position.progress < 1.0,
      position.isAtStop,
      occupancyLevel)
  }

  /** `isWithinServiceHours`: both ends of the service window are included. */
  function IsWithinServiceHours(currentTime: string, serviceStartTime: string, serviceEndTime: string): bool
  {
    var current := TimeToMinutes(currentTime);
    var start := TimeToMinutes(serviceStartTime);
    var end := TimeToMinutes(serviceEndTime);
    current >= start && current <= end
  }

  /** On clock texts written by `minutesToTime`, the check is the closed window of minutes, both
      ends included; so a window that starts after it ends admits no time. */
  lemma ServiceHoursOfClocks(current: nat, start: nat, end: nat)
    ensures IsWithinServiceHours(MinutesToTime(current), MinutesToTime(start), MinutesToTime(end)) <==> start <= current <= end
  {
    MinutesToTimeRoundTrip(current);
    MinutesToTimeRoundTrip(start);
    MinutesToTimeRoundTrip(end);
  }
}
