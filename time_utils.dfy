/** `timeUtils` in `timeUtils.ts`: clock texts to and from a point of today, the next departure after
    now, and the minutes between two clock texts. A `Date` of today is represented by the number of
    minutes since today's local midnight; seconds and milliseconds are always zero here. */
module TimeUtils {
  import opened Wrappers
  import opened Seqs
  import opened Sorting
  import opened Text
  import opened Gtfs
  import RouteUtils
  import RouteCalculator

  /** `parseTime`: today's date with the hours and minutes of `timeStr` set, so `h * 60 + m`
      minutes after midnight; further fields are ignored. */
  function ParseTime(timeStr: string): (date: nat)
    ensures date == DecimalValue(FirstField(timeStr)) * 60 + DecimalValue(SecondField(timeStr))
  {
    RouteUtils.TimeToMinutes(timeStr)
  }

  /** On a clock text "H:M", or "H:M:S", with digit fields the point of today is H * 60 + M minutes
      after midnight; seconds are dropped. */
  lemma ParseTimeOfClock(h: string, m: string, seconds: string)
    requires AllDigits(h) && AllDigits(m)
    requires seconds == [] || seconds[0] == ':'
    ensures ParseTime(h + ":" + m + seconds) == DecimalValue(h) * 60 + DecimalValue(m)
  {
    RouteUtils.TimeToMinutesOfClock(h, m, seconds);
  }

  /** `formatTime`: the hours of the day and the minutes of the hour, each padded to two digits. */
  function FormatTime(date: nat): string
  {
    var hours := (date / 60) % 24;
    var minutes := date % 60;
    PadStart2(NatToText(hours)) + ":" + PadStart2(NatToText(minutes))
  }

  /** The text is "HH:MM" with two digits on each side, and reads back as the time of day. */
  lemma FormatTimeSpec(date: nat)
    ensures |FormatTime(date)| == 5 && FormatTime(date)[2] == ':'
    ensures AllDigits(FormatTime(date)[..2]) && AllDigits(FormatTime(date)[3..])
    ensures ParseTime(FormatTime(date)) == date % (24 * 60)
  {
    var hours, minutes := (date / 60) % 24, date % 60;
    RouteUtils.ShortText(hours);
    RouteUtils.ShortText(minutes);
    PadKeepsValue(NatToText(hours));
    PadKeepsValue(NatToText(minutes));
    var h, m := PadStart2(NatToText(hours)), PadStart2(NatToText(minutes));
    assert FormatTime(date) == h + ":" + m + [];
    DigitsHaveNoColon(h);
    DigitsHaveNoColon(m);
    ClockFields(h, m, []);
    assert FormatTime(date)[..2] == h && FormatTime(date)[3..] == m;
    DayMinutes(date);
  }

  lemma DayMinutes(date: nat)
    ensures ((date / 60) % 24) * 60 + date % 60 == date % (24 * 60)
  {
    var q := date / 60;
    assert date == q * 60 + date % 60;
    assert q == (q / 24) * 24 + q % 24;
    assert date == (q / 24) * 1440 + ((q % 24) * 60 + date % 60);
  }

  /** `st.departure_time > currentTimeString`. */
  function DepartsAfter(currentTimeString: string): StopTime -> bool
  {
    (st: StopTime) => LexLess(currentTimeString, st.departure)
  }

  /** The comparator `a.departure_time.localeCompare(b.departure_time)`, read as "not after". */
  function ByDeparture(): (StopTime, StopTime) -> bool
  {
    (a: StopTime, b: StopTime) => LexLe(a.departure, b.departure)
  }

  lemma ByDepartureIsPreorder()
    ensures TotalPreorder(ByDeparture())
  {
    forall a: StopTime, b: StopTime ensures ByDeparture()(a, b) || ByDeparture()(b, a) {
      LexLePreorder(a.departure, b.departure, b.departure);
    }
    forall a: StopTime, b: StopTime, c: StopTime
      ensures ByDeparture()(a, b) && ByDeparture()(b, c) ==> ByDeparture()(a, c)
    {
      LexLePreorder(a.departure, b.departure, c.departure);
    }
  }

  /** `getNextDepartureTime`: the stop-times departing after the current "HH:MM", sorted by departure
      text; the first of them, or nothing. */
  function GetNextDepartureTime(stopTimes: seq<StopTime>, currentTime: nat): Option<StopTime>
  {
    var currentTimeString := FormatTime(currentTime);
    var later := SortBy(Filter(stopTimes, DepartsAfter(currentTimeString)), ByDeparture());
    if |later| == 0 then None else Some(later[0])
  }

  /** Nothing exactly when no departure text comes after the current one; otherwise the least later
      departure in string order, the first in table order among equal ones. */
  lemma NextDepartureSpec(stopTimes: seq<StopTime>, currentTime: nat)
    ensures var now := FormatTime(currentTime);
      GetNextDepartureTime(stopTimes, currentTime).None? <==>
        forall i :: 0 <= i < |stopTimes| ==> !LexLess(now, stopTimes[i].departure)
    ensures var now := FormatTime(currentTime);
      GetNextDepartureTime(stopTimes, currentTime).Some? ==>
        exists k :: FirstLeastWhere(stopTimes, DepartsAfter(now), ByDeparture(), k)
          && GetNextDepartureTime(stopTimes, currentTime) == Some(stopTimes[k])
  {
    var now := FormatTime(currentTime);
    ByDepartureIsPreorder();
    SortFilterCommute(stopTimes, ByDeparture(), DepartsAfter(now));
    SortedFilterHead(stopTimes, ByDeparture(), DepartsAfter(now));
  }

  /** `calculateTimeDifference`: the absolute difference of the two parsed times, in minutes. */
  function CalculateTimeDifference(time1: string, time2: string): nat
  {
    var t1, t2 := ParseTime(time1), ParseTime(time2);
    if t2 >= t1 then t2 - t1 else t1 - t2
  }

  /** Symmetric, zero for equal texts, and the same number the stop-by-stop planner computes. */
  lemma TimeDifferenceSpec(time1: string, time2: string)
    ensures CalculateTimeDifference(time1, time2) == CalculateTimeDifference(time2, time1)
    ensures CalculateTimeDifference(time1, time1) == 0
    ensures CalculateTimeDifference(time1, time2) == RouteCalculator.CalculateTimeDifference(time1, time2)
  {
  }
}
