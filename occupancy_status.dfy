/** `occupancyStatus.ts`: the text and the colour shown for a reported occupancy status. */
module OccupancyStatusView {
  import opened Wrappers
  import opened Gtfs

  const UnknownText := "混雑状況不明"

  /** `getOccupancyStatusText`: one text per status from EMPTY to NOT_ACCEPTING_PASSENGERS;
      NO_DATA_AVAILABLE, UNKNOWN_CONGESTION_LEVEL and any other text get "混雑状況不明" (unknown). */
  function GetOccupancyStatusText(status: string): string
  {
    if status == "EMPTY" then "空席あり（ガラガラ）"
    else if status == "MANY_SEATS_AVAILABLE" then "空席多数"
    else if status == "FEW_SEATS_AVAILABLE" then "残り座席わずか"
    else if status == "STANDING_ROOM_ONLY" then "立ち乗りのみ"
    else if status == "CRUSHED_STANDING_ROOM_ONLY" then "混雑（立ち乗り）"
    else if status == "FULL" then "満員"
    else if status == "NOT_ACCEPTING_PASSENGERS" then "乗車不可"
    else UnknownText
  }

  /** The unknown text exactly for the statuses numbered 7 and up, and for every text that names no
      status. */
  lemma StatusTextUnknown(status: OccupancyStatus, text: string)
    ensures GetOccupancyStatusText(status.Name()) == UnknownText <==> status.Number() >= 7
    ensures StatusOfName(text).None? ==> GetOccupancyStatusText(text) == UnknownText
    ensures GetOccupancyStatusText("UNKNOWN_CONGESTION_LEVEL") == UnknownText
  {
  }

  /** The status a shown text stands for; the unknown text and any other text stand for none. */
  function StatusOfText(text: string): Option<OccupancyStatus>
  {
    if text == "空席あり（ガラガラ）" then Some(Empty)
    else if text == "空席多数" then Some(ManySeatsAvailable)
    else if text == "残り座席わずか" then Some(FewSeatsAvailable)
    else if text == "立ち乗りのみ" then Some(StandingRoomOnly)
    else if text == "混雑（立ち乗り）" then Some(CrushedStandingRoomOnly)
    else if text == "満員" then Some(Full)
    else if text == "乗車不可" then Some(NotAcceptingPassengers)
    else None
  }

  /** The text of each status numbered 0 to 6 tells that status back. */
  lemma StatusTextRoundTrip(status: OccupancyStatus)
    requires status.Number() <= 6
    ensures StatusOfText(GetOccupancyStatusText(status.Name())) == Some(status)
  {
    match status
    case Empty =>
    case ManySeatsAvailable =>
    case FewSeatsAvailable =>
    case StandingRoomOnly =>
    case CrushedStandingRoomOnly =>
    case Full =>
    case NotAcceptingPassengers =>
  }

  /** Seven different texts for the seven statuses numbered 0 to 6. */
  lemma StatusTextsDistinct(a: OccupancyStatus, b: OccupancyStatus)
    requires a.Number() <= 6 && b.Number() <= 6 && a != b
    ensures GetOccupancyStatusText(a.Name()) != GetOccupancyStatusText(b.Name())
  {
    StatusTextRoundTrip(a);
    StatusTextRoundTrip(b);
  }

  /** `getOccupancyStatusColor`: green for seats, yellow for few seats, orange for standing, red for
      full or not boarding, gray otherwise. */
  function GetOccupancyStatusColor(status: string): string
  {
    if status == "EMPTY" || status == "MANY_SEATS_AVAILABLE" then "text-green-600"
    else if status == "FEW_SEATS_AVAILABLE" then "text-yellow-600"
    else if status == "STANDING_ROOM_ONLY" || status == "CRUSHED_STANDING_ROOM_ONLY" then "text-orange-600"
    else if status == "FULL" || status == "NOT_ACCEPTING_PASSENGERS" then "text-red-600"
    else "text-gray-600"
  }

  /** The colour bands by status number. */
  function BandColor(n: nat): string
  {
    if n <= 1 then "text-green-600"
    else if n == 2 then "text-yellow-600"
    else if n <= 4 then "text-orange-600"
    else if n <= 6 then "text-red-600"
    else "text-gray-600"
  }

  /** A status's colour is the colour of its number's band, and a text naming no status is gray. */
  lemma StatusColorSpec(status: OccupancyStatus, text: string)
    ensures GetOccupancyStatusColor(status.Name()) == BandColor(status.Number())
    ensures StatusOfName(text).None? ==> GetOccupancyStatusColor(text) == "text-gray-600"
  {
  }

  /** A status shown gray is shown with the unknown text, and the other way round. */
  lemma GrayIsUnknown(text: string)
    ensures GetOccupancyStatusColor(text) == "text-gray-600" <==> GetOccupancyStatusText(text) == UnknownText
  {
  }
}
