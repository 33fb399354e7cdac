/** `crowdingUtils` (in `crowdingUtils.ts`, and verbatim again in `timeUtils.ts`): whether a reported
    occupancy status counts as crowded, and its short label. Statuses are the enum names as text. */
module CrowdingUtils {
  import opened Gtfs

  const CrowdedStatuses: seq<string> := ["STANDING_ROOM_ONLY", "CRUSHED_STANDING_ROOM_ONLY", "FULL"]

  /** `isCrowded`: the status is one of the three crowded ones. */
  function IsCrowded(occupancyStatus: string): bool
  {
    occupancyStatus in CrowdedStatuses
  }

  /** Crowded means standing room or worse, short of a bus that takes nobody: exactly the statuses
      numbered 3 to 5; NOT_ACCEPTING_PASSENGERS is not crowded, nor is any text that names no status. */
  lemma IsCrowdedBand(status: OccupancyStatus, text: string)
    ensures IsCrowded(status.Name()) <==> 3 <= status.Number() <= 5
    ensures !IsCrowded(NotAcceptingPassengers.Name())
    ensures IsCrowded(text) ==> StatusOfName(text).Some? && 3 <= StatusOfName(text).value.Number() <= 5
  {
  }

  /** The label of each of the seven statuses. */
  const CrowdingLevels: map<string, string> := map[
    "EMPTY" := "空いています",
    "MANY_SEATS_AVAILABLE" := "座席に余裕あり",
    "FEW_SEATS_AVAILABLE" := "座席わずか",
    "STANDING_ROOM_ONLY" := "立ち席のみ",
    "CRUSHED_STANDING_ROOM_ONLY" := "混雑",
    "FULL" := "満員",
    "NOT_ACCEPTING_PASSENGERS" := "乗車不可"
  ]

  /** `getCrowdingLevel`: the tabulated label, or "不明" (unknown) when the lookup gives nothing. */
  function GetCrowdingLevel(occupancyStatus: string): string
  {
    var level := if occupancyStatus in CrowdingLevels then CrowdingLevels[occupancyStatus] else "";
    if level != "" then level else "不明"
  }

  /** The seven statuses from EMPTY to NOT_ACCEPTING_PASSENGERS get seven different labels, none of
      them "不明"; the two later statuses and any text naming no status get "不明". */
  lemma CrowdingLevelSpec(a: OccupancyStatus, b: OccupancyStatus, text: string)
    ensures GetCrowdingLevel(a.Name()) == "不明" <==> a.Number() >= 7
    ensures a.Number() <= 6 && b.Number() <= 6 ==> (GetCrowdingLevel(a.Name()) == GetCrowdingLevel(b.Name()) <==> a == b)
    ensures StatusOfName(text).None? ==> GetCrowdingLevel(text) == "不明"
  {
  }
}
