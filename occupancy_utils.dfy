/** Occupancy policy of the planner: the colour and the description of a level, whether a level calls
    for an alternative, and the message that goes with that advice. A level is the number the
    vehicle reported, so it may lie outside the seven levels. */
module OccupancyUtils {
  import opened RouteTypes

  /** `getOccupancyColor`: one colour per level; any other number gets the colour of EMPTY. */
  function GetOccupancyColor(level: int): string
  {
    if level == Empty.Ordinal() then "#4ade80"
    else if level == ManySeatsAvailable.Ordinal() then "#84cc16"
    else if level == FewSeatsAvailable.Ordinal() then "#facc15"
    else if level == StandingRoomOnly.Ordinal() then "#f97316"
    else if level == CrushedStandingRoom.Ordinal() then "#ef4444"
    else if level == Full.Ordinal() then "#dc2626"
    else if level == NotAccepting.Ordinal() then "#a855f7"
    else "#4ade80"
  }

  /** The seven levels get seven different colours, and a number outside them the colour of EMPTY. */
  lemma OccupancyColors(a: OccupancyLevel, b: OccupancyLevel, level: int)
    ensures GetOccupancyColor(a.Ordinal()) == GetOccupancyColor(b.Ordinal()) <==> a == b
    ensures LevelOf(level).None? ==> GetOccupancyColor(level) == GetOccupancyColor(Empty.Ordinal())
  {
  }

  /** The threshold that applies to a traveller with or without a suitcase. */
  function ActiveThreshold(hasTrunk: bool, threshold: OccupancyThreshold): OccupancyLevel
  {
    if hasTrunk then threshold.withTrunk else threshold.withoutTrunk
  }

  /** `shouldSuggestAlternative`: the occupancy is strictly above the threshold that applies. */
  function ShouldSuggestAlternative(currentOccupancy: int, hasTrunk: bool, threshold: OccupancyThreshold): (r: bool)
    ensures r <==> currentOccupancy > ActiveThreshold(hasTrunk, threshold).Ordinal()
  {
    var relevantThreshold := if hasTrunk then threshold.withTrunk else threshold.withoutTrunk;
    currentOccupancy > relevantThreshold.Ordinal()
  }

  /** Never at the threshold itself, and once suggested, suggested at every higher level. */
  lemma SuggestionIsStrictAndMonotone(low: int, high: int, hasTrunk: bool, threshold: OccupancyThreshold)
    ensures !ShouldSuggestAlternative(ActiveThreshold(hasTrunk, threshold).Ordinal(), hasTrunk, threshold)
    ensures low <= high && ShouldSuggestAlternative(low, hasTrunk, threshold) ==> ShouldSuggestAlternative(high, hasTrunk, threshold)
  {
  }

  /** The default thresholds: a suitcase makes the traveller pickier. */
  lemma DefaultThresholds(occupancy: int)
    ensures DefaultOccupancyThresholds.withTrunk.Ordinal() == 1 && DefaultOccupancyThresholds.withoutTrunk.Ordinal() == 3
    ensures ShouldSuggestAlternative(occupancy, false, DefaultOccupancyThresholds) ==> ShouldSuggestAlternative(occupancy, true, DefaultOccupancyThresholds)
  {
  }

  /** `getOccupancyDescription`: a sentence per level, "混雑状況不明" (state unknown) for any other number. */
  function GetOccupancyDescription(level: int): (r: string)
    ensures LevelOf(level).None? <==> r == "混雑状況不明"
  {
    if level == Empty.Ordinal() then "ほとんど空いています"
    else if level == ManySeatsAvailable.Ordinal() then "座席に余裕があります"
    else if level == FewSeatsAvailable.Ordinal() then "座席が少し残っています"
    else if level == StandingRoomOnly.Ordinal() then "立ち乗りのみ可能です"
    else if level == CrushedStandingRoom.Ordinal() then "混雑しています"
    else if level == Full.Ordinal() then "非常に混雑しています"
    else if level == NotAccepting.Ordinal() then "乗車できない可能性があります"
    else "混雑状況不明"
  }

  /** `getOccupancyErrorMessage`: the advice depends on the suitcase alone. */
  function GetOccupancyErrorMessage(hasTrunk: bool): string
  {
    if hasTrunk then "トランクがあるため、より空いている便をお勧めします"
    else "混雑のため、他の便をお勧めします"
  }

  /** Travellers with and without a suitcase get different advice. */
  lemma ErrorMessageTellsTrunk(a: bool, b: bool)
    ensures GetOccupancyErrorMessage(a) == GetOccupancyErrorMessage(b) <==> a == b
  {
  }
}
