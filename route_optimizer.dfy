/** `routeOptimizer` (in `routeOptimizer.ts`, and verbatim again in `timeUtils.ts`): the score of a
    route option, lower for longer, dearer and more crowded rides. */
module RouteOptimizer {
  import opened Seqs
  import opened RouteTypes
  import Gtfs

  /** The penalty of each tabulated occupancy status. */
  const PenaltyTable: map<string, nat> := map[
    "EMPTY" := 0,
    "MANY_SEATS_AVAILABLE" := 0,
    "FEW_SEATS_AVAILABLE" := 2,
    "STANDING_ROOM_ONLY" := 5,
    "CRUSHED_STANDING_ROOM_ONLY" := 10,
    "FULL" := 15
  ]

  /** `{…}[status] || 0`: the tabulated penalty, 0 for any other status. */
  function StatusPenalty(status: string): (r: nat)
    ensures r <= 15
  {
    if status in PenaltyTable then PenaltyTable[status] else 0
  }

  /** What one bus step adds: nothing unless it carries a non-empty occupancy status. */
  function StepPenalty(step: RouteStep): (r: nat)
    ensures r <= 15
  {
    if step.busDetails.Some? && step.busDetails.value.occupancyStatus != "" then StatusPenalty(step.busDetails.value.occupancyStatus)
    else 0
  }

  function IsBusStep(): RouteStep -> bool
  {
    (step: RouteStep) => step.kind == Bus
  }

  /** The penalties of `steps`, added from the first to the last. */
  function PenaltySum(steps: seq<RouteStep>): nat
  {
    if steps == [] then 0 else PenaltySum(steps[..|steps| - 1]) + StepPenalty(steps[|steps| - 1])
  }

  /** The crowding penalty of a route: the sum over its bus steps. */
  function CrowdingPenalty(route: RouteOption): nat
  {
    PenaltySum(Filter(route.steps, IsBusStep()))
  }

  /** `calculateCrowdingPenalty`: keeps the bus steps and adds up their penalties one by one; the
      vehicles are not consulted. */
  method CalculateCrowdingPenalty(route: RouteOption, vehicles: seq<Gtfs.Vehicle>) returns (totalPenalty: int)
    ensures totalPenalty == CrowdingPenalty(route)
  {
    var busSteps := Filter(route.steps, IsBusStep());
    totalPenalty := 0;
    for i := 0 to |busSteps|
      invariant totalPenalty == PenaltySum(busSteps[..i])
    {
      var step := busSteps[i];
      PenaltySumStep(busSteps, i);
      if step.busDetails.Some? && step.busDetails.value.occupancyStatus != "" {
        var penalty := StatusPenalty(step.busDetails.value.occupancyStatus);
        totalPenalty := totalPenalty + penalty;
      }
    }
    assert busSteps[..|busSteps|] == busSteps;
  }

  /** One more step of a prefix adds that step's penalty. */
  lemma PenaltySumStep(steps: seq<RouteStep>, i: nat)
    requires i < |steps|
    ensures PenaltySum(steps[..i + 1]) == PenaltySum(steps[..i]) + StepPenalty(steps[i])
  {
    assert steps[..i + 1][..i] == steps[..i];
  }

  /** Penalties add up over consecutive pieces of a ride. */
  lemma {:induction false} PenaltySumConcat(a: seq<RouteStep>, b: seq<RouteStep>)
    ensures PenaltySum(a + b) == PenaltySum(a) + PenaltySum(b)
  {
    if b == [] {
      assert a + b == a;
    } else {
      var n := |b| - 1;
      PenaltySumConcat(a, b[..n]);
      assert (a + b)[..|a + b| - 1] == a + b[..n];
      assert (a + b)[|a + b| - 1] == b[n];
    }
  }

  /** Each bus step costs between 0 and 15, so the penalty is at most 15 per bus step. */
  lemma {:induction false} PenaltySumBound(steps: seq<RouteStep>)
    ensures PenaltySum(steps) <= 15 * |steps|
  {
    if steps != [] {
      PenaltySumBound(steps[..|steps| - 1]);
    }
  }

  /** A step that adds nothing: not a bus step, or one without a reported status. */
  predicate Quiet(step: RouteStep)
  {
    step.kind != Bus || step.busDetails.None? || step.busDetails.value.occupancyStatus == ""
  }

  /** The penalty of a route is at most 15 per bus step; walking steps and bus steps without a status
      contribute nothing, wherever they stand in the ride. */
  lemma CrowdingPenaltySpec(route: RouteOption, before: seq<RouteStep>, quiet: seq<RouteStep>, after: seq<RouteStep>)
    requires forall i :: 0 <= i < |quiet| ==> Quiet(quiet[i])
    ensures CrowdingPenalty(route) <= 15 * |Filter(route.steps, IsBusStep())|
    ensures CrowdingPenalty(route.(steps := before + quiet + after)) == CrowdingPenalty(route.(steps := before + after))
  {
    PenaltySumBound(Filter(route.steps, IsBusStep()));
    var bus := IsBusStep();
    FilterConcat(before + quiet, after, bus);
    FilterConcat(before, quiet, bus);
    FilterConcat(before, after, bus);
    QuietAddsNothing(quiet);
    PenaltySumConcat(Filter(before, bus), Filter(quiet, bus));
    PenaltySumConcat(Filter(before, bus) + Filter(quiet, bus), Filter(after, bus));
    PenaltySumConcat(Filter(before, bus), Filter(after, bus));
  }

  lemma {:induction false} QuietAddsNothing(quiet: seq<RouteStep>)
    requires forall i :: 0 <= i < |quiet| ==> Quiet(quiet[i])
    ensures PenaltySum(Filter(quiet, IsBusStep())) == 0
  {
    if quiet != [] {
      var n := |quiet| - 1;
      assert quiet == quiet[..n] + [quiet[n]];
      QuietAddsNothing(quiet[..n]);
      FilterConcat(quiet[..n], [quiet[n]], IsBusStep());
      assert [quiet[n]][1..] == [];
      PenaltySumConcat(Filter(quiet[..n], IsBusStep()), Filter([quiet[n]], IsBusStep()));
      assert PenaltySum(Filter([quiet[n]], IsBusStep())) == 0 by {
        var f := Filter([quiet[n]], IsBusStep());
        if f != [] {
          assert f == [quiet[n]];
          assert f[..0] == [];
        }
      }
    }
  }

  /** The table by status number: 0, 0, 2, 5, 10, 15 up to FULL, growing with the number; a bus that
      takes no passengers, or reports no data, costs nothing. */
  lemma StatusPenaltyTable(a: Gtfs.OccupancyStatus, b: Gtfs.OccupancyStatus)
    ensures a.Number() <= b.Number() <= 5 ==> StatusPenalty(a.Name()) <= StatusPenalty(b.Name())
    ensures a.Number() >= 6 ==> StatusPenalty(a.Name()) == 0
    ensures StatusPenalty(a.Name()) == [0, 0, 2, 5, 10, 15, 0, 0, 0][a.Number()]
  {
  }

  /** The score: minus the minutes, minus a hundredth of the fare, minus the crowding penalty. */
  function Score(route: RouteOption): real
  {
    -(route.totalTime as real) - route.totalFare / 100.0 - CrowdingPenalty(route) as real
  }

  /** `evaluateRoute`: starts from 0 and subtracts the time, the fare over 100 and the penalty; the
      vehicles do not change the score. */
  method EvaluateRoute(route: RouteOption, vehicles: seq<Gtfs.Vehicle>) returns (score: real)
    ensures score == Score(route)
  {
    score := 0.0;
    score := score - route.totalTime as real;
    score := score - route.totalFare / 100.0;
    var crowdingPenalty := CalculateCrowdingPenalty(route, vehicles);
    score := score - crowdingPenalty as real;
  }

  /** The score lies between the time-and-fare score and that minus 15 per bus step; for equal time
      and fare, the less crowded route scores higher. */
  lemma ScoreSpec(route: RouteOption, other: RouteOption)
    ensures var base := -(route.totalTime as real) - route.totalFare / 100.0;
      base - (15 * |Filter(route.steps, IsBusStep())|) as real <= Score(route) <= base
    ensures route.totalTime == other.totalTime && route.totalFare == other.totalFare ==>
      (Score(route) <= Score(other) <==> CrowdingPenalty(other) <= CrowdingPenalty(route))
  {
    PenaltySumBound(Filter(route.steps, IsBusStep()));
  }
}
