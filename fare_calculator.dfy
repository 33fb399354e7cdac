/** The stand-alone fare lookup: the first fare rule of the route, priced by its fare attribute.
    Origin and destination fields of the rules play no part here. */
module FareCalculator {
  import opened Wrappers
  import opened Seqs
  import opened Gtfs
  import RouteUtils

  function RuleOf(routeId: string): FareRule -> bool
  {
    (rule: FareRule) => rule.routeId == routeId
  }

  /** `calculateFare`: the price of the attribute of the first rule with the route id, else 0. */
  function CalculateFare(routeId: string, fareAttributes: seq<FareAttribute>, fareRules: seq<FareRule>): real
  {
    match Find(fareRules, RuleOf(routeId))
    case None => 0.0
    case Some(rule) => RouteUtils.FarePrice(rule.fareId, fareAttributes)
  }

  /** No rule for the route costs 0; otherwise the first rule for the route decides, and it costs
      the price of the first attribute with its fare id, or 0 when there is none. */
  lemma CalculateFareSpec(routeId: string, fareAttributes: seq<FareAttribute>, fareRules: seq<FareRule>)
    ensures (forall i :: 0 <= i < |fareRules| ==> fareRules[i].routeId != routeId) ==>
      CalculateFare(routeId, fareAttributes, fareRules) == 0.0
    ensures forall k :: FirstAt(fareRules, RuleOf(routeId), k) ==>
      && ((forall j :: 0 <= j < |fareAttributes| ==> fareAttributes[j].fareId != fareRules[k].fareId) ==>
            CalculateFare(routeId, fareAttributes, fareRules) == 0.0)
      && (forall a :: RouteUtils.FirstAttributeAt(fareAttributes, fareRules[k].fareId, a) ==>
            CalculateFare(routeId, fareAttributes, fareRules) == fareAttributes[a].price)
  {
    var k0 := FirstIndex(fareRules, RuleOf(routeId));
    assert forall k :: FirstAt(fareRules, RuleOf(routeId), k) ==> k == k0;
  }

  /** Two rule tables that agree on every route id and fare id give the same fare, whatever their
      origin and destination fields say. */
  lemma FareIgnoresStops(routeId: string, fareAttributes: seq<FareAttribute>, fareRules: seq<FareRule>, others: seq<FareRule>)
    requires |fareRules| == |others|
    requires forall i :: 0 <= i < |fareRules| ==>
      fareRules[i].routeId == others[i].routeId && fareRules[i].fareId == others[i].fareId
    ensures CalculateFare(routeId, fareAttributes, fareRules) == CalculateFare(routeId, fareAttributes, others)
  {
    FirstIndexCongruent(fareRules, RuleOf(routeId), others, RuleOf(routeId));
  }

  /** When every rule is a wildcard for both stops, the shared helper's fare with its origin and
      destination matching is this lookup's fare. */
  lemma AgreesWithWildcardRules(route: Route, fromStop: Stop, toStop: Stop, fareAttributes: seq<FareAttribute>, fareRules: seq<FareRule>)
    requires forall i :: 0 <= i < |fareRules| ==> fareRules[i].originId.None? && fareRules[i].destinationId.None?
    ensures RouteUtils.CalculateFare(route, fromStop, toStop, fareRules, fareAttributes) == CalculateFare(route.id, fareAttributes, fareRules)
  {
    var matches := (rule: FareRule) => RouteUtils.RuleMatches(rule, route.id, fromStop.id, toStop.id);
    FirstIndexCongruent(fareRules, matches, fareRules, RuleOf(route.id));
    FilterEmpty(fareRules, matches);
    if Filter(fareRules, matches) != [] {
      FilterHead(fareRules, matches);
    }
  }
}
