/** `IsStopsInTo.ts`: which destination stop, if any, a route calls at. Membership (`includes`, by
    identity in the source) is equality of stop records here. */
module IsStopsInTo {
  import opened Wrappers
  import opened Seqs
  import opened Gtfs

  function InStops(stops: seq<Stop>): Stop -> bool
  {
    (toStop: Stop) => toStop in stops
  }

  /** `IsStopsInTo`: the name of the first destination stop, in `toStops` order, that the route's
      stops contain, or nothing. */
  function IsStopsInTo(stops: seq<Stop>, toStops: seq<Stop>): (r: Option<string>)
    ensures r.None? <==> forall i :: 0 <= i < |toStops| ==> toStops[i] !in stops
    ensures toStops == [] ==> r.None?
  {
    var matchedStop := Find(toStops, InStops(stops));
    match matchedStop
    case None => None
    case Some(stop) => Some(stop.name)
  }

  /** The name returned is that of the first destination stop served by the route. */
  lemma IsStopsInToFirst(stops: seq<Stop>, toStops: seq<Stop>, k: int)
    requires 0 <= k < |toStops| && toStops[k] in stops
    requires forall j :: 0 <= j < k ==> toStops[j] !in stops
    ensures IsStopsInTo(stops, toStops) == Some(toStops[k].name)
  {
    FindFirstAt(toStops, InStops(stops), k);
  }
}
