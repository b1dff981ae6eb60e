/**
 * The per-user body of the scheduled aggregation: a fold over the user's
 * route entries of the last 24 hours that sums distances and durations and
 * counts visits per destination in a `Map` that keeps first-encounter order.
 */
module RouteMetrics {
  import opened Options
  import OrderedMap

  type PlaceId = string

  /** `{value}`: a distance in metres or a duration in seconds; the value may be absent. */
  datatype Measure = Measure(value: Option<int>)

  /** `{place_id}`: the place id may be absent. */
  datatype Location = Location(placeId: Option<PlaceId>)

  /** A `route_history` document; `createdAt` is in milliseconds. */
  datatype RouteEntry = RouteEntry(
    createdAt: int,
    distance: Option<Measure>,
    duration: Option<Measure>,
    endLocation: Option<Location>)

  /** `(m && m.value) || 0`: an absent object, an absent value and 0 all count 0. */
  function MeasureOrZero(m: Option<Measure>): int {
    if m.Some? && m.value.value.Some? then m.value.value.value else 0
  }

  /**
   * `e.end_location && e.end_location.place_id`, kept only when truthy:
   * absent location, absent id and the empty string give None.
   */
  function PlaceOf(e: RouteEntry): Option<PlaceId> {
    if e.endLocation.Some? && e.endLocation.value.placeId.Some?
       && e.endLocation.value.placeId.value != ""
    then e.endLocation.value.placeId
    else None
  }

  function Sum(xs: seq<int>): int {
    if xs == [] then 0 else Sum(xs[..|xs| - 1]) + xs[|xs| - 1]
  }

  /** What each entry adds to `totalDistance`. */
  function Distances(routes: seq<RouteEntry>): seq<int> {
    seq(|routes|, i requires 0 <= i < |routes| => MeasureOrZero(routes[i].distance))
  }

  /** What each entry adds to `totalDuration`. */
  function Durations(routes: seq<RouteEntry>): seq<int> {
    seq(|routes|, i requires 0 <= i < |routes| => MeasureOrZero(routes[i].duration))
  }

  /** The number of entries whose truthy destination is `id`. */
  function Occurrences(routes: seq<RouteEntry>, id: PlaceId): nat {
    if routes == [] then 0
    else Occurrences(routes[..|routes| - 1], id)
         + (if PlaceOf(routes[|routes| - 1]) == Some(id) then 1 else 0)
  }

  lemma OccurrencesStep(routes: seq<RouteEntry>, e: RouteEntry, id: PlaceId)
    ensures Occurrences(routes + [e], id)
            == Occurrences(routes, id) + if PlaceOf(e) == Some(id) then 1 else 0
  {
    assert (routes + [e])[..|routes|] == routes;
  }

  /** The set of truthy destinations of the entries. */
  function PlaceIds(routes: seq<RouteEntry>): set<PlaceId> {
    set i | 0 <= i < |routes| && PlaceOf(routes[i]).Some? :: PlaceOf(routes[i]).value
  }

  /** The distinct truthy destinations, each where it is first met. */
  function FirstEncounter(routes: seq<RouteEntry>): seq<PlaceId> {
    if routes == [] then []
    else
      var ids := FirstEncounter(routes[..|routes| - 1]);
      match PlaceOf(routes[|routes| - 1])
      case None => ids
      case Some(id) => if id in ids then ids else ids + [id]
  }

  /**
   * The `destinations` Map after the entries have been folded in: each entry
   * with a truthy destination does `set(id, (get(id) || 0) + 1)`.
   */
  function Tally(routes: seq<RouteEntry>): seq<(PlaceId, nat)> {
    if routes == [] then []
    else Visit(Tally(routes[..|routes| - 1]), PlaceOf(routes[|routes| - 1]))
  }

  /** What one entry does to the tally. */
  function Visit(tally: seq<(PlaceId, nat)>, place: Option<PlaceId>): seq<(PlaceId, nat)> {
    if place.None? then tally
    else OrderedMap.Set(tally, place.value, OrderedMap.Get(tally, place.value).GetOr(0) + 1)
  }

  /** A destination is listed exactly when some entry ends there. */
  lemma {:induction false} FirstEncounterMembers(routes: seq<RouteEntry>, id: PlaceId)
    ensures id in FirstEncounter(routes) <==> Occurrences(routes, id) > 0
    ensures id in PlaceIds(routes) <==> Occurrences(routes, id) > 0
  {
    if routes != [] {
      var init := routes[..|routes| - 1];
      FirstEncounterMembers(init, id);
      assert forall i :: 0 <= i < |init| ==> init[i] == routes[i];
      if id in PlaceIds(routes) && PlaceOf(routes[|routes| - 1]) != Some(id) {
        var i :| 0 <= i < |routes| && PlaceOf(routes[i]) == Some(id);
        assert i < |init| && id in PlaceIds(init);
      }
      if id in PlaceIds(init) {
        var i :| 0 <= i < |init| && PlaceOf(init[i]) == Some(id);
        assert PlaceOf(routes[i]) == Some(id);
      }
    }
  }

  lemma {:induction false} DistinctCardinality(s: seq<PlaceId>)
    requires OrderedMap.Distinct(s)
    ensures |set x | x in s| == |s|
  {
    if s != [] {
      var t := s[1..];
      assert OrderedMap.Distinct(t);
      DistinctCardinality(t);
      assert (set x | x in s) == (set x | x in t) + {s[0]};
      assert s[0] !in (set x | x in t);
    }
  }

  /** The tally's keys are the distinct destinations, in first-encounter order. */
  lemma {:induction false} TallyKeys(routes: seq<RouteEntry>)
    ensures OrderedMap.Keys(Tally(routes)) == FirstEncounter(routes)
    ensures OrderedMap.Distinct(OrderedMap.Keys(Tally(routes)))
  {
    if routes != [] {
      var init, last := routes[..|routes| - 1], routes[|routes| - 1];
      TallyKeys(init);
      var t := Tally(init);
      assert Tally(routes) == Visit(t, PlaceOf(last));
      if PlaceOf(last).Some? {
        var x := PlaceOf(last).value;
        var v := OrderedMap.Get(t, x).GetOr(0) + 1;
        OrderedMap.SetMeaning(t, x, v);
        OrderedMap.SetKeepsDistinct(t, x, v);
      }
    }
  }

  /** For every place id, its tally is its number of visits (and it has none when never visited). */
  lemma {:induction false} TallyCounts(routes: seq<RouteEntry>, id: PlaceId)
    ensures OrderedMap.Get(Tally(routes), id)
            == if Occurrences(routes, id) > 0 then Some(Occurrences(routes, id)) else None
  {
    if routes != [] {
      var init, last := routes[..|routes| - 1], routes[|routes| - 1];
      TallyCounts(init, id);
      var t := Tally(init);
      assert Tally(routes) == Visit(t, PlaceOf(last));
      if PlaceOf(last).Some? {
        var x := PlaceOf(last).value;
        var v := OrderedMap.Get(t, x).GetOr(0) + 1;
        OrderedMap.SetMeaning(t, x, v);
        if x == id {
          assert Occurrences(routes, id) == Occurrences(init, id) + 1;
          assert v == Occurrences(routes, id);
          assert OrderedMap.Get(OrderedMap.Set(t, x, v), id) == Some(v);
        } else {
          assert Occurrences(routes, id) == Occurrences(init, id);
          assert OrderedMap.Get(OrderedMap.Set(t, x, v), id) == OrderedMap.Get(t, id);
        }
      }
    }
  }

  /** Every entry of the tally is a visited destination with its number of visits. */
  lemma TallyEntry(routes: seq<RouteEntry>, i: nat)
    requires i < |Tally(routes)|
    ensures Tally(routes)[i].0 in PlaceIds(routes)
    ensures Tally(routes)[i].1 == Occurrences(routes, Tally(routes)[i].0) > 0
  {
    var t := Tally(routes);
    TallyKeys(routes);
    OrderedMap.GetAt(t, i);
    TallyCounts(routes, t[i].0);
    FirstEncounterMembers(routes, t[i].0);
  }

  /** The tally has exactly one entry per distinct destination. */
  lemma TallyCoversPlaces(routes: seq<RouteEntry>)
    ensures (set id | id in OrderedMap.Keys(Tally(routes))) == PlaceIds(routes)
    ensures |Tally(routes)| == |PlaceIds(routes)|
  {
    var ids := FirstEncounter(routes);
    TallyKeys(routes);
    forall id ensures id in ids <==> id in PlaceIds(routes) {
      FirstEncounterMembers(routes, id);
    }
    DistinctCardinality(ids);
    OrderedMap.KeysLength(Tally(routes));
  }

  /** An entry without a truthy destination still adds its distance and duration, and no visit. */
  lemma UntaggedEntry(routes: seq<RouteEntry>, e: RouteEntry)
    requires PlaceOf(e).None?
    ensures Sum(Distances(routes + [e])) == Sum(Distances(routes)) + MeasureOrZero(e.distance)
    ensures Sum(Durations(routes + [e])) == Sum(Durations(routes)) + MeasureOrZero(e.duration)
    ensures Tally(routes + [e]) == Tally(routes)
  {
    var s := routes + [e];
    assert Distances(s)[..|routes|] == Distances(routes);
    assert Durations(s)[..|routes|] == Durations(routes);
    assert s[..|routes|] == routes;
  }

  /** The loop of the source over the user's route documents. */
  method Accumulate(routes: seq<RouteEntry>)
    returns (totalDistance: int, totalDuration: int, destinations: seq<(PlaceId, nat)>)
    ensures totalDistance == Sum(Distances(routes))
    ensures totalDuration == Sum(Durations(routes))
    ensures destinations == Tally(routes)
  {
    totalDistance, totalDuration, destinations := 0, 0, [];
    for i := 0 to |routes|
      invariant totalDistance == Sum(Distances(routes)[..i])
      invariant totalDuration == Sum(Durations(routes)[..i])
      invariant destinations == Tally(routes[..i])
    {
      var e := routes[i];
      assert Distances(routes)[..i + 1][..i] == Distances(routes)[..i];
      assert Durations(routes)[..i + 1][..i] == Durations(routes)[..i];
      totalDistance := totalDistance + MeasureOrZero(e.distance);
      totalDuration := totalDuration + MeasureOrZero(e.duration);
      assert routes[..i + 1][..i] == routes[..i];
      var endPlaceId := PlaceOf(e);
      if endPlaceId.Some? {
        var count := OrderedMap.Get(destinations, endPlaceId.value).GetOr(0);
        destinations := OrderedMap.Set(destinations, endPlaceId.value, count + 1);
      }
    }
    assert Distances(routes)[..|routes|] == Distances(routes);
    assert Durations(routes)[..|routes|] == Durations(routes);
    assert routes[..|routes|] == routes;
  }
}
