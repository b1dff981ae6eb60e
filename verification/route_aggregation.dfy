/**
 * `aggregateRouteData`: for every active user, in the order the user query
 * returns them, fold the routes of the last 24 hours and overwrite
 * `user_metrics/uid`. A user without recent routes is skipped. The first
 * user whose processing throws ends the run: the error is logged and
 * swallowed, the users already processed keep their new metrics and the
 * rest are left untouched.
 */
module RouteAggregation {
  import opened Options
  import opened Schema
  import opened Firestore
  import opened RouteMetrics
  import OrderedMap
  import Ranking

  /** 24 hours in milliseconds: the width of the aggregation window. */
  const DayMillis := 86400000

  /** A `users` document as the active-user query sees it. */
  datatype UserRecord = UserRecord(id: Uid, isActive: bool)

  /** `where("is_active", "==", true)`, in the order the store returns the users. */
  function ActiveUsers(users: seq<UserRecord>): (ids: seq<Uid>)
    ensures |ids| <= |users|
    ensures forall u :: u in ids <==> UserRecord(u, true) in users
  {
    if users == [] then []
    else
      assert users == [users[0]] + users[1..];
      (if users[0].isActive then [users[0].id] else []) + ActiveUsers(users[1..])
  }

  /** `where("created_at", ">", now - 24h)` over the user's route history. */
  function RecentRoutes(history: seq<RouteEntry>, now: int): (window: seq<RouteEntry>)
    ensures |window| <= |history|
    ensures forall e :: e in window <==> e in history && e.createdAt > now - DayMillis
  {
    if history == [] then []
    else
      assert history == [history[0]] + history[1..];
      (if history[0].createdAt > now - DayMillis then [history[0]] else [])
      + RecentRoutes(history[1..], now)
  }

  /** The active-user query keeps the store's order: filtering a concatenation concatenates. */
  lemma {:induction false} ActiveUsersAppend(a: seq<UserRecord>, b: seq<UserRecord>)
    ensures ActiveUsers(a + b) == ActiveUsers(a) + ActiveUsers(b)
  {
    if a != [] {
      assert (a + b)[0] == a[0] && (a + b)[1..] == a[1..] + b;
      ActiveUsersAppend(a[1..], b);
    } else {
      assert a + b == b;
    }
  }

  /** The window keeps the history's order: filtering a concatenation concatenates. */
  lemma {:induction false} RecentRoutesAppend(a: seq<RouteEntry>, b: seq<RouteEntry>, now: int)
    ensures RecentRoutes(a + b, now) == RecentRoutes(a, now) + RecentRoutes(b, now)
  {
    if a != [] {
      assert (a + b)[0] == a[0] && (a + b)[1..] == a[1..] + b;
      RecentRoutesAppend(a[1..], b, now);
    } else {
      assert a + b == b;
    }
  }

  /** The routes of `uid` within the window; a user without history has none. */
  function Window(history: map<Uid, seq<RouteEntry>>, uid: Uid, now: int): (window: seq<RouteEntry>)
    ensures forall e :: e in window <==>
              uid in history && e in history[uid] && e.createdAt > now - DayMillis
  {
    RecentRoutes(if uid in history then history[uid] else [], now)
  }

  /** `.map(([placeId, count]) => ({place_id: placeId, count}))` of the ranked tally. */
  function FavoriteDestinations(destinations: seq<(PlaceId, nat)>): seq<Destination> {
    var ranked := Ranking.Rank(destinations);
    seq(|ranked|, i requires 0 <= i < |ranked| => Destination(ranked[i].0, ranked[i].1))
  }

  /**
   * `favorite_destinations` holds min(5, number of distinct destinations)
   * visited destinations, each once, with its number of visits, largest
   * counts first.
   */
  lemma FavoriteDestinationsAreVisits(routes: seq<RouteEntry>)
    ensures var fav := FavoriteDestinations(Tally(routes));
            && |fav| == (if |PlaceIds(routes)| < Ranking.TopCount then |PlaceIds(routes)| else Ranking.TopCount)
            && (forall i, j :: 0 <= i < j < |fav| ==> fav[i].count >= fav[j].count)
            && (forall i :: 0 <= i < |fav| ==>
                  fav[i].placeId in PlaceIds(routes) && fav[i].count == Occurrences(routes, fav[i].placeId))
  {
    var t := Tally(routes);
    var ranked := Ranking.Rank(t);
    var fav := FavoriteDestinations(t);
    TallyCoversPlaces(routes);
    Ranking.RankShape(t);
    Ranking.RankFromTally(t);
    forall i | 0 <= i < |fav|
      ensures fav[i].placeId in PlaceIds(routes) && fav[i].count == Occurrences(routes, fav[i].placeId)
    {
      assert ranked[i] in t;
      var k :| 0 <= k < |t| && t[k] == ranked[i];
      TallyEntry(routes, k);
    }
  }

  /** No destination appears twice in `favorite_destinations`. */
  lemma FavoriteDestinationsDistinct(routes: seq<RouteEntry>)
    ensures var fav := FavoriteDestinations(Tally(routes));
            forall i, j :: 0 <= i < j < |fav| ==> fav[i].placeId != fav[j].placeId
  {
    var t := Tally(routes);
    var ranked := Ranking.Rank(t);
    var fav := FavoriteDestinations(t);
    FavoriteDestinationsAreVisits(routes);
    assert OrderedMap.Distinct(t) by {
      TallyKeys(routes);
      forall i, j | 0 <= i < j < |t| ensures t[i] != t[j] {
        OrderedMap.KeysAt(t, i);
        OrderedMap.KeysAt(t, j);
      }
    }
    Ranking.RankDistinct(t);
    forall i, j | 0 <= i < j < |fav| ensures fav[i].placeId != fav[j].placeId {
      assert fav[i] == Destination(ranked[i].0, ranked[i].1);
      assert fav[j] == Destination(ranked[j].0, ranked[j].1);
      assert ranked[i] != ranked[j];
    }
  }

  /**
   * No destination left out of `favorite_destinations` was visited more
   * often than one kept; destinations of equal count appear in the order in
   * which they were first visited, and the ones kept are the first visited.
   */
  lemma FavoriteDestinationsAreTop(routes: seq<RouteEntry>, id: PlaceId)
    requires id in PlaceIds(routes)
    requires forall d :: d in FavoriteDestinations(Tally(routes)) ==> d.placeId != id
    ensures forall d :: d in FavoriteDestinations(Tally(routes)) ==> Occurrences(routes, id) <= d.count
    ensures OrderedMap.Keys(Tally(routes)) == FirstEncounter(routes)
    ensures forall c: nat :: Ranking.WithCount(Ranking.Rank(Tally(routes)), c) <= Ranking.WithCount(Tally(routes), c)
  {
    var t := Tally(routes);
    var ranked := Ranking.Rank(t);
    var fav := FavoriteDestinations(t);
    TallyKeys(routes);
    TallyCounts(routes, id);
    FirstEncounterMembers(routes, id);
    OrderedMap.GetIsEntry(t, id);
    var p := (id, Occurrences(routes, id));
    assert p in t;
    forall j | 0 <= j < |ranked| ensures ranked[j].0 != id {
      assert fav[j] in fav;
    }
    assert p !in ranked;
    forall d | d in fav ensures Occurrences(routes, id) <= d.count {
      var i :| 0 <= i < |fav| && fav[i] == d;
      assert ranked[i].0 != id;
      Ranking.RankKeepsLargest(t, p, ranked[i]);
    }
    forall c: nat ensures Ranking.WithCount(ranked, c) <= Ranking.WithCount(t, c) {
      Ranking.RankIsStable(t, c);
    }
  }

  /** The record written for a user whose window holds `routes`. */
  function MetricsFor(routes: seq<RouteEntry>, now: int): UserMetrics {
    UserMetrics(
      now,
      Sum(Distances(routes)) as real / 1000.0,
      Sum(Durations(routes)) as real / 60.0,
      FavoriteDestinations(Tally(routes)))
  }

  /** Three routes: 1000 m / 60 s to A, 2000 m / 120 s to B, 500 m / 30 s to A. */
  function ThreeRoutes(now: int): seq<RouteEntry> {
    var a, b := Location(Some("A")), Location(Some("B"));
    [RouteEntry(now, Some(Measure(Some(1000))), Some(Measure(Some(60))), Some(a)),
     RouteEntry(now, Some(Measure(Some(2000))), Some(Measure(Some(120))), Some(b)),
     RouteEntry(now, Some(Measure(Some(500))), Some(Measure(Some(30))), Some(a))]
  }

  lemma ThreeRoutesTotals(now: int)
    ensures Sum(Distances(ThreeRoutes(now))) == 3500
    ensures Sum(Durations(ThreeRoutes(now))) == 210
  {
    var distances, durations := Distances(ThreeRoutes(now)), Durations(ThreeRoutes(now));
    assert distances == [1000, 2000, 500] && durations == [60, 120, 30];
    assert Sum(distances[..1]) == 1000 && Sum(durations[..1]) == 60 by {
      assert distances[..1][..0] == [] && durations[..1][..0] == [];
    }
    assert Sum(distances[..2]) == 3000 && Sum(durations[..2]) == 180 by {
      assert distances[..2][..1] == distances[..1] && durations[..2][..1] == durations[..1];
    }
    assert distances[..|distances| - 1] == distances[..2];
    assert durations[..|durations| - 1] == durations[..2];
  }

  lemma ThreeRoutesTally(now: int)
    ensures Tally(ThreeRoutes(now)) == [("A", 2), ("B", 1)]
  {
    var routes := ThreeRoutes(now);
    assert routes[..2][..1] == routes[..1] && routes[..1][..0] == [];
    assert routes[..2] == routes[..|routes| - 1] && routes[..2][1] == routes[1];
    assert Tally(routes[..1]) == [("A", 1)];
    assert OrderedMap.Get([("A", 1)], "B") == None;
    assert OrderedMap.Set([("A", 1)], "B", 1) == [("A", 1), ("B", 1)];
    assert Tally(routes[..2]) == [("A", 1), ("B", 1)];
  }

  lemma ThreeRoutesRanking()
    ensures FavoriteDestinations([("A", 2), ("B", 1)]) == [Destination("A", 2), Destination("B", 1)]
  {
    var a, b: (PlaceId, nat) := ("A", 2), ("B", 1);
    assert [a, b][1..] == [b] && [b][1..] == [];
    assert Ranking.SortByCountDesc([b]) == Ranking.Insert(b, []) == [b];
    assert Ranking.Insert(a, [b]) == [a, b];
    assert Ranking.SortByCountDesc([a, b]) == [a, b];
    assert Ranking.Rank([a, b]) == [a, b];
  }

  /** The three routes give 3.5 km, 3.5 minutes, and A (twice) ranked before B (once). */
  lemma ThreeRoutesExample(now: int)
    ensures MetricsFor(ThreeRoutes(now), now)
            == UserMetrics(now, 3.5, 3.5, [Destination("A", 2), Destination("B", 1)])
  {
    ThreeRoutesTotals(now);
    ThreeRoutesTally(now);
    ThreeRoutesRanking();
  }

  /** The index of the first user whose processing throws, or the number of users. */
  function FirstFailure(ids: seq<Uid>, failing: set<Uid>): (k: nat)
    ensures k <= |ids|
    ensures forall j :: 0 <= j < k ==> ids[j] !in failing
    ensures k < |ids| ==> ids[k] in failing
  {
    if ids == [] || ids[0] in failing then 0
    else 1 + FirstFailure(ids[1..], failing)
  }

  /** The users the run gets through before the first failure. */
  function Processed(users: seq<UserRecord>, usersQueryFails: bool, failing: set<Uid>): (processed: seq<Uid>)
    ensures usersQueryFails ==> processed == []
    ensures !usersQueryFails ==> processed <= ActiveUsers(users)
    ensures forall u :: u in processed ==> u !in failing
    ensures !usersQueryFails && |processed| < |ActiveUsers(users)|
            ==> ActiveUsers(users)[|processed|] in failing
  {
    if usersQueryFails then []
    else
      var active := ActiveUsers(users);
      active[..FirstFailure(active, failing)]
  }

  /** The metrics documents a run writes for the users it processes, in order. */
  function Written(processed: seq<Uid>, history: map<Uid, seq<RouteEntry>>, now: int): map<Path, Doc> {
    if processed == [] then map[]
    else
      var written := Written(processed[..|processed| - 1], history, now);
      var u := processed[|processed| - 1];
      var window := Window(history, u, now);
      if window == [] then written
      else written[MetricsPath(u) := MetricsDoc(MetricsFor(window, now))]
  }

  /**
   * A run writes `user_metrics/u` exactly when it processed `u` and `u` has
   * routes in the window, and then writes the metrics of that window.
   */
  lemma {:induction false} WrittenFor(processed: seq<Uid>, history: map<Uid, seq<RouteEntry>>, now: int, u: Uid)
    ensures MetricsPath(u) in Written(processed, history, now)
            <==> u in processed && Window(history, u, now) != []
    ensures MetricsPath(u) in Written(processed, history, now)
            ==> Written(processed, history, now)[MetricsPath(u)]
                == MetricsDoc(MetricsFor(Window(history, u, now), now))
  {
    if processed != [] {
      var init, last := processed[..|processed| - 1], processed[|processed| - 1];
      WrittenFor(init, history, now, u);
      var w, window := Written(init, history, now), Window(history, last, now);
      assert Written(processed, history, now)
             == if window == [] then w else w[MetricsPath(last) := MetricsDoc(MetricsFor(window, now))];
      assert u in processed <==> u in init || u == last by {
        assert processed == init + [last];
      }
      if last != u {
        assert MetricsPath(last)[1] != MetricsPath(u)[1];
      }
    }
  }

  /** A run writes nothing but `user_metrics` documents. */
  lemma {:induction false} WrittenOnlyMetrics(processed: seq<Uid>, history: map<Uid, seq<RouteEntry>>, now: int, p: Path)
    requires p in Written(processed, history, now)
    ensures |p| == 2 && p[0] == UserMetricsCollection && p == MetricsPath(p[1])
  {
    var init, last := processed[..|processed| - 1], processed[|processed| - 1];
    if p != MetricsPath(last) || Window(history, last, now) == [] {
      WrittenOnlyMetrics(init, history, now, p);
    }
  }

  /**
   * What a run leaves in the store: `user_metrics/u` holds the metrics of
   * u's window when u was processed and had recent routes; every other
   * document, including the metrics of skipped users, is as it was.
   */
  lemma RunResult(base: map<Path, Doc>, processed: seq<Uid>, history: map<Uid, seq<RouteEntry>>, now: int, p: Path)
    ensures var after := base + Written(processed, history, now);
            if |p| == 2 && p[0] == UserMetricsCollection && p[1] in processed && Window(history, p[1], now) != []
            then p in after && after[p] == MetricsDoc(MetricsFor(Window(history, p[1], now), now))
            else (p in after <==> p in base) && (p in base ==> after[p] == base[p])
  {
    if |p| == 2 && p[0] == UserMetricsCollection {
      assert p == MetricsPath(p[1]);
      WrittenFor(processed, history, now, p[1]);
    } else if p in Written(processed, history, now) {
      WrittenOnlyMetrics(processed, history, now, p);
    }
  }

  lemma OverrideUpdate(base: map<Path, Doc>, written: map<Path, Doc>, p: Path, d: Doc)
    ensures (base + written)[p := d] == base + written[p := d]
  {
  }

  /** Processing one more user adds that user's metrics document, if the user has recent routes. */
  lemma WrittenStep(base: map<Path, Doc>, ids: seq<Uid>, i: nat, history: map<Uid, seq<RouteEntry>>, now: int)
    requires i < |ids|
    ensures var u := ids[i];
            base + Written(ids[..i + 1], history, now)
            == if Window(history, u, now) == [] then base + Written(ids[..i], history, now)
               else (base + Written(ids[..i], history, now))[MetricsPath(u) := MetricsDoc(MetricsFor(Window(history, u, now), now))]
  {
    assert ids[..i + 1][..i] == ids[..i];
    var u := ids[i];
    if Window(history, u, now) != [] {
      OverrideUpdate(base, Written(ids[..i], history, now), MetricsPath(u),
                     MetricsDoc(MetricsFor(Window(history, u, now), now)));
    }
  }

  /** The fold over the window and the record the source writes from it. */
  method ComputeMetrics(routes: seq<RouteEntry>, now: int) returns (metrics: UserMetrics)
    ensures metrics == MetricsFor(routes, now)
  {
    var totalDistance, totalDuration, destinations := Accumulate(routes);
    metrics := UserMetrics(
      now,
      totalDistance as real / 1000.0,
      totalDuration as real / 60.0,
      FavoriteDestinations(destinations));
  }

  /**
   * The body of the loop for one user that passed the failure check: skip
   * a user without recent routes, otherwise fold the window and overwrite
   * `user_metrics/uid`.
   */
  method AggregateUser(db: Database, userId: Uid, history: map<Uid, seq<RouteEntry>>, now: int)
    modifies db
    ensures db.docs == if Window(history, userId, now) == [] then old(db.docs)
                       else old(db.docs)[MetricsPath(userId) := MetricsDoc(MetricsFor(Window(history, userId, now), now))]
  {
    var routes := RecentRoutes(if userId in history then history[userId] else [], now);
    assert routes == Window(history, userId, now);
    if |routes| == 0 {
      return;
    }
    var metrics := ComputeMetrics(routes, now);
    db.Update(MetricsPath(userId), MetricsDoc(metrics));
  }

  /**
   * The scheduled run. `users` and `history` are what the two queries
   * return; `usersQueryFails` and `failing` say which calls to the store
   * throw; `now` is the run time (and the server timestamp).
   */
  method AggregateRouteData(
    db: Database, users: seq<UserRecord>, history: map<Uid, seq<RouteEntry>>, now: int,
    usersQueryFails: bool, failing: set<Uid>)
    modifies db
    ensures db.docs == old(db.docs) + Written(Processed(users, usersQueryFails, failing), history, now)
  {
    if usersQueryFails {
      assert Written([], history, now) == map[];
      return;
    }
    var active := ActiveUsers(users);
    var i := 0;
    while i < |active|
      invariant i <= FirstFailure(active, failing)
      invariant db.docs == old(db.docs) + Written(active[..i], history, now)
    {
      var userId := active[i];
      if userId in failing {
        break;
      }
      WrittenStep(old(db.docs), active, i, history, now);
      AggregateUser(db, userId, history, now);
      i := i + 1;
    }
    assert i == FirstFailure(active, failing);
  }
}
