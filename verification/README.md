# Navigo cloud functions: a verified model

This project models the two Cloud Functions of the Navigo back end in
`functions/index.js`:

- **`deleteUserAccount`**: a callable function. A signed-in user uses it to
  delete their own account. Every document of the user goes in one atomic
  write batch: the `saved_maps` and `route_history` subcollections, the
  `users/{uid}` profile and `user_metrics/{uid}`. The identity-provider
  record is deleted only once that batch has committed.
- **`aggregateRouteData`**: a function scheduled every 24 hours. For each
  active user it folds the routes of the last 24 hours into a total
  distance, a total duration and a visit count per destination. It then
  writes `user_metrics/{uid}`, with the five most visited destinations
  ranked by a stable sort. The first failure ends the run. The error is
  logged and swallowed.

Modules:

| module | file | models |
|---|---|---|
| `Options` | `options.dfy` | an optional value |
| `Schema` | `schema.dfy` | document paths, collection names, the `user_metrics` record |
| `Firestore` | `firestore.dfy` | the document store (`Database`, `WriteBatch`) and the identity provider (`Auth`) as classes whose fields the calls update |
| `AccountDeletion` | `account_deletion.dfy` | `deleteUserAccount` |
| `OrderedMap` | `ordered_map.dfy` | a JavaScript `Map`: an association list kept in insertion order |
| `RouteMetrics` | `route_metrics.dfy` | the per-user fold over the route entries (`Accumulate`) and its specification (`Sum`, `Tally`) |
| `Ranking` | `ranking.dfy` | `sort((a, b) => b[1] - a[1]).slice(0, 5)` |
| `RouteAggregation` | `route_aggregation.dfy` | `aggregateRouteData`: the active-user query, the 24-hour window, the loop over users and what it writes |

Calls that can fail take a flag from the caller that says whether they
fail. `deleteUserAccount` uses a `Fault` value. `aggregateRouteData` uses a
flag for the user query and a set of users whose processing throws. The
clock (`Date.now()` and the server timestamp) is the parameter `now`, in
milliseconds. The query results come in as the values the store would
return.

## Model

| member | source | states |
|---|---|---|
| AccountDeletion.DeleteUserAccount | functions/index.js:12-71 | No caller identity fails with the "logged in" error. A signed-in call without a payload fails when `data.userId` is read, before any store access. A caller asking to delete another uid fails with the "own account" error. A failed read or commit fails and leaves both the store and the user records unchanged. After a commit, the store holds exactly `Without(old store, uid)`. The user record is removed only after that, and only when `deleteUser` succeeds. If the user records change at all, the outcome is success and no document of the user remains. |
| AccountDeletion.UserData | functions/index.js:30-58 | The four kinds of document the batch deletes: the profile, the metrics, and every document of `saved_maps` and `route_history`. It has no contract of its own; `Without`, `BatchRemovesUserData` and `DeleteUserAccount` state what it decides. |
| AccountDeletion.Without | functions/index.js:30-61 | A path is kept exactly when it was stored and is not the user's profile, metrics or a document of the user's two subcollections. Kept documents keep their contents. |
| AccountDeletion.OtherUsersUntouched | functions/index.js:30-61 | A document of any other user survives the deletion unchanged. |
| AccountDeletion.BatchRemovesUserData | functions/index.js:30-61 | Deleting the two subcollection snapshots, the profile and the metrics is the same as `Without(docs, uid)`. |
| AccountDeletion.StageDeletes | functions/index.js:39-41 | `snapshot.forEach(doc => batch.delete(doc.ref))` stages every reference of the snapshot and nothing else. |
| Firestore.Database.constructor | functions/index.js:25 | The store starts with the given documents. |
| Firestore.Database.Get | functions/index.js:33-37 | A read fails exactly when the caller says so. Otherwise it returns the paths of exactly the documents in that collection. |
| Firestore.Database.Update | functions/index.js:120-128 | The metrics document at the path becomes the new record, and nothing else changes. |
| Firestore.Database.Batch | functions/index.js:30 | `db.batch()` is a fresh, empty batch on this store. |
| Firestore.WriteBatch.constructor | functions/index.js:30 | A new batch has no staged deletes. |
| Firestore.WriteBatch.Delete | functions/index.js:55-58 | `batch.delete(ref)` adds the path to the staged set and does not touch the store. |
| Firestore.WriteBatch.Commit | functions/index.js:61 | All staged deletes happen together or none does. A staged path with no document is not an error. |
| Firestore.Auth.constructor | functions/index.js:26 | The provider starts with the given user records. |
| Firestore.Auth.DeleteUser | functions/index.js:64 | Succeeds exactly when the service does not fail and the uid has a record; then only that record is removed. |
| RouteMetrics.MeasureOrZero | functions/index.js:108-109 | `(d && d.value) \|\| 0`: an absent measure, an absent value and 0 all give 0. It has no contract of its own; `Accumulate` and `UntaggedEntry` state the sums built from it. |
| RouteMetrics.PlaceOf | functions/index.js:112-113 | The truthy `end_location.place_id`: none when the location or the id is absent or the id is empty. It has no contract of its own; `FirstEncounterMembers`, `TallyCounts` and `UntaggedEntry` state what it decides. |
| RouteMetrics.Visit | functions/index.js:113-115 | One entry's `set(id, (get(id) \|\| 0) + 1)`, or no change without a place. It has no contract of its own; `TallyKeys` and `TallyCounts` state its effect. |
| RouteMetrics.Accumulate | functions/index.js:102-117 | The loop's `totalDistance` and `totalDuration` are the sums of the entries' measures, with absent or falsy counted as 0. `destinations` is `Tally(routes)`, the Map after every `set(id, (get(id) \|\| 0) + 1)`. |
| RouteMetrics.UntaggedEntry | functions/index.js:108-116 | An entry without a truthy `end_location.place_id` still adds its distance and duration, and leaves the Map unchanged. |
| RouteMetrics.OccurrencesStep | functions/index.js:113-115 | One more entry adds one visit to its own destination and none to any other. |
| RouteMetrics.FirstEncounterMembers | functions/index.js:112-116 | A destination is listed (first-encounter order, and as a set) exactly when some entry ends there. |
| RouteMetrics.TallyKeys | functions/index.js:104-116 | The Map's keys are the distinct destinations, without repeats, in the order they were first met. |
| RouteMetrics.TallyCounts | functions/index.js:104-116 | For every place id, the Map holds the number of entries ending there. A place never visited is absent. |
| RouteMetrics.TallyEntry | functions/index.js:104-116 | Every Map entry is a visited destination paired with its positive visit count. |
| RouteMetrics.TallyCoversPlaces | functions/index.js:104-116 | The Map has exactly one entry per distinct destination. |
| RouteMetrics.DistinctCardinality | functions/index.js:104 | Helper lemma (sequences and sets), used by `TallyCoversPlaces`: a key list without repeats has as many keys as elements. |
| OrderedMap.Get | functions/index.js:114 | `Map.get`: the value of the entry for the key, if any. It has no contract of its own; `GetFindsKeys`, `GetAt` and `GetIsEntry` state its properties. |
| OrderedMap.Set | functions/index.js:115 | `Map.set`: replaces the value of an existing key in place, or appends a new entry. It has no contract of its own; `SetMeaning` and `SetKeepsDistinct` state its properties. |
| OrderedMap.KeysLength | functions/index.js:104 | A Map has one key per entry. |
| OrderedMap.GetFindsKeys | functions/index.js:114 | `get(k)` finds a value exactly when `k` is a key. |
| OrderedMap.SetMeaning | functions/index.js:115 | `set(k, v)` keeps the key order for an existing key and appends a new key. `get(k)` then returns `v`, and other keys are unaffected. |
| OrderedMap.SetKeepsDistinct | functions/index.js:115 | `set` never creates a duplicate key. |
| OrderedMap.KeysAt | functions/index.js:124 | The i-th key of `entries()` is the key of the i-th entry. |
| OrderedMap.GetAt | functions/index.js:114-124 | With distinct keys, `get` of the i-th entry's key returns that entry's value. |
| OrderedMap.GetIsEntry | functions/index.js:114-124 | A value that `get` finds is one of `entries()`. |
| Ranking.Insert | functions/index.js:125 | Inserting keeps every element (as a multiset) and adds nothing else. |
| Ranking.InsertKeepsOrder | functions/index.js:125 | Inserting into a list with non-increasing counts keeps it non-increasing. |
| Ranking.SortByCountDesc | functions/index.js:125 | The sort is a permutation of `entries()` with non-increasing counts. |
| Ranking.WithCountInsert | functions/index.js:125 | Insertion puts the new entry before the existing entries of its count. |
| Ranking.SortIsStable | functions/index.js:125 | The sort is stable: entries of any one count keep their relative order. |
| Ranking.Top | functions/index.js:126 | `slice(0, 5)` is the prefix of length min(5, n). |
| Ranking.WithCountPrefix | functions/index.js:126 | A prefix keeps a prefix of the entries of each count. |
| Ranking.Rank | functions/index.js:124-126 | `entries()` sorted by count, then `slice(0, 5)`. It has no contract of its own; `RankShape`, `RankFromTally`, `RankIsStable`, `RankKeepsLargest` and `RankDistinct` state its properties. |
| Ranking.RankShape | functions/index.js:124-126 | The ranking has min(5, n) entries, with counts non-increasing. |
| Ranking.RankFromTally | functions/index.js:124-126 | Every ranked entry is an entry of the Map. |
| Ranking.RankIsStable | functions/index.js:124-126 | Among entries of equal count, the ranking keeps the earliest ones in Map order, in that order. |
| Ranking.RankKeepsLargest | functions/index.js:124-126 | No entry left out has a larger count than an entry kept. |
| Ranking.RankDistinct | functions/index.js:124-126 | A Map's entries have no repeats, so neither does the ranking. |
| Ranking.RepeatCounted | functions/index.js:125 | Helper lemma (sequences and multisets), used by `RankDistinct`: an element at two positions occurs at least twice. |
| Ranking.DistinctCounted | functions/index.js:125 | Helper lemma (sequences and multisets), used by `RankDistinct`: a sequence without repeats holds each element at most once. |
| RouteAggregation.ActiveUsers | functions/index.js:83-86 | The query returns exactly the ids of users with `is_active == true`, and no more ids than there are users. |
| RouteAggregation.ActiveUsersAppend | functions/index.js:83-86 | The query keeps the store's order and multiplicity: filtering `a + b` gives the filtered `a` followed by the filtered `b`. |
| RouteAggregation.RecentRoutes | functions/index.js:92-97 | The window holds exactly the entries with `created_at > now - 86400000`, and no more entries than the history. |
| RouteAggregation.RecentRoutesAppend | functions/index.js:92-97 | The window keeps the history's order and multiplicity: filtering `a + b` gives the filtered `a` followed by the filtered `b`. |
| RouteAggregation.Window | functions/index.js:92-97 | The user's window holds exactly the entries of that user's history with `created_at > now - 86400000`; a user without history has none. |
| RouteAggregation.FavoriteDestinations | functions/index.js:124-127 | `.map(([placeId, count]) => ({place_id: placeId, count}))` of the ranking. It has no contract of its own; `FavoriteDestinationsAreVisits` and `FavoriteDestinationsAreTop` state its properties. |
| RouteAggregation.FavoriteDestinationsAreVisits | functions/index.js:124-127 | `favorite_destinations` has min(5, distinct destinations) entries, counts non-increasing. Each is a visited place with its exact visit count. |
| RouteAggregation.FavoriteDestinationsDistinct | functions/index.js:104-127 | No place id appears twice in `favorite_destinations`. |
| RouteAggregation.FavoriteDestinationsAreTop | functions/index.js:104-127 | A visited destination left out has no more visits than any destination kept. The Map order is first-encounter order, and equal counts keep that order. |
| RouteAggregation.MetricsFor | functions/index.js:120-128 | The record written for a window: `now`, total distance / 1000, total duration / 60, the favourite destinations. It has no contract of its own; `ComputeMetrics` ties the source's loop to it, and `FavoriteDestinationsAreVisits`, `FavoriteDestinationsAreTop` and `ThreeRoutesExample` state its properties. |
| RouteAggregation.ThreeRoutesTotals | functions/index.js:102-109 | 1000 m + 2000 m + 500 m and 60 s + 120 s + 30 s sum to 3500 m and 210 s. |
| RouteAggregation.ThreeRoutesTally | functions/index.js:104-116 | Visits A, B, A give the Map [(A, 2), (B, 1)]. |
| RouteAggregation.ThreeRoutesRanking | functions/index.js:124-127 | The Map [(A, 2), (B, 1)] ranks as A: 2 then B: 1. |
| RouteAggregation.ThreeRoutesExample | functions/index.js:102-128 | Those three routes give the record (now, 3.5 km, 3.5 min, [A: 2, B: 1]). |
| RouteAggregation.FirstFailure | functions/index.js:88-136 | The index of the first user whose processing throws, or the number of users. No earlier user throws. |
| RouteAggregation.Processed | functions/index.js:83-136 | A failed user query processes nobody. Otherwise the processed users are a prefix of the active users, none of them failing. When the run stops early, the next user is the one that threw. |
| RouteAggregation.WrittenFor | functions/index.js:99-128 | The run writes `user_metrics/u` exactly when it processed `u` and `u` has routes in the window. It writes the metrics of that window. |
| RouteAggregation.WrittenOnlyMetrics | functions/index.js:120 | The run writes nothing but `user_metrics` documents. |
| RouteAggregation.RunResult | functions/index.js:83-136 | After the run, each processed user with recent routes has the metrics of their window. Every other document, including the metrics of skipped and unprocessed users, is as it was. |
| RouteAggregation.WrittenStep | functions/index.js:88-128 | Processing one more user adds exactly that user's metrics document, if they have recent routes. |
| RouteAggregation.OverrideUpdate | functions/index.js:120 | Helper lemma (map algebra), used by `WrittenStep`: writing one document after a run's writes is the same as adding it to them. |
| RouteAggregation.ComputeMetrics | functions/index.js:101-127 | The fold and the record built from it equal `MetricsFor(window, now)`. |
| RouteAggregation.AggregateUser | functions/index.js:92-128 | A user with no routes in the window is skipped. Otherwise only `user_metrics/uid` changes, to the metrics of the window. |
| RouteAggregation.AggregateRouteData | functions/index.js:79-136 | After the run, the store is the old store plus `Written(Processed(...))`. It processes the active users in order and stops at the first one that throws, keeping what was already written. |

## Left out

- Firebase plumbing is not modelled: `onCall`, `onSchedule` (schedule and time zone), `initializeApp` and the callable's response object. Only the success or error outcome is kept.
- `logger.info` and `logger.error` are not modelled. They produce output only.
- The exact error messages are not modelled: `deleteUserAccount` reports one of three error kinds, with the messages in comments. `aggregateRouteData` returns `null` in every case, so it has no result.
- Floating point is not modelled. `recent_distance` and `recent_duration` are exact reals (`total / 1000`, `total / 60`), and the sums are unbounded integers.
- JavaScript's truthiness over non-number values is not modelled. `distance.value` and `duration.value` are integers or absent; a string or `NaN` value, and how `+=` would then concatenate or poison, are not modelled.
- `update` on a missing `user_metrics/uid` document is not modelled. In the store this throws and would end the run; the model treats the update as a write that always succeeds.
- Firestore.Database.Update: writes the whole record. A merge onto an existing document is modelled as replacing it, because the model's metrics document has only the four fields the update sets.
- The batch size limit of the store is not modelled (500 writes per batch).
- Concurrency between invocations and between the awaited calls is not modelled. Each run sees one consistent store.
- The order of documents in a query result is an input (the `users` sequence, and each history sequence), not a model of the store's ordering.
- `created_at` is a number of milliseconds rather than a Timestamp. `last_active` (the server timestamp) is the run's `now`.
- `data.userId` of another type (for example a number) is not modelled: it is a string or absent. With strict `!==` any other value is rejected, just as any different string is. An absent `data` is modelled as its own failure (`MissingData`).
- Which calls throw in `aggregateRouteData` (a route query or an update for a given user) is an input set. The model does not say why they throw.
