/**
 * The document-store schema shared by the two Cloud Functions: document
 * paths, the collections they use, and the documents they read or write.
 */
module Schema {

  /** A Firebase user id (also the id of the user's documents). */
  type Uid = string

  /** A document or collection path, one segment per element: `users/u/saved_maps`. */
  type Path = seq<string>

  const UsersCollection := "users"
  const SavedMapsCollection := "saved_maps"
  const RouteHistoryCollection := "route_history"
  const UserMetricsCollection := "user_metrics"

  /** `users/uid`, the user's profile document. */
  function UserPath(uid: Uid): Path { [UsersCollection, uid] }

  /** `users/uid/saved_maps`, a subcollection. */
  function SavedMapsPath(uid: Uid): Path { [UsersCollection, uid, SavedMapsCollection] }

  /** `users/uid/route_history`, a subcollection. */
  function RouteHistoryPath(uid: Uid): Path { [UsersCollection, uid, RouteHistoryCollection] }

  /** `user_metrics/uid`, the aggregated metrics of the user. */
  function MetricsPath(uid: Uid): Path { [UserMetricsCollection, uid] }

  /** A document directly inside collection `coll` (not in a deeper subcollection). */
  predicate InCollection(p: Path, coll: Path) {
    |p| == |coll| + 1 && p[..|coll|] == coll
  }

  /** One element of `favorite_destinations`: `{place_id, count}`. */
  datatype Destination = Destination(placeId: string, count: nat)

  /**
   * The fields the aggregation writes into `user_metrics/uid`. Distances and
   * durations are exact rationals here (kilometres and minutes).
   */
  datatype UserMetrics = UserMetrics(
    lastActive: int,
    recentDistance: real,
    recentDuration: real,
    favoriteDestinations: seq<Destination>)

  /** A stored document: a metrics record, or any other document (fields opaque). */
  datatype Doc =
    | MetricsDoc(metrics: UserMetrics)
    | OtherDoc(fields: map<string, string>)
}
