/**
 * `deleteUserAccount`: a signed-in user deletes their own account. All of
 * the user's documents go in one atomic batch; the identity record is
 * deleted only after that batch has committed.
 */
module AccountDeletion {
  import opened Options
  import opened Schema
  import opened Firestore

  /** The callable's payload: `data.userId`, which may be absent. */
  datatype Payload = Payload(userId: Option<string>)

  /** The callable request: the caller's uid when signed in, and the payload, which may be absent. */
  datatype Request = Request(auth: Option<Uid>, data: Option<Payload>)

  datatype CallError =
    | Unauthenticated   // "You must be logged in to delete your account."
    | MissingData       // reading `userId` of an absent payload throws a TypeError
    | PermissionDenied  // "You can only delete your own account."
    | DeletionFailed    // "Error deleting account: " + the store's or the provider's message

  datatype Outcome = Deleted | Failed(error: CallError)

  /** The first call to a managed service that throws, if any. */
  datatype Fault =
    | NoFault
    | SavedMapsReadFails
    | RouteHistoryReadFails
    | CommitFails
    | DeleteUserFails

  /** Both guards pass: the caller is signed in and asks to delete their own account. */
  predicate Authorized(req: Request) {
    req.auth.Some? && req.data.Some? && req.data.value.userId == Some(req.auth.value)
  }

  /**
   * The documents the batch deletes for `uid`: the profile, the metrics, and
   * every document directly in the two subcollections.
   */
  predicate UserData(p: Path, uid: Uid) {
    || p == UserPath(uid)
    || p == MetricsPath(uid)
    || InCollection(p, SavedMapsPath(uid))
    || InCollection(p, RouteHistoryPath(uid))
  }

  /** The store after the user's batch has committed: everything else, untouched. */
  function Without(docs: map<Path, Doc>, uid: Uid): (r: map<Path, Doc>)
    ensures forall p :: p in r <==> p in docs && !UserData(p, uid)
    ensures forall p :: p in r ==> r[p] == docs[p]
  {
    map p | p in docs && !UserData(p, uid) :: docs[p]
  }

  /** A document of another user is never part of this user's data. */
  lemma OtherUsersUntouched(docs: map<Path, Doc>, uid: Uid, other: Uid, p: Path)
    requires other != uid
    requires UserData(p, other) && p in docs
    ensures p in Without(docs, uid) && Without(docs, uid)[p] == docs[p]
  {
    assert p[1] == other;
  }

  /**
   * The batch the function builds — both subcollection snapshots, the
   * profile and the metrics — deletes exactly the user's data.
   */
  lemma BatchRemovesUserData(
    docs: map<Path, Doc>, uid: Uid, savedMaps: set<Path>, routeHistory: set<Path>)
    requires forall p :: p in savedMaps <==> p in docs && InCollection(p, SavedMapsPath(uid))
    requires forall p :: p in routeHistory <==> p in docs && InCollection(p, RouteHistoryPath(uid))
    ensures docs - (savedMaps + routeHistory + {UserPath(uid), MetricsPath(uid)}) == Without(docs, uid)
  {
    var staged := savedMaps + routeHistory + {UserPath(uid), MetricsPath(uid)};
    forall p | p in docs ensures p in staged <==> UserData(p, uid) {
    }
  }

  /** `snapshot.forEach(doc => batch.delete(doc.ref))`. */
  method StageDeletes(batch: WriteBatch, refs: set<Path>)
    modifies batch
    ensures batch.deletes == old(batch.deletes) + refs
  {
    var pending := refs;
    while pending != {}
      invariant pending <= refs
      invariant batch.deletes == old(batch.deletes) + (refs - pending)
      decreases pending
    {
      var p :| p in pending;
      batch.Delete(p);
      pending := pending - {p};
    }
  }

  method DeleteUserAccount(req: Request, db: Database, auth: Auth, fault: Fault)
    returns (outcome: Outcome)
    modifies db, auth
    // guard 1: no caller identity, nothing happens
    ensures req.auth.None?
            ==> outcome == Failed(Unauthenticated)
                && db.docs == old(db.docs) && auth.accounts == old(auth.accounts)
    // a signed-in call without a payload throws before the ownership check
    ensures req.auth.Some? && req.data.None?
            ==> outcome == Failed(MissingData)
                && db.docs == old(db.docs) && auth.accounts == old(auth.accounts)
    // guard 2: a caller may only delete their own account
    ensures req.auth.Some? && req.data.Some? && req.data.value.userId != Some(req.auth.value)
            ==> outcome == Failed(PermissionDenied)
                && db.docs == old(db.docs) && auth.accounts == old(auth.accounts)
    // a failed read or commit leaves both the store and the identity record as they were
    ensures Authorized(req) && fault in {SavedMapsReadFails, RouteHistoryReadFails, CommitFails}
            ==> outcome == Failed(DeletionFailed)
                && db.docs == old(db.docs) && auth.accounts == old(auth.accounts)
    // once the batch commits, exactly the user's documents are gone
    ensures Authorized(req) && fault in {NoFault, DeleteUserFails}
            ==> db.docs == Without(old(db.docs), req.auth.value)
    ensures Authorized(req) && fault == DeleteUserFails
            ==> outcome == Failed(DeletionFailed) && auth.accounts == old(auth.accounts)
    ensures Authorized(req) && fault == NoFault
            ==> auth.accounts == old(auth.accounts) - {req.auth.value}
                && (outcome == Deleted <==> req.auth.value in old(auth.accounts))
                && (outcome != Deleted ==> outcome == Failed(DeletionFailed))
    // ordering: the identity record goes only after the user's data is gone
    ensures auth.accounts != old(auth.accounts)
            ==> outcome == Deleted && forall p :: p in db.docs ==> !UserData(p, req.auth.value)
  {
    if req.auth.None? {
      return Failed(Unauthenticated);
    }
    var uid := req.auth.value;
    if req.data.None? {
      return Failed(MissingData);
    }
    if req.data.value.userId != Some(uid) {
      return Failed(PermissionDenied);
    }

    var batch := db.Batch();

    var savedMaps := db.Get(SavedMapsPath(uid), fault == SavedMapsReadFails);
    if savedMaps.None? {
      return Failed(DeletionFailed);
    }
    StageDeletes(batch, savedMaps.value);

    var routeHistory := db.Get(RouteHistoryPath(uid), fault == RouteHistoryReadFails);
    if routeHistory.None? {
      return Failed(DeletionFailed);
    }
    StageDeletes(batch, routeHistory.value);

    batch.Delete(UserPath(uid));
    batch.Delete(MetricsPath(uid));

    assert batch.deletes == savedMaps.value + routeHistory.value + {UserPath(uid), MetricsPath(uid)};
    BatchRemovesUserData(db.docs, uid, savedMaps.value, routeHistory.value);
    var committed := batch.Commit(fault == CommitFails);
    if !committed {
      return Failed(DeletionFailed);
    }

    var removed := auth.DeleteUser(uid, fault == DeleteUserFails);
    if !removed {
      return Failed(DeletionFailed);
    }
    return Deleted;
  }
}
