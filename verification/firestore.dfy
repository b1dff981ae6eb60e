/**
 * An in-memory stand-in for the two managed services the functions call:
 * the document store (reads, single-document update, write batches with an
 * all-or-nothing commit) and the identity provider (delete a user record).
 * Where the real service can fail, the caller passes in whether it does.
 */
module Firestore {
  import opened Options
  import opened Schema

  class Database {
    /** Every stored document, by path. */
    var docs: map<Path, Doc>

    constructor (initial: map<Path, Doc>)
      ensures docs == initial
    {
      docs := initial;
    }

    /** The documents directly inside collection `coll`. */
    function DocsIn(coll: Path): set<Path>
      reads this
    {
      set p | p in docs && InCollection(p, coll)
    }

    /** `db.collection(...).get()`: the references of the collection's documents, or a failed read. */
    method Get(coll: Path, fails: bool) returns (snapshot: Option<set<Path>>)
      ensures fails <==> snapshot.None?
      ensures snapshot.Some? ==> forall p :: p in snapshot.value <==> p in docs && InCollection(p, coll)
    {
      if fails {
        snapshot := None;
      } else {
        snapshot := Some(DocsIn(coll));
      }
    }

    /** `doc(...).update(fields)`, every field of the record written. */
    method Update(p: Path, d: Doc)
      modifies this
      ensures docs == old(docs)[p := d]
    {
      docs := docs[p := d];
    }

    /** `db.batch()`: an empty batch bound to this database. */
    method Batch() returns (b: WriteBatch)
      ensures fresh(b) && b.db == this && b.deletes == {}
    {
      b := new WriteBatch(this);
    }
  }

  /** A write batch that only deletes (the only kind the functions build). */
  class WriteBatch {
    const db: Database
    /** The paths staged for deletion. */
    var deletes: set<Path>

    constructor (db: Database)
      ensures this.db == db && deletes == {}
    {
      this.db := db;
      deletes := {};
    }

    /** `batch.delete(ref)`: stage a delete; the store is not touched yet. */
    method Delete(p: Path)
      modifies this
      ensures deletes == old(deletes) + {p}
    {
      deletes := deletes + {p};
    }

    /**
     * `batch.commit()`: all staged deletes take effect together, or none
     * does. Deleting a path that holds no document is not an error.
     */
    method Commit(fails: bool) returns (ok: bool)
      modifies db
      ensures ok == !fails
      ensures ok ==> db.docs == old(db.docs) - deletes
      ensures !ok ==> db.docs == old(db.docs)
    {
      ok := !fails;
      if ok {
        db.docs := db.docs - deletes;
      }
    }
  }

  /** The identity provider's user records. */
  class Auth {
    var accounts: set<Uid>

    constructor (initial: set<Uid>)
      ensures accounts == initial
    {
      accounts := initial;
    }

    /** `auth.deleteUser(uid)`: fails on an unknown uid, or when the service fails. */
    method DeleteUser(uid: Uid, fails: bool) returns (ok: bool)
      modifies this
      ensures ok <==> !fails && uid in old(accounts)
      ensures accounts == if ok then old(accounts) - {uid} else old(accounts)
    {
      ok := !fails && uid in accounts;
      if ok {
        accounts := accounts - {uid};
      }
    }
  }
}
