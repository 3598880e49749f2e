/** The local database: the tables, what every committed state satisfies, and the row operations of the models. */
module Tables {
  import opened Domain

  datatype Db = Db(
    repos: map<nat, Repo>,
    assoc: set<(nat, nat)>,                    // vcs_repository_users: (repository row, user)
    identities: map<(string, string), nat>,    // (method, external id) -> local user
    lastSync: map<(string, nat), nat>,         // (provider, user) -> time of the last sync
    nextId: nat)                               // no row has used this id or a later one

  ghost predicate HasKey(db: Db, id: nat, p: string, r: string) {
    id in db.repos && db.repos[id].provider == p && db.repos[id].providerId == r
  }

  /** The unique constraint on (provider, provider_id). */
  ghost predicate UniqueKeys(db: Db) {
    forall a, b :: a in db.repos && b in db.repos
      && db.repos[a].provider == db.repos[b].provider && db.repos[a].providerId == db.repos[b].providerId
      ==> a == b
  }

  ghost predicate Valid(db: Db) {
    && UniqueKeys(db)
    && (forall id :: id in db.repos ==> id < db.nextId)
    && (forall x :: x in db.assoc ==> x.0 in db.repos)
  }

  /** What the service's own operations make of the rows they write. It is no constraint of the tables: rows that were
      written by others, such as a data migration, need not be like this. */
  ghost predicate RowsWellFormed(db: Db) {
    forall id :: id in db.repos ==> db.repos[id].WellFormed()
  }

  /** `Repository.get(p, r)`: the primary key of the row, if there is one. */
  ghost function Lookup(db: Db, p: string, r: string): (id: Option<nat>)
    ensures id.Some? ==> HasKey(db, id.value, p, r)
    ensures id.None? ==> forall k: nat :: !HasKey(db, k, p, r)
    ensures UniqueKeys(db) ==> forall k: nat :: HasKey(db, k, p, r) ==> id == Some(k)
  {
    if id :| HasKey(db, id, p, r) then Some(id) else None
  }

  ghost function UsersOf(db: Db, id: nat): set<nat> {
    set x | x in db.assoc && x.0 == id :: x.1
  }

  /** The provider ids that `user_available_repositories` shows to a user. */
  ghost function Available(db: Db, p: string, u: nat): set<string> {
    set x | x in db.assoc && x.1 == u && x.0 in db.repos && db.repos[x.0].provider == p :: db.repos[x.0].providerId
  }

  /** The row of r among the user's available repositories. */
  ghost function AvailableRow(db: Db, p: string, u: nat, r: string): Option<nat> {
    match Lookup(db, p, r)
    case Some(id) => if (id, u) in db.assoc then Some(id) else None
    case None => None
  }

  function WithRow(db: Db, id: nat, row: Repo): Db {
    db.(repos := db.repos[id := row])
  }

  /** The tables as the service's session sees them. */
  class Database {
    var repos: map<nat, Repo>
    var assoc: set<(nat, nat)>
    var identities: map<(string, string), nat>
    var lastSync: map<(string, nat), nat>
    var nextId: nat

    ghost function Snap(): Db
      reads this
    {
      Db(repos, assoc, identities, lastSync, nextId)
    }

    method Get(p: string, r: string) returns (id: Option<nat>)
      requires UniqueKeys(Snap())
      ensures id == Lookup(Snap(), p, r)
    {
      if k :| k in repos && repos[k].provider == p && repos[k].providerId == r {
        assert HasKey(Snap(), k, p, r);
        return Some(k);
      }
      assert forall k: nat :: !HasKey(Snap(), k, p, r);
      return None;
    }

    method GetAvailable(p: string, u: nat, r: string) returns (id: Option<nat>)
      requires UniqueKeys(Snap())
      ensures id == AvailableRow(Snap(), p, u, r)
    {
      id := Get(p, r);
      if id.Some? && (id.value, u) !in assoc {
        id := None;
      }
    }

    method Create(row: Repo) returns (id: nat)
      modifies this`repos, this`nextId
      ensures id == old(nextId) && nextId == id + 1
      ensures repos == old(repos)[id := row]
    {
      id := nextId;
      repos := repos[id := row];
      nextId := nextId + 1;
    }

    /** Inserting a primary key twice is the database's IntegrityError. */
    method AddUser(id: nat, u: nat) returns (ok: bool)
      modifies this`assoc
      ensures ok <==> (id, u) !in old(assoc)
      ensures assoc == old(assoc) + {(id, u)}
    {
      ok := (id, u) !in assoc;
      assoc := assoc + {(id, u)};
    }

    method RemoveUser(id: nat, u: nat)
      modifies this`assoc
      ensures assoc == old(assoc) - {(id, u)}
    {
      assoc := assoc - {(id, u)};
    }

    /** GenericRepository.update_model: overwrite the columns that differ, one by one. */
    method UpdateModel(id: nat, g: GenericRepository)
      requires id in repos
      modifies this`repos
      ensures repos == old(repos)[id := old(repos)[id].Refreshed(g)]
    {
      if repos[id].fullName != g.fullName {
        repos := repos[id := repos[id].(fullName := g.fullName)];
      }
      if repos[id].defaultBranch != g.defaultBranch {
        repos := repos[id := repos[id].(defaultBranch := g.defaultBranch)];
      }
      if repos[id].description != g.description {
        repos := repos[id := repos[id].(description := g.description)];
      }
    }
  }
}
