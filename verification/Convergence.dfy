/** What a sync and the tasks after it establish: the tables follow the remote. */
module Convergence {
  import opened Domain
  import opened Tables
  import opened SyncSpec

  // ---------- one sync transaction, stated without its loops ----------

  /** The row of id is one that the user's sync refreshes. */
  ghost predicate Refreshes(db: Db, p: string, u: nat, xs: seq<GenericRepository>, id: nat) {
    id in db.repos && db.repos[id].provider == p && (id, u) in db.assoc && db.repos[id].providerId in Ids(xs)
  }

  ghost predicate SameButMetadata(a: Repo, b: Repo) {
    && a.provider == b.provider && a.providerId == b.providerId
    && a.hook == b.hook && a.enabledBy == b.enabledBy && a.community == b.community
  }

  ghost predicate OldRows(db: Db, p: string, u: nat, xs: seq<GenericRepository>, d: Db) {
    forall id :: id in db.repos ==>
      && id in d.repos && SameButMetadata(d.repos[id], db.repos[id])
      && if Refreshes(db, p, u, xs, id) then d.repos[id].Shows(Find(xs, db.repos[id].providerId).value)
         else d.repos[id] == db.repos[id]
  }

  /** The row registers the listed repository g: its columns are those of g, and it is not enabled. */
  predicate NewFor(row: Repo, p: string, g: GenericRepository) {
    && row.provider == p && row.providerId == g.id && row.Shows(g)
    && row.hook.None? && row.enabledBy.None? && row.community.None?
  }

  ghost predicate NewRows(db: Db, p: string, xs: seq<GenericRepository>, d: Db) {
    && (forall id :: id in d.repos && id !in db.repos ==>
          exists g :: g in xs && NewFor(d.repos[id], p, g) && Lookup(db, p, g.id).None?)
    && (forall g :: g in xs ==> Lookup(d, p, g.id).Some?)
  }

  ghost predicate Associations(db: Db, p: string, u: nat, xs: seq<GenericRepository>, d: Db) {
    forall id: nat, v: nat :: (id, v) in d.assoc <==>
      if id in db.repos then
        (id, v) in db.assoc && !(v == u && db.repos[id].provider == p && db.repos[id].providerId !in Ids(xs))
      else id in d.repos && v == u
  }

  /** The relational specification of a sync: refresh the rows the user has, drop the associations that are no
      longer listed, register the listed repositories nobody has registered, and nothing else. */
  ghost predicate SyncRelation(db: Db, p: string, u: nat, xs: seq<GenericRepository>, now: nat, d: Db) {
    && OldRows(db, p, u, xs, d) && NewRows(db, p, xs, d) && Associations(db, p, u, xs, d)
    && d.identities == db.identities && d.lastSync == db.lastSync[(p, u) := now]
  }

  ghost predicate Registered(db: Db, p: string, xs: seq<GenericRepository>) {
    forall g :: g in xs ==> Lookup(db, p, g.id).Some?
  }

  ghost predicate CreatedRows(db: Db, p: string, xs: seq<GenericRepository>, d: Db) {
    && (forall id :: id in db.repos ==> id in d.repos && d.repos[id] == db.repos[id])
    && (forall id :: id in d.repos && id !in db.repos ==>
          db.nextId <= id && exists g :: g in xs && NewFor(d.repos[id], p, g) && Lookup(db, p, g.id).None?)
  }

  ghost predicate CreatedAssociations(db: Db, u: nat, d: Db) {
    forall id: nat, v: nat :: (id, v) in d.assoc <==>
      (id, v) in db.assoc || (id in d.repos && id !in db.repos && v == u)
  }

  /** A row that exists is still found when rows are added. */
  lemma LookupKept(db: Db, d: Db, p: string, r: string)
    requires forall id :: id in db.repos ==> HasKey(d, id, db.repos[id].provider, db.repos[id].providerId)
    ensures Lookup(db, p, r).Some? ==> Lookup(d, p, r).Some?
  {
    if Lookup(db, p, r).Some? {
      assert HasKey(d, Lookup(db, p, r).value, p, r);
    }
  }

  lemma CreateOneRegisters(d: Db, p: string, u: nat, xs: seq<GenericRepository>, g: GenericRepository)
    requires Valid(d) && Registered(d, p, xs)
    ensures Registered(CreateOne(d, p, u, g), p, xs + [g])
  {
    var e := CreateOne(d, p, u, g);
    forall x | x in xs + [g]
      ensures Lookup(e, p, x.id).Some?
    {
      LookupKept(d, e, p, x.id);
      if Lookup(d, p, g.id).None? {
        assert HasKey(e, d.nextId, p, g.id);
      }
    }
  }

  lemma CreateOneRows(db: Db, p: string, u: nat, xs: seq<GenericRepository>, d: Db, g: GenericRepository)
    requires Valid(db) && Valid(d) && db.nextId <= d.nextId && CreatedRows(db, p, xs, d)
    ensures CreatedRows(db, p, xs + [g], CreateOne(d, p, u, g))
  {
    var e := CreateOne(d, p, u, g);
    LookupKept(db, d, p, g.id);
    forall id | id in e.repos && id !in db.repos
      ensures db.nextId <= id
      ensures exists x :: x in xs + [g] && NewFor(e.repos[id], p, x) && Lookup(db, p, x.id).None?
    {
      if id in d.repos {
        var x :| x in xs && NewFor(d.repos[id], p, x) && Lookup(db, p, x.id).None?;
        assert x in xs + [g];
      } else {
        assert g in xs + [g];
      }
    }
  }

  lemma CreateOneAssociations(db: Db, p: string, u: nat, xs: seq<GenericRepository>, d: Db, g: GenericRepository)
    requires Valid(db) && Valid(d) && db.nextId <= d.nextId
    requires CreatedRows(db, p, xs, d) && CreatedAssociations(db, u, d)
    ensures CreatedAssociations(db, u, CreateOne(d, p, u, g))
  {
    var e := CreateOne(d, p, u, g);
    forall id: nat, v: nat
      ensures (id, v) in e.assoc <==> (id, v) in db.assoc || (id in e.repos && id !in db.repos && v == u)
    {
      assert (id, v) in d.assoc <==> (id, v) in db.assoc || (id in d.repos && id !in db.repos && v == u);
    }
  }

  /** Everything that holds of the tables d after the rows for xs were created in the tables db. */
  ghost predicate Created(db: Db, p: string, u: nat, xs: seq<GenericRepository>, d: Db) {
    && Valid(d) && db.nextId <= d.nextId && Registered(d, p, xs)
    && CreatedRows(db, p, xs, d) && CreatedAssociations(db, u, d)
    && d.identities == db.identities && d.lastSync == db.lastSync
  }

  lemma CreatedNothing(db: Db, p: string, u: nat)
    requires Valid(db)
    ensures Created(db, p, u, [], db)
  {
  }

  lemma CreateOneCreates(db: Db, p: string, u: nat, xs: seq<GenericRepository>, k: nat, d: Db)
    requires Valid(db) && |xs| == k + 1 && Created(db, p, u, xs[..k], d)
    ensures Created(db, p, u, xs, CreateOne(d, p, u, xs[k]))
  {
    var g := xs[k];
    assert xs == xs[..k] + [g];
    CreateOneValid(d, p, u, g);
    CreateOneRegisters(d, p, u, xs[..k], g);
    CreateOneRows(db, p, u, xs[..k], d, g);
    CreateOneAssociations(db, p, u, xs[..k], d, g);
  }

  lemma {:induction false} CreateMissingCreates(db: Db, p: string, u: nat, xs: seq<GenericRepository>)
    requires Valid(db)
    ensures Created(db, p, u, xs, CreateMissing(db, p, u, xs))
    decreases |xs|
  {
    if |xs| == 0 {
      CreatedNothing(db, p, u);
    } else {
      var k := |xs| - 1;
      CreateMissingCreates(db, p, u, xs[..k]);
      CreateOneCreates(db, p, u, xs, k, CreateMissing(db, p, u, xs[..k]));
    }
  }

  /** The sync transaction refines its relational specification. */
  lemma SyncRefines(db: Db, p: string, u: nat, xs: seq<GenericRepository>, now: nat)
    requires Valid(db)
    ensures Valid(Sync(db, p, u, xs, now)) && SyncRelation(db, p, u, xs, now, Sync(db, p, u, xs, now))
  {
    RefreshPruneValid(db, p, u, xs);
    var base := Prune(Refresh(db, p, u, xs), p, u, xs);
    CreateMissingCreates(base, p, u, xs);
    var d := Sync(db, p, u, xs, now);
    SyncRows(db, p, u, xs, now);
    forall id: nat, v: nat
      ensures (id, v) in d.assoc <==>
        if id in db.repos then (id, v) in db.assoc && !Stale(db, (id, v), p, u, Ids(xs)) else id in d.repos && v == u
    {
      assert id in db.repos <==> id in base.repos;
    }
  }

  lemma SyncRows(db: Db, p: string, u: nat, xs: seq<GenericRepository>, now: nat)
    requires Valid(db)
    ensures OldRows(db, p, u, xs, Sync(db, p, u, xs, now)) && NewRows(db, p, xs, Sync(db, p, u, xs, now))
  {
    RefreshPruneValid(db, p, u, xs);
    var base := Prune(Refresh(db, p, u, xs), p, u, xs);
    CreateMissingCreates(base, p, u, xs);
    var made := CreateMissing(base, p, u, xs);
    SyncOldRows(db, p, u, xs, base, made);
    PrunedKeys(db, p, u, xs, base);
    SyncNewRows(db, p, u, xs, base, made);
  }

  lemma SyncOldRows(db: Db, p: string, u: nat, xs: seq<GenericRepository>, base: Db, made: Db)
    requires base == Prune(Refresh(db, p, u, xs), p, u, xs) && CreatedRows(base, p, xs, made)
    ensures OldRows(db, p, u, xs, made)
  {
    forall id | id in db.repos
      ensures made.repos[id] == RefreshedRow(db, id, p, u, xs)
    {
      assert id in base.repos;
    }
  }

  lemma PrunedKeys(db: Db, p: string, u: nat, xs: seq<GenericRepository>, base: Db)
    requires base == Prune(Refresh(db, p, u, xs), p, u, xs)
    ensures base.repos.Keys == db.repos.Keys
    ensures forall r :: Lookup(base, p, r).None? ==> Lookup(db, p, r).None?
  {
    forall r: string
      ensures Lookup(base, p, r).None? ==> Lookup(db, p, r).None?
    {
      LookupKept(db, base, p, r);
    }
  }

  lemma SyncNewRows(db: Db, p: string, u: nat, xs: seq<GenericRepository>, base: Db, made: Db)
    requires base.repos.Keys == db.repos.Keys
    requires forall r :: Lookup(base, p, r).None? ==> Lookup(db, p, r).None?
    requires CreatedRows(base, p, xs, made) && Registered(made, p, xs)
    ensures NewRows(db, p, xs, made)
  {
    forall id | id in made.repos && id !in db.repos
      ensures exists g :: g in xs && NewFor(made.repos[id], p, g) && Lookup(db, p, g.id).None?
    {
      var g :| g in xs && NewFor(made.repos[id], p, g) && Lookup(base, p, g.id).None?;
    }
  }
}
