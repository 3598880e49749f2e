/** Results about one repository's members, and about components that meet in one row. */
module Interplay {
  import opened Domain
  import opened Tables
  import opened Provider
  import opened SyncSpec
  import opened Service
  import opened Confluence
  import opened Rounds
  import opened Convergence
  import opened Batches
  import opened HookInvariants
  import opened Disconnect
  import opened Handlers
  import opened System
  import opened SystemConvergence
  import Migration
  import MigrationProofs

  // ---------- sync_repo_users ----------

  /** The external id at position k of the admin list is linked to local user v. */
  predicate LinkedTo(identities: map<(string, string), nat>, p: string, ids: seq<string>, k: int, v: nat) {
    0 <= k < |ids| && (p, ids[k]) in identities && identities[(p, ids[k])] == v
  }

  /** Two positions of the admin list are linked to v. */
  ghost predicate LinkedTwice(identities: map<(string, string), nat>, p: string, ids: seq<string>, v: nat) {
    exists a, b :: a < b && LinkedTo(identities, p, ids, a, v) && LinkedTo(identities, p, ids, b, v)
  }

  lemma {:induction false} ResolvedTwice(identities: map<(string, string), nat>, p: string, ids: seq<string>, v: nat)
    ensures (exists i, j :: 0 <= i < j < |Resolve(identities, p, ids)|
              && Resolve(identities, p, ids)[i] == v && Resolve(identities, p, ids)[j] == v)
      <==> LinkedTwice(identities, p, ids, v)
  {
    if ids != [] {
      var rest, last := ids[..|ids| - 1], |ids| - 1;
      ResolvedTwice(identities, p, rest, v);
      ResolveMembers(identities, p, rest, v);
      assert forall k :: k < last ==> (LinkedTo(identities, p, rest, k, v) <==> LinkedTo(identities, p, ids, k, v));
      var us, ws := Resolve(identities, p, ids), Resolve(identities, p, rest);
      if a, b :| a < b && LinkedTo(identities, p, ids, a, v) && LinkedTo(identities, p, ids, b, v) && b == last {
        assert LinkedTo(identities, p, rest, a, v);
        var i :| 0 <= i < |ws| && ws[i] == v;
        assert us[i] == v && us[|ws|] == v;
      }
      if i, j :| 0 <= i < j < |ws| && ws[i] == v && ws[j] == v {
        assert us[i] == v && us[j] == v;
      }
      if i, j :| 0 <= i < j < |us| && us[i] == v && us[j] == v && j == |ws| {
        assert ws[i] == v;
        var a :| 0 <= a < |rest| && (p, rest[a]) in identities && identities[(p, rest[a])] == v;
        assert LinkedTo(identities, p, ids, a, v) && LinkedTo(identities, p, ids, last, v);
      }
    }
  }

  /** From db to d, row id's members became the users linked to the ids, and nothing else changed. */
  ghost predicate OnlyMembers(db: Db, p: string, ids: seq<string>, id: nat, d: Db) {
    && d == db.(assoc := d.assoc)
    && (forall v: nat :: (id, v) in d.assoc <==> exists k :: LinkedTo(db.identities, p, ids, k, v))
    && (forall x: (nat, nat) :: x.0 != id ==> (x in d.assoc <==> x in db.assoc))
  }

  /** sync_repo_users by a user who reaches the repository fails exactly when two entries of the admin list are
      linked to one local user who is not a member yet; otherwise the members become the linked admins, and nothing
      else changes. */
  lemma MembersFollowAdmins(db: Db, w: World, u: nat, p: string, r: string, id: nat)
    requires Valid(db) && HasKey(db, id, p, r) && ReachOf(w, u, r).Full?
    ensures var ids := if r in w.admins then w.admins[r] else [];
      if exists v: nat :: (id, v) !in db.assoc && LinkedTwice(db.identities, p, ids, v)
      then UserSync(db, w, u, p, r) == Raised(IntegrityError)
      else UserSync(db, w, u, p, r).Ok? && OnlyMembers(db, p, ids, id, UserSync(db, w, u, p, r).value)
  {
    var ids := if r in w.admins then w.admins[r] else [];
    var us := Resolve(db.identities, p, ids);
    assert Lookup(db, p, r) == Some(id);
    TwiceIsLinkedTwice(db, p, ids, id);
    if !InsertsTwice(us, UsersOf(db, id)) {
      var d := WithUsers(db, id, us);
      forall v: nat
        ensures (id, v) in d.assoc <==> exists k :: LinkedTo(db.identities, p, ids, k, v)
      {
        ResolveMembers(db.identities, p, ids, v);
        assert (id, v) in d.assoc <==> v in us;
        if k :| 0 <= k < |ids| && (p, ids[k]) in db.identities && db.identities[(p, ids[k])] == v {
          assert LinkedTo(db.identities, p, ids, k, v);
        }
      }
      assert UserSync(db, w, u, p, r) == Ok(d);
    }
  }

  lemma TwiceIsLinkedTwice(db: Db, p: string, ids: seq<string>, id: nat)
    ensures InsertsTwice(Resolve(db.identities, p, ids), UsersOf(db, id)) <==>
      exists v: nat :: (id, v) !in db.assoc && LinkedTwice(db.identities, p, ids, v)
  {
    var us := Resolve(db.identities, p, ids);
    if i, j :| 0 <= i < j < |us| && us[i] == us[j] && us[i] !in UsersOf(db, id) {
      ResolvedTwice(db.identities, p, ids, us[i]);
      assert (id, us[i]) !in db.assoc;
    }
    if v: nat :| (id, v) !in db.assoc && LinkedTwice(db.identities, p, ids, v) {
      ResolvedTwice(db.identities, p, ids, v);
    }
  }

  // ---------- from the dispatched tasks to convergence ----------

  lemma TasksCover(w: World, p: string, u: nat, size: nat, ts: seq<TaskStep>)
    requires size > 0
    requires forall task :: task in Tasks(UserTask, p, u, Slices(Ids(Listing(w, u)), size)) ==>
      forall t :: t in StepsOf(UserTask, u, task.repos) ==> t in ts
    ensures CoversMembers(w, u, ts)
  {
    var ids := Ids(Listing(w, u));
    var tasks := Tasks(UserTask, p, u, Slices(ids, size));
    forall r | r in ids
      ensures MemberStep(u, r) in ts
    {
      SlicesPartition(ids, size);
      var k := ConcatSource(Slices(ids, size), r);
      assert tasks[k] in tasks;
      var i :| 0 <= i < |tasks[k].repos| && tasks[k].repos[i] == r;
      assert StepsOf(UserTask, u, tasks[k].repos)[i] == MemberStep(u, r);
    }
  }

  /** A sync and the members tasks it queues, executed step by step in any interleaving with each other, with
      repetitions and with other users' members tasks, leave the user with exactly the listed repositories. */
  lemma SyncAndTasksConverge(db: Db, w: World, p: string, u: nat, ext: string, now: nat, size: nat, ts: seq<TaskStep>)
    requires Valid(db) && Contract(db, w, p, u, ext) && size > 0
    requires forall task :: task in Tasks(UserTask, p, u, Slices(Ids(Listing(w, u)), size)) ==>
      forall t :: t in StepsOf(UserTask, u, task.repos) ==> t in ts
    ensures Available(Round(db, w, p, u, now, ts), p, u) == set r | r in Ids(Listing(w, u))
  {
    TasksCover(w, p, u, size, ts);
    AssociationsConverge(db, w, p, u, ext, now, ts);
  }

  lemma MemberNeverBlocks(d: Db, w: World, p: string, u: nat, r: string)
    requires Lookup(d, p, r).Some? && ReachOf(w, u, r).Full? && Distinct(Admins(d, w, p, r))
    ensures !Blocks(d, w, p, MemberStep(u, r), {})
  {
    assert Outcome(d, w, p, MemberStep(u, r)) == UserSync(d, w, u, p, r);
  }

  lemma HookBlocks(d: Db, w: World, p: string, u: nat, r: string)
    requires Lookup(d, p, r).Some? && ReachOf(w, u, r).Full?
    ensures Blocks(d, w, p, HookStep(u, r), {}) <==> exists a, b :: Ours(w, r, a) && Ours(w, r, b) && a != b
  {
    assert Outcome(d, w, p, HookStep(u, r)) == HookSync(d, w, u, p, r);
  }

  /** Right after a sync, under the contract, none of the steps that it dispatches raises what would end a task, save
      that a hook step does exactly where two hooks of ours exist. */
  lemma DispatchedStepBlocks(db: Db, w: World, p: string, u: nat, ext: string, now: nat, r: string)
    requires Valid(db) && Contract(db, w, p, u, ext) && r in Ids(Listing(w, u))
    ensures var d := Sync(db, p, u, Listing(w, u), now);
      && !Blocks(d, w, p, MemberStep(u, r), {})
      && (Blocks(d, w, p, HookStep(u, r), {}) <==> exists a, b :: Ours(w, r, a) && Ours(w, r, b) && a != b)
  {
    var d := Sync(db, p, u, Listing(w, u), now);
    SyncRefines(db, p, u, Listing(w, u), now);
    SyncKeepsContract(db, w, p, u, ext, now);
    ListedEntry(Listing(w, u), r);
    ContractAdmins(d, w, p, u, ext, r);
    MemberNeverBlocks(d, w, p, u, r);
    HookBlocks(d, w, p, u, r);
  }

  /** The tasks complete: after a sync under the contract, and after any batch steps of any users (earlier attempts at
      the same task among them), an attempt at a task that the sync dispatched gets through all its repositories,
      provided the provider answers and, for a hook task, no listed repository has two hooks of ours. */
  lemma DispatchedTaskCompletes(db: Db, w: World, p: string, u: nat, ext: string, now: nat, size: nat, kind: TaskKind,
                                task: BatchTask, mix: seq<TaskStep>, done: nat)
    requires Valid(db) && Contract(db, w, p, u, ext) && size > 0
    requires task in Tasks(kind, p, u, Slices(Ids(Listing(w, u)), size))
    requires kind == HookTask ==> forall r, a, b :: r in Ids(Listing(w, u)) && Ours(w, r, a) && Ours(w, r, b) ==> a == b
    requires var d := Sync(db, p, u, Listing(w, u), now);
      Attempt(Run(d, w, p, mix), w, p, StepsOf(kind, u, task.repos), {}, done)
    ensures done == |task.repos|
  {
    var d, ts := Sync(db, p, u, Listing(w, u), now), StepsOf(kind, u, task.repos);
    SyncKeepsContract(db, w, p, u, ext, now);
    if done < |ts| {
      var r := task.repos[done];
      TaskLists(kind, p, u, Ids(Listing(w, u)), size, task, done);
      DispatchedStepBlocks(db, w, p, u, ext, now, r);
      RunAppend(d, w, p, mix, ts[..done]);
      BlocksStable(d, w, p, mix + ts[..done], ts[done]);
      assert false;
    }
  }

  lemma TaskLists(kind: TaskKind, p: string, u: nat, ids: seq<string>, size: nat, task: BatchTask, i: nat)
    requires size > 0 && task in Tasks(kind, p, u, Slices(ids, size)) && i < |task.repos|
    ensures task.repos[i] in ids
  {
    var k :| 0 <= k < |Slices(ids, size)| && Tasks(kind, p, u, Slices(ids, size))[k] == task;
    SlicesPartition(ids, size);
    ConcatMember(Slices(ids, size), k, task.repos[i]);
  }

  /** The same inside runs: in every state after a sync of u, reached by any steady steps of anyone, no step of a task
      that the sync dispatched raises what would end the task, as long as the provider answers. */
  lemma DispatchedNeverBlocks(s: State, c: Config, p: string, u: nat, ext: string, now: nat, ts: seq<Step>, r: string)
    requires Contracted(s, p, u, ext) && SteadyRun(s, c, p, u, [On(p, SyncOp(u, now))] + ts)
    requires r in Ids(Listing(s.worlds[p], u))
    ensures var z := StateAfter(s, c, [On(p, SyncOp(u, now))] + ts);
      && p in z.worlds
      && !Blocks(z.db, z.worlds[p], p, MemberStep(u, r), {}) && !Blocks(z.db, z.worlds[p], p, HookStep(u, r), {})
  {
    var sync := On(p, SyncOp(u, now));
    SteadyTail(s, c, p, u, [sync], ts);
    StateAfterOne(s, c, sync);
    StateAfterCons(s, c, sync, ts);
    ContractStep(s, c, p, u, ext, sync);
    SyncSyncs(s.db, s.worlds[p], p, u, now);
    Converging(Next(s, c, sync), c, p, u, ext, ts);
    var z := StateAfter(s, c, [sync] + ts);
    ContractAdmins(z.db, z.worlds[p], p, u, ext, r);
    MemberNeverBlocks(z.db, z.worlds[p], p, u, r);
    HookBlocks(z.db, z.worlds[p], p, u, r);
  }

  // ---------- disconnect meets the batch tasks ----------

  lemma CapturedHookGone(e: Db, w: World, p: string, u: nat, list: seq<Captured>, r: string, n: nat, x: Weather)
    requires Valid(e) && (r, Digits(n)) in list && Granted(w, u, x, r) && Clean(e, w, u, p, list, x).revoked
    ensures n !in HooksOf(Clean(e, w, u, p, list, x).world, r)
  {
    CleanExactly(e, w, u, p, list, x);
    assert list[..|list|] == list;
    assert Deletes(w, u, list, x, r, n);
  }

  /** A hook sync of another user between handler and cleanup enables a captured row again, under the captured hook; a
      cleanup that is granted the deletion of that hook leaves the row enabled without it. */
  lemma ReenabledRowLosesHook(db: Db, w: World, p: string, u: nat, ext: Option<string>, list: seq<Captured>, id: nat,
                              n: nat, v: nat, x: Weather)
    requires Valid(db) && OneHook(w) && Captures(db, p, u, list)
    requires HasHook(db, p, u, id) && db.repos[id].hook == Some(Digits(n)) && Ours(w, db.repos[id].providerId, n)
    requires ReachOf(w, v, db.repos[id].providerId).Full? && Granted(w, u, x, db.repos[id].providerId)
    ensures var r := db.repos[id].providerId;
      var e := Apply(AfterHandler(db, p, u, ext), w, p, HookStep(v, r));
      var clean := Clean(e, w, u, p, list, x);
      && id in e.repos && e.repos[id].hook == Some(Digits(n)) && e.repos[id].enabledBy == Some(v)
      && (clean.revoked ==> n !in HooksOf(clean.world, r) && !LiveRow(e.repos[id], clean.world))
  {
    var d, r := AfterHandler(db, p, u, ext), db.repos[id].providerId;
    HandlerForgets(db, w, p, u, ext);
    NeverMultiple(w, v, r);
    OneHookSync(d, w, p, id, r, v);
    var e := Apply(d, w, p, HookStep(v, r));
    assert CapturedFrom(db, p, u, (r, Digits(n)), id);
    if Clean(e, w, u, p, list, x).revoked {
      CapturedHookGone(e, w, p, u, list, r, n, x);
    }
  }

  // ---------- a migrated null hook meets the disconnect ----------

  /** The rows by primary key. */
  function ByKey(rows: seq<Migration.Row>): map<nat, Repo> {
    if rows == [] then map[] else ByKey(rows[..|rows| - 1])[rows[|rows| - 1].id := rows[|rows| - 1].repo]
  }

  lemma {:induction false} ByKeyRows(rows: seq<Migration.Row>)
    requires MigrationProofs.UniqueIds(rows)
    ensures forall i :: 0 <= i < |rows| ==> rows[i].id in ByKey(rows) && ByKey(rows)[rows[i].id] == rows[i].repo
    ensures forall k :: k in ByKey(rows) ==> MigrationProofs.HasId(rows, k)
  {
    if rows != [] {
      var rest, last := rows[..|rows| - 1], rows[|rows| - 1];
      ByKeyRows(rest);
      forall k | k in ByKey(rows)
        ensures MigrationProofs.HasId(rows, k)
      {
        if k == last.id {
          assert rows[|rows| - 1].id == k;
        } else {
          assert MigrationProofs.HasId(rest, k);
          var i :| 0 <= i < |rest| && rest[i].id == k;
          assert rows[i].id == k;
        }
      }
    }
  }

  /** db holds the migrated repositories. */
  ghost predicate Holds(db: Db, rows: seq<Migration.Row>) {
    && db.repos == ByKey(rows)
    && (forall id :: id in db.repos ==> id < db.nextId)
    && (forall x :: x in db.assoc ==> x.0 in db.repos)
  }

  /** Migrated tables are valid, whatever GitHub ids repeat and whatever null columns the old rows had, so what is
      proved of valid tables holds of them; and they are well-formed exactly when the migrated rows are. */
  lemma MigratedTablesAreValid(t: Migration.Table, es: seq<Migration.Entry>, os: seq<Migration.OldRepo>, db: Db)
    requires MigrationProofs.Migratable(t, os)
    requires Holds(db, Migration.AdoptAll(Migration.UpsertAll(t, es), os).rows)
    ensures Valid(db)
    ensures RowsWellFormed(db)
      <==> MigrationProofs.AllWellFormed(Migration.AdoptAll(Migration.UpsertAll(t, es), os).rows)
  {
    var rows := Migration.AdoptAll(Migration.UpsertAll(t, es), os).rows;
    MigrationProofs.MigratedKeys(t, es, os);
    ByKeyRows(rows);
    forall a, b | a in db.repos && b in db.repos
      && db.repos[a].provider == db.repos[b].provider && db.repos[a].providerId == db.repos[b].providerId
      ensures a == b
    {
      assert MigrationProofs.HasId(rows, a) && MigrationProofs.HasId(rows, b);
      var i :| 0 <= i < |rows| && rows[i].id == a;
      var j :| 0 <= j < |rows| && rows[j].id == b;
    }
    if RowsWellFormed(db) {
      forall i | 0 <= i < |rows|
        ensures rows[i].repo.WellFormed()
      {
        assert db.repos[rows[i].id].WellFormed();
      }
    }
    if MigrationProofs.AllWellFormed(rows) {
      forall id | id in db.repos
        ensures db.repos[id].WellFormed()
      {
        assert MigrationProofs.HasId(rows, id);
        var i :| 0 <= i < |rows| && rows[i].id == id;
      }
    }
  }

  /** A null hook that the migration wrote as text makes the row enabled, so a disconnect captures it; whatever tables
      and remote the cleanup meets, no attempt gets past the entry while its hooks can be seen. */
  lemma MigratedNullHookBlocksCleanup(db: Db, p: string, u: nat, list: seq<Captured>, id: nat,
                                      o: Migration.OldRepo, row: Migration.Row, d: Db, w: World, x: Weather)
    requires Captures(db, p, u, list) && id in db.repos && (id, u) in db.assoc && db.repos[id].provider == p
    requires o.hook.None? && db.repos[id].hook == Migration.Adopted(row, o).repo.hook
    requires Valid(d) && ReachOf(w, u, db.repos[id].providerId).Full?
    ensures db.repos[id].Enabled() && (db.repos[id].providerId, Other("None")) in list
    ensures !Clean(d, w, u, p, list, x).revoked
  {
    var entry := CaptureOf(db.repos[id]);
    assert CapturedFrom(db, p, u, entry, id);
    assert entry in list && !Walkable(d, w, u, p, entry, x);
    RevokedWhenWalked(d, w, u, p, list, x);
  }
}
