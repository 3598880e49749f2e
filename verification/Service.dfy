/** VCSService: the operations of one user against the tables and the remote, and the batch tasks they dispatch. */
module Service {
  import opened Domain
  import opened Tables
  import opened Provider
  import opened SyncSpec
  import opened EnableSpec

  datatype TaskKind = HookTask | UserTask
  datatype BatchTask = BatchTask(kind: TaskKind, provider: string, user: nat, repos: seq<string>)

  /** The slices of `ids` that one dispatch loop hands to tasks. */
  function Slices(ids: seq<string>, size: nat): seq<seq<string>>
    requires size > 0
  {
    if ids == [] then []
    else if |ids| <= size then [ids]
    else [ids[..size]] + Slices(ids[size..], size)
  }

  /** The slices from position i on. */
  function SlicesFrom(ids: seq<string>, size: nat, i: nat): seq<seq<string>>
    requires size > 0
  {
    if i < |ids| then Slices(ids[i..], size) else []
  }

  /** The slice that the loop takes at position i. */
  function SliceAt(ids: seq<string>, size: nat, i: nat): seq<string>
    requires i < |ids|
  {
    ids[i..if i + size < |ids| then i + size else |ids|]
  }

  lemma FirstSlice(ids: seq<string>, size: nat, i: nat)
    requires size > 0 && i < |ids|
    ensures SlicesFrom(ids, size, i) == [SliceAt(ids, size, i)] + SlicesFrom(ids, size, i + size)
  {
    if i + size < |ids| {
      assert ids[i..][..size] == ids[i..i + size] && ids[i..][size..] == ids[i + size..];
    } else {
      assert ids[i..] == ids[i..|ids|];
    }
  }

  function Tasks(kind: TaskKind, p: string, u: nat, slices: seq<seq<string>>): seq<BatchTask> {
    seq(|slices|, k requires 0 <= k < |slices| => BatchTask(kind, p, u, slices[k]))
  }

  /** One iteration: the tasks still to come lose their first, and those sent gain it. */
  lemma OneMoreTask(sent: seq<BatchTask>, kind: TaskKind, p: string, u: nat, ids: seq<string>, size: nat, i: nat)
    requires size > 0 && i < |ids|
    ensures sent + Tasks(kind, p, u, SlicesFrom(ids, size, i))
      == sent + [BatchTask(kind, p, u, SliceAt(ids, size, i))] + Tasks(kind, p, u, SlicesFrom(ids, size, i + size))
  {
    FirstSlice(ids, size, i);
    var rest := SlicesFrom(ids, size, i + size);
    assert Tasks(kind, p, u, [SliceAt(ids, size, i)] + rest)
      == [BatchTask(kind, p, u, SliceAt(ids, size, i))] + Tasks(kind, p, u, rest);
  }

  class VCSService {
    const db: Database
    const vcs: Remote
    const provider: string
    const user: nat
    const batchSize: nat
    var queue: seq<BatchTask>

    constructor (db: Database, vcs: Remote, provider: string, user: nat, batchSize: nat)
      ensures this.db == db && this.vcs == vcs && this.provider == provider
      ensures this.user == user && this.batchSize == batchSize && queue == []
    {
      this.db, this.vcs, this.provider, this.user, this.batchSize := db, vcs, provider, user, batchSize;
      queue := [];
    }

    method Sync(hooks: bool, now: nat)
      requires batchSize > 0 && Valid(db.Snap())
      modifies db, this`queue
      ensures db.Snap() == SyncSpec.Sync(old(db.Snap()), provider, user, Listing(vcs.Snap(), user), now)
      ensures var slices := Slices(Ids(Listing(vcs.Snap(), user)), batchSize);
        queue == old(queue) + (if hooks then Tasks(HookTask, provider, user, slices) else [])
          + Tasks(UserTask, provider, user, slices)
    {
      var xs := if user in vcs.listings then vcs.listings[user] else [];
      RefreshPruneValid(db.Snap(), provider, user, xs);
      RefreshAvailable(xs);
      DropUnlisted(xs);
      CreateListed(xs);
      db.lastSync := db.lastSync[(provider, user) := now];

      var ids := Ids(xs);
      if hooks {
        DispatchBatches(HookTask, ids);
      }
      DispatchBatches(UserTask, ids);
    }

    /** The first loop of sync: refresh the rows that the user already has. */
    method RefreshAvailable(xs: seq<GenericRepository>)
      modifies db`repos
      ensures db.Snap() == Refresh(old(db.Snap()), provider, user, xs)
    {
      ghost var was := db.Snap();
      var rest := set id | id in db.repos && (id, user) in db.assoc && db.repos[id].provider == provider;
      while rest != {}
        invariant rest <= was.repos.Keys && db.repos.Keys == was.repos.Keys
        invariant forall id :: id in rest ==> was.repos[id].provider == provider && (id, user) in was.assoc
        invariant forall id :: id in was.repos ==>
          db.repos[id] == if id in rest then was.repos[id] else RefreshedRow(was, id, provider, user, xs)
        decreases rest
      {
        var id :| id in rest;
        var g := Find(xs, db.repos[id].providerId);
        if g.Some? {
          db.UpdateModel(id, g.value);
        }
        rest := rest - {id};
      }
    }

    /** The delete statement of sync: drop the associations with repositories that are no longer listed. */
    method DropUnlisted(xs: seq<GenericRepository>)
      modifies db`assoc
      ensures db.Snap() == Prune(old(db.Snap()), provider, user, xs)
    {
      var ids := Ids(xs);
      db.assoc := set x | x in db.assoc
        && !(x.1 == user && x.0 in db.repos && db.repos[x.0].provider == provider && db.repos[x.0].providerId !in ids);
    }

    /** The second loop of sync: create the listed repositories that no user has registered yet. */
    method CreateListed(xs: seq<GenericRepository>)
      requires Valid(db.Snap())
      modifies db`repos, db`assoc, db`nextId
      ensures db.Snap() == CreateMissing(old(db.Snap()), provider, user, xs)
    {
      ghost var was := db.Snap();
      for i := 0 to |xs|
        invariant db.Snap() == CreateMissing(was, provider, user, xs[..i])
        invariant Valid(db.Snap())
      {
        ghost var before := db.Snap();
        CreateOneValid(before, provider, user, xs[i]);
        assert xs[..i + 1][..i] == xs[..i];
        var row := db.Get(provider, xs[i].id);
        if row.None? {
          var id := db.Create(NewRepo(provider, xs[i]));
          assert (id, user) !in before.assoc;
          var ok := db.AddUser(id, user);
          assert ok;
        }
        assert db.Snap() == CreateOne(before, provider, user, xs[i]);
      }
      assert xs[..|xs|] == xs;
    }

    /** _sync_hooks and _sync_repo_users: one task for every slice of `batchSize` ids. */
    method DispatchBatches(kind: TaskKind, ids: seq<string>)
      requires batchSize > 0
      modifies this`queue
      ensures queue == old(queue) + Tasks(kind, provider, user, Slices(ids, batchSize))
    {
      var i := 0;
      assert SlicesFrom(ids, batchSize, 0) == Slices(ids, batchSize);
      while i < |ids|
        invariant 0 <= i
        invariant queue + Tasks(kind, provider, user, SlicesFrom(ids, batchSize, i))
          == old(queue) + Tasks(kind, provider, user, SlicesFrom(ids, batchSize, 0))
        decreases |ids| - i
      {
        OneMoreTask(queue, kind, provider, user, ids, batchSize, i);
        queue := queue + [BatchTask(kind, provider, user, SliceAt(ids, batchSize, i))];
        i := i + batchSize;
      }
    }

    // ---------- members of one repository ----------

    method SyncRepoUsers(r: string) returns (res: Result<()>)
      requires Valid(db.Snap())
      modifies db`assoc
      ensures match UserSync(old(db.Snap()), vcs.Snap(), user, provider, r)
        case Ok(d) => res == Ok(()) && db.Snap() == d
        case Raised(e) => res == Raised(e)
    {
      var row := db.Get(provider, r);
      if row.None? {
        return Raised(RepositoryNotFound);
      }
      var id := row.value;
      var ids: seq<string>;
      match vcs.Reaches(user, r)
      case Denied => return Raised(RepositoryAccess);
      case Hidden => return Ok(());
      case Full => ids := if r in vcs.admins then vcs.admins[r] else [];
      var us := LocalUsers(ids);
      // the collection of the ORM object: loaded once, blind to the statements below
      var members := set x | x in db.assoc && x.0 == id :: x.1;
      assert members == UsersOf(old(db.Snap()), id);
      var added := AddMissing(id, us, members);
      if !added {
        return Raised(IntegrityError);
      }
      RemoveOthers(id, us, members);
      return Ok(());
    }

    /** The local users behind the external ids, in order. */
    method LocalUsers(ids: seq<string>) returns (us: seq<nat>)
      ensures us == Resolve(db.identities, provider, ids)
    {
      us := [];
      for i := 0 to |ids|
        invariant us == Resolve(db.identities, provider, ids[..i])
      {
        assert ids[..i + 1][..i] == ids[..i];
        if (provider, ids[i]) in db.identities {
          us := us + [db.identities[(provider, ids[i])]];
        }
      }
      assert ids[..|ids|] == ids;
    }

    /** Inserts a row for every user that is not among the loaded members; false when a row exists already. */
    method AddMissing(id: nat, us: seq<nat>, members: set<nat>) returns (ok: bool)
      requires members == UsersOf(db.Snap(), id)
      modifies db`assoc
      ensures ok <==> !InsertsTwice(us, members)
      ensures ok ==> forall x :: x in db.assoc <==> x in old(db.assoc) || (x.0 == id && x.1 in us)
    {
      ghost var was := db.assoc;
      for i := 0 to |us|
        invariant forall x :: x in db.assoc <==> x in was || (x.0 == id && x.1 in us[..i])
        invariant forall a, b :: 0 <= a < b < i && us[a] == us[b] ==> us[a] in members
      {
        if us[i] !in members {
          assert (id, us[i]) !in was;
          ok := db.AddUser(id, us[i]);
          if !ok {
            return;
          }
        } else {
          assert (id, us[i]) in was;
        }
        assert us[..i + 1] == us[..i] + [us[i]];
      }
      return true;
    }

    /** Walks the loaded members and deletes the rows of those that are not in `us`. */
    method RemoveOthers(id: nat, us: seq<nat>, members: set<nat>)
      modifies db`assoc
      ensures forall x :: x in db.assoc <==> x in old(db.assoc) && !(x.0 == id && x.1 in members && x.1 !in us)
    {
      var rest := members;
      while rest != {}
        invariant rest <= members
        invariant forall x :: x in db.assoc <==>
          x in old(db.assoc) && !(x.0 == id && x.1 in members && x.1 !in rest && x.1 !in us)
        decreases rest
      {
        var v :| v in rest;
        if v !in us {
          db.RemoveUser(id, v);
        }
        rest := rest - {v};
      }
    }

    // ---------- hook of one repository ----------

    method SyncRepoHook(r: string) returns (res: Result<()>)
      requires Valid(db.Snap())
      modifies db`repos
      ensures match HookSync(old(db.Snap()), vcs.Snap(), user, provider, r)
        case Ok(d) => res == Ok(()) && db.Snap() == d
        case Raised(e) => res == Raised(e) && db.Snap() == old(db.Snap())
    {
      var hook := vcs.GetConfiguredWebhook(user, r);
      if hook.Raised? {
        return Raised(hook.error);
      }
      var row := db.Get(provider, r);
      if row.None? {
        return Raised(RepositoryNotFound);
      }
      var enabled := db.repos[row.value].Enabled();
      if hook.value.Some? && !enabled {
        MarkRepoEnabled(row.value, Digits(hook.value.value), None);
      } else if hook.value.None? && enabled {
        MarkRepoDisabled(row.value);
      }
      assert db.repos == old(db.repos)[row.value := HookedRow(old(db.repos)[row.value], user, hook.value)];
      return Ok(());
    }

    method MarkRepoDisabled(id: nat)
      requires id in db.repos
      modifies db`repos
      ensures db.repos == old(db.repos)[id := old(db.repos)[id].MarkedDisabled()]
    {
      db.repos := db.repos[id := db.repos[id].(hook := None)];
      db.repos := db.repos[id := db.repos[id].(enabledBy := None)];
      db.repos := db.repos[id := db.repos[id].(community := None)];
    }

    method MarkRepoEnabled(id: nat, hook: HookText, c: Option<string>)
      requires id in db.repos
      modifies db`repos
      ensures db.repos == old(db.repos)[id := old(db.repos)[id].MarkedEnabled(hook, user, c)]
    {
      db.repos := db.repos[id := db.repos[id].(hook := Some(hook))];
      db.repos := db.repos[id := db.repos[id].(enabledBy := Some(user))];
      if c.Some? {
        db.repos := db.repos[id := db.repos[id].(community := c)];
      }
    }

    method EnableRepository(r: string, c: Option<string>, editOk: bool) returns (res: Result<bool>)
      requires Valid(db.Snap())
      modifies db`repos, vcs`hooks, vcs`nextHook
      ensures Effect(db.Snap(), vcs.Snap(), res)
        == Enable(old(db.Snap()), old(vcs.Snap()), user, provider, r, c, editOk)
    {
      var row := db.GetAvailable(provider, user, r);
      if row.None? {
        return Raised(RepositoryNotFound);
      }
      var existing := vcs.GetConfiguredWebhook(user, r);
      if existing.Raised? {
        return Raised(existing.error);
      }
      var hook: nat;
      if existing.value.None? {
        var created := vcs.CreateWebhook(user, r);
        match created
        case Ok(Some(n)) => hook := n;
        case _ => return NotEnabled(created);
      } else {
        hook := existing.value.value;
        var updated := vcs.UpdateWebhook(user, r, hook, editOk);
        if updated != Ok(true) {
          return updated;
        }
      }
      MarkRepoEnabled(row.value, Digits(hook), c);
      return Ok(true);
    }

    method DisableRepository(r: string, hook: Option<HookText>, deleteOk: bool) returns (res: Result<bool>)
      requires Valid(db.Snap())
      modifies db`repos, vcs`hooks
      ensures Effect(db.Snap(), vcs.Snap(), res)
        == Disable(old(db.Snap()), old(vcs.Snap()), user, provider, r, hook, deleteOk)
    {
      var row := db.GetAvailable(provider, user, r);
      if row.None? {
        return Raised(RepositoryNotFound);
      }
      res := vcs.DeleteWebhook(user, r, hook, deleteOk);
      if res == Ok(true) {
        MarkRepoDisabled(row.value);
      }
    }

    // ---------- the batch tasks ----------

    /** One iteration of a batch: a savepoint around the operation, rolled back when it raises. */
    method RunOne(kind: TaskKind, r: string) returns (res: Result<()>)
      requires Valid(db.Snap())
      modifies db`repos, db`assoc
      ensures Valid(db.Snap())
      ensures var t := StepsOf(kind, user, [r])[0];
        && db.Snap() == Apply(old(db.Snap()), vcs.Snap(), provider, t)
        && res == Report(Outcome(old(db.Snap()), vcs.Snap(), provider, t))
    {
      ApplyValid(db.Snap(), vcs.Snap(), provider, StepsOf(kind, user, [r])[0]);
      var savepoint := db.assoc;
      if kind == HookTask {
        res := SyncRepoHook(r);
      } else {
        res := SyncRepoUsers(r);
      }
      if res.Raised? {
        db.assoc := savepoint;
      }
    }

    /** One attempt of tasks.sync_hooks or tasks.sync_repo_users: every repository is committed on its own,
        access errors are skipped, any other exception ends the attempt. Provider calls for the
        repositories in `outage` raise. */
    method RunBatch(kind: TaskKind, repos: seq<string>, outage: set<string>)
      returns (failure: Option<Error>, ghost done: nat)
      requires Valid(db.Snap())
      modifies db`repos, db`assoc
      ensures Valid(db.Snap())
      ensures Attempt(old(db.Snap()), vcs.Snap(), provider, StepsOf(kind, user, repos), outage, done)
      ensures db.Snap() == Run(old(db.Snap()), vcs.Snap(), provider, StepsOf(kind, user, repos)[..done])
      ensures failure.None? <==> done == |repos|
    {
      ghost var was, w, ts := db.Snap(), vcs.Snap(), StepsOf(kind, user, repos);
      done := 0;
      for i := 0 to |repos|
        invariant done == i && Valid(db.Snap())
        invariant db.Snap() == Run(was, w, provider, ts[..i])
        invariant Clear(was, w, provider, ts, outage, i)
      {
        assert StepsOf(kind, user, [repos[i]])[0] == ts[i];
        RunNext(was, w, provider, ts, i);
        if repos[i] in outage {
          return Some(ProviderDown), done;
        }
        var res := RunOne(kind, repos[i]);
        if res.Raised? && res.error != RepositoryAccess {
          return Some(res.error), done;
        }
        ClearNext(was, w, provider, ts, outage, i);
        done := done + 1;
      }
      return None, done;
    }
  }

  function NotEnabled(created: Result<Option<nat>>): Result<bool> {
    match created
    case Raised(e) => Raised(e)
    case Ok(_) => Ok(false)
  }

  function StepsOf(kind: TaskKind, u: nat, repos: seq<string>): (ts: seq<TaskStep>)
    ensures |ts| == |repos|
  {
    seq(|repos|, k requires 0 <= k < |repos| =>
      if kind == HookTask then HookStep(u, repos[k]) else MemberStep(u, repos[k]))
  }
}
