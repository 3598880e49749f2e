/** What an attempt at a batch task does, by the columns of the rows, the hooks' hosts and the linked accounts. */
module TaskEffects {
  import opened Domain
  import opened Tables
  import opened Provider
  import opened SyncSpec
  import opened Service
  import opened Confluence
  import opened HostHooks
  import opened Rounds
  import opened Interplay

  /** Row id is a row of the provider for one of the repositories. */
  ghost predicate Processed(db: Db, p: string, repos: seq<string>, id: nat) {
    id in db.repos && db.repos[id].provider == p && db.repos[id].providerId in repos
  }

  lemma StepAt(kind: TaskKind, u: nat, repos: seq<string>, done: nat, k: nat)
    requires k < done <= |repos|
    ensures StepsOf(kind, u, repos)[..done][k] == StepsOf(kind, u, repos)[k]
    ensures StepsOf(kind, u, repos)[k] == if kind == HookTask then HookStep(u, repos[k]) else MemberStep(u, repos[k])
  {
  }

  lemma StepsDone(kind: TaskKind, u: nat, repos: seq<string>, done: nat, t: TaskStep)
    requires done <= |repos|
    ensures t in StepSet(StepsOf(kind, u, repos)[..done]) <==>
      t.actor == u && t.repo in repos[..done] && (t.HookStep? <==> kind == HookTask)
  {
    var ts := StepsOf(kind, u, repos)[..done];
    if t in ts {
      var k :| 0 <= k < |ts| && ts[k] == t;
      assert repos[..done][k] == t.repo;
    }
    if t.repo in repos[..done] {
      var k :| 0 <= k < done && repos[..done][k] == t.repo;
      StepAt(kind, u, repos, done, k);
      assert ts[k] in ts;
    }
  }

  // ---------- tasks.sync_hooks ----------

  /** The hooks of r cannot be read: the user has no access, or two of them call the host. */
  ghost predicate Unreadable(w: World, u: nat, r: string) {
    NoAccess(w, u, r) || (Sees(w, u, r) && w.host != "" && TwoCallers(w, r))
  }

  /** After any attempt at a hook task, complete or not, exactly the rows of the repositories got through follow the
      hooks that the user sees, save where these cannot be read; and nothing else changed. */
  lemma HookTaskFollowsHooks(db: Db, w: World, p: string, u: nat, repos: seq<string>, done: nat)
    requires Valid(db) && done <= |repos|
    ensures var d := Run(db, w, p, StepsOf(HookTask, u, repos)[..done]);
      && d == db.(repos := d.repos) && d.repos.Keys == db.repos.Keys
      && forall id :: id in db.repos ==>
           if Processed(db, p, repos[..done], id) && !Unreadable(w, u, db.repos[id].providerId)
           then FollowsHooks(w, u, db.repos[id].providerId, db.repos[id], d.repos[id])
           else d.repos[id] == db.repos[id]
  {
    var ts := StepsOf(HookTask, u, repos)[..done];
    var d := Run(db, w, p, ts);
    forall t: TaskStep
      ensures t in StepSet(ts) <==> t.actor == u && t.repo in repos[..done] && t.HookStep?
    {
      StepsDone(HookTask, u, repos, done, t);
    }
    RunSettles(db, w, p, u, ts);
    NoMembersReplaced(db, w, p, StepSet(ts), d);
    forall id | id in db.repos
      ensures if Processed(db, p, repos[..done], id) && !Unreadable(w, u, db.repos[id].providerId)
              then FollowsHooks(w, u, db.repos[id].providerId, db.repos[id], d.repos[id])
              else d.repos[id] == db.repos[id]
    {
      var r := db.repos[id].providerId;
      ConfiguredByHost(w, u, r);
      assert HookStep(u, r) in StepSet(ts) <==> r in repos[..done];
      if ConfiguredWebhook(w, u, r).Ok? {
        HookedFollows(w, u, r, db.repos[id]);
      }
    }
  }

  lemma NoMembersReplaced(db: Db, w: World, p: string, done: set<TaskStep>, d: Db)
    requires SettledMembers(db, w, p, done, d) && forall t :: t in done ==> t.HookStep?
    ensures d.assoc == db.assoc
  {
    forall x: (nat, nat)
      ensures x in d.assoc <==> x in db.assoc
    {
      assert x == (x.0, x.1) && !MembersReplaced(db, w, p, done, x.0);
    }
  }

  // ---------- tasks.sync_repo_users ----------

  function AdminList(w: World, r: string): seq<string> {
    if r in w.admins then w.admins[r] else []
  }

  /** Two entries of the admin list of r are linked to one user who is not a member of row id. */
  ghost predicate Collides(db: Db, w: World, p: string, r: string, id: nat) {
    exists v: nat :: (id, v) !in db.assoc && LinkedTwice(db.identities, p, AdminList(w, r), v)
  }

  /** Some entry of the admin list of r is linked to v. */
  ghost predicate IsAdmin(db: Db, w: World, p: string, r: string, v: nat) {
    exists k :: LinkedTo(db.identities, p, AdminList(w, r), k, v)
  }

  /** After any attempt at a members task, complete or not, exactly the repositories got through that the user sees,
      and where no insertions collide, have exactly the linked admins as members; and nothing else changed. */
  lemma MembersTaskFollowsAdmins(db: Db, w: World, p: string, u: nat, repos: seq<string>, done: nat)
    requires Valid(db) && done <= |repos|
    ensures var d := Run(db, w, p, StepsOf(UserTask, u, repos)[..done]);
      && d == db.(assoc := d.assoc)
      && forall id: nat, v: nat :: (id, v) in d.assoc <==>
           if Processed(db, p, repos[..done], id) && Sees(w, u, db.repos[id].providerId)
              && !Collides(db, w, p, db.repos[id].providerId, id)
           then IsAdmin(db, w, p, db.repos[id].providerId, v)
           else (id, v) in db.assoc
  {
    var ts := StepsOf(UserTask, u, repos)[..done];
    forall t: TaskStep
      ensures t in StepSet(ts) <==> t.actor == u && t.repo in repos[..done] && t.MemberStep?
    {
      StepsDone(UserTask, u, repos, done, t);
    }
    RunSettles(db, w, p, u, ts);
    var d := Run(db, w, p, ts);
    assert d.repos == db.repos;
    forall id: nat, v: nat
      ensures (id, v) in d.assoc <==>
        if Processed(db, p, repos[..done], id) && Sees(w, u, db.repos[id].providerId)
           && !Collides(db, w, p, db.repos[id].providerId, id)
        then IsAdmin(db, w, p, db.repos[id].providerId, v)
        else (id, v) in db.assoc
    {
      if id in db.repos {
        var r := db.repos[id].providerId;
        TwiceIsLinkedTwice(db, p, AdminList(w, r), id);
        AdminsLinked(db, w, p, r, v);
        assert MemberStep(u, r) in StepSet(ts) <==> r in repos[..done];
      }
    }
  }

  lemma AdminsLinked(db: Db, w: World, p: string, r: string, v: nat)
    ensures v in Admins(db, w, p, r) <==> IsAdmin(db, w, p, r, v)
  {
    var ids := AdminList(w, r);
    ResolveMembers(db.identities, p, ids, v);
    if k :| 0 <= k < |ids| && (p, ids[k]) in db.identities && db.identities[(p, ids[k])] == v {
      assert LinkedTo(db.identities, p, ids, k, v);
    }
  }

  /** All answers of a members sync; one by a user who does not see the repository changes nothing. */
  lemma MembersSyncAnswers(db: Db, w: World, u: nat, p: string, r: string)
    requires Valid(db)
    ensures var res := UserSync(db, w, u, p, r);
      var known := exists id :: HasKey(db, id, p, r);
      var twice := exists id :: HasKey(db, id, p, r) && Sees(w, u, r) && Collides(db, w, p, r, id);
      && (res == Raised(RepositoryNotFound) <==> !known)
      && (res == Raised(RepositoryAccess) <==> known && NoAccess(w, u, r))
      && (res == Raised(IntegrityError) <==> twice)
      && (res.Ok? <==> known && !NoAccess(w, u, r) && !twice)
      && (res.Ok? && !Sees(w, u, r) ==> res.value == db)
  {
    forall id: nat
      ensures HasKey(db, id, p, r) <==> Lookup(db, p, r) == Some(id)
    {
    }
    if Lookup(db, p, r).Some? {
      TwiceIsLinkedTwice(db, p, AdminList(w, r), Lookup(db, p, r).value);
    }
  }

  // ---------- where an attempt ends ----------

  /** The task of u cannot get through r: a hook task where two hooks call the host or r is not registered, unless the
      user has no access; a members task where r is not registered or two insertions collide. */
  ghost predicate Stops(kind: TaskKind, db: Db, w: World, p: string, u: nat, r: string) {
    match kind
    case HookTask =>
      !NoAccess(w, u, r) && (Unreadable(w, u, r) || forall id: nat :: !HasKey(db, id, p, r))
    case UserTask =>
      || (forall id: nat :: !HasKey(db, id, p, r))
      || (exists id: nat :: HasKey(db, id, p, r) && Sees(w, u, r) && Collides(db, w, p, r, id))
  }

  lemma BlockedByColumns(kind: TaskKind, db: Db, w: World, p: string, u: nat, repos: seq<string>, k: nat)
    requires Valid(db) && k < |repos|
    ensures Blocks(db, w, p, StepsOf(kind, u, repos)[k], {}) <==> Stops(kind, db, w, p, u, repos[k])
  {
    var r := repos[k];
    match kind
    case HookTask =>
      HookSyncByHost(db, w, u, p, r);
      assert Outcome(db, w, p, HookStep(u, r)) == HookSync(db, w, u, p, r);
    case UserTask =>
      MembersSyncAnswers(db, w, u, p, r);
      assert Outcome(db, w, p, MemberStep(u, r)) == UserSync(db, w, u, p, r);
  }

  /** An attempt at a task ends at the first of its repositories whose provider calls fail or that the task cannot get
      through in the tables that the attempt started from. A repository without access ends no hook task. */
  lemma AttemptEndsAt(kind: TaskKind, db: Db, w: World, p: string, u: nat, repos: seq<string>, outage: set<string>,
                      done: nat)
    requires Valid(db) && Attempt(db, w, p, StepsOf(kind, u, repos), outage, done)
    ensures forall k :: 0 <= k < done ==> repos[k] !in outage && !Stops(kind, db, w, p, u, repos[k])
    ensures done < |repos| ==> repos[done] in outage || Stops(kind, db, w, p, u, repos[done])
  {
    var ts := StepsOf(kind, u, repos);
    forall k | 0 <= k <= done && k < |repos|
      ensures Blocks(Run(db, w, p, ts[..k]), w, p, ts[k], outage)
        <==> repos[k] in outage || Stops(kind, db, w, p, u, repos[k])
    {
      BlockedByColumns(kind, db, w, p, u, repos, k);
      BlocksStable(db, w, p, ts[..k], ts[k]);
    }
  }
}
