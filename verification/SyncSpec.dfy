/** What the synchronisation operations do to the tables, as functions of the tables and the remote. */
module SyncSpec {
  import opened Domain
  import opened Tables
  import opened Provider

  // ---------- VCSService.sync ----------

  ghost function RefreshedRow(db: Db, id: nat, p: string, u: nat, xs: seq<GenericRepository>): Repo
    requires id in db.repos
  {
    var row := db.repos[id];
    var g := Find(xs, row.providerId);
    if row.provider == p && (id, u) in db.assoc && g.Some? then row.Refreshed(g.value) else row
  }

  ghost function Refresh(db: Db, p: string, u: nat, xs: seq<GenericRepository>): Db {
    db.(repos := map id | id in db.repos :: RefreshedRow(db, id, p, u, xs))
  }

  /** The association x is one that the delete statement of a sync removes. */
  predicate Stale(db: Db, x: (nat, nat), p: string, u: nat, ids: seq<string>) {
    x.1 == u && x.0 in db.repos && db.repos[x.0].provider == p && db.repos[x.0].providerId !in ids
  }

  ghost function Prune(db: Db, p: string, u: nat, xs: seq<GenericRepository>): Db {
    db.(assoc := set x | x in db.assoc && !Stale(db, x, p, u, Ids(xs)))
  }

  ghost function CreateOne(db: Db, p: string, u: nat, g: GenericRepository): Db {
    if Lookup(db, p, g.id).Some? then db
    else db.(repos := db.repos[db.nextId := NewRepo(p, g)],
             assoc := db.assoc + {(db.nextId, u)},
             nextId := db.nextId + 1)
  }

  ghost function CreateMissing(db: Db, p: string, u: nat, xs: seq<GenericRepository>): Db {
    if xs == [] then db
    else CreateOne(CreateMissing(db, p, u, xs[..|xs| - 1]), p, u, xs[|xs| - 1])
  }

  ghost function Sync(db: Db, p: string, u: nat, xs: seq<GenericRepository>, now: nat): Db {
    var d := CreateMissing(Prune(Refresh(db, p, u, xs), p, u, xs), p, u, xs);
    d.(lastSync := d.lastSync[(p, u) := now])
  }

  lemma RefreshPruneValid(db: Db, p: string, u: nat, xs: seq<GenericRepository>)
    requires Valid(db)
    ensures Valid(Refresh(db, p, u, xs)) && Valid(Prune(Refresh(db, p, u, xs), p, u, xs))
  {
    var d := Refresh(db, p, u, xs);
    forall id | id in db.repos
      ensures d.repos[id].provider == db.repos[id].provider && d.repos[id].providerId == db.repos[id].providerId
    {
    }
  }

  lemma CreateOneValid(db: Db, p: string, u: nat, g: GenericRepository)
    requires Valid(db)
    ensures Valid(CreateOne(db, p, u, g))
  {
    var d := CreateOne(db, p, u, g);
    if Lookup(db, p, g.id).None? {
      forall k: nat | k in db.repos
        ensures db.repos[k].provider != p || db.repos[k].providerId != g.id
      {
        assert !HasKey(db, k, p, g.id);
      }
    }
  }

  /** While a sync creates rows, keys stay unique and the next id stays unused. */
  lemma {:induction false} CreateMissingValid(db: Db, p: string, u: nat, xs: seq<GenericRepository>)
    requires Valid(db)
    ensures Valid(CreateMissing(db, p, u, xs))
  {
    if xs != [] {
      CreateMissingValid(db, p, u, xs[..|xs| - 1]);
      CreateOneValid(CreateMissing(db, p, u, xs[..|xs| - 1]), p, u, xs[|xs| - 1]);
    }
  }

  // ---------- VCSService.sync_repo_users ----------

  /** The local users that have linked one of these external ids, in the order of the ids. */
  function Resolve(identities: map<(string, string), nat>, p: string, ids: seq<string>): seq<nat> {
    if ids == [] then []
    else
      var last := ids[|ids| - 1];
      Resolve(identities, p, ids[..|ids| - 1]) + if (p, last) in identities then [identities[(p, last)]] else []
  }

  /** Some user that is not yet a member occurs twice, so its row would be inserted twice. */
  ghost predicate InsertsTwice(us: seq<nat>, have: set<nat>) {
    exists i, j :: 0 <= i < j < |us| && us[i] == us[j] && us[i] !in have
  }

  function WithUsers(db: Db, id: nat, us: seq<nat>): Db {
    db.(assoc := (set x | x in db.assoc && x.0 != id) + (set v | v in us :: (id, v)))
  }

  ghost function UserSync(db: Db, w: World, u: nat, p: string, r: string): Result<Db> {
    match Lookup(db, p, r)
    case None => Raised(RepositoryNotFound)
    case Some(id) =>
      match AdminIds(w, u, r)
      case Raised(e) => Raised(e)
      case Ok(None) => Ok(db)
      case Ok(Some(ids)) =>
        var us := Resolve(db.identities, p, ids);
        if InsertsTwice(us, UsersOf(db, id)) then Raised(IntegrityError) else Ok(WithUsers(db, id, us))
  }

  // ---------- VCSService.sync_repo_hook ----------

  /** The row after a hook sync by user u that saw the configured hook `seen`. */
  function HookedRow(row: Repo, u: nat, seen: Option<nat>): Repo {
    if seen.Some? && !row.Enabled() then row.MarkedEnabled(Digits(seen.value), u, None)
    else if seen.None? && row.Enabled() then row.MarkedDisabled()
    else row
  }

  ghost function HookSync(db: Db, w: World, u: nat, p: string, r: string): Result<Db> {
    match ConfiguredWebhook(w, u, r)
    case Raised(e) => Raised(e)
    case Ok(seen) =>
      match Lookup(db, p, r)
      case None => Raised(RepositoryNotFound)
      case Some(id) => Ok(WithRow(db, id, HookedRow(db.repos[id], u, seen)))
  }

  // ---------- the batch tasks, one repository at a time ----------

  /** One iteration of a batch task, with the token of the user `actor`. */
  datatype TaskStep = MemberStep(actor: nat, repo: string) | HookStep(actor: nat, repo: string)

  ghost function Outcome(db: Db, w: World, p: string, t: TaskStep): Result<Db> {
    match t
    case MemberStep(a, r) => UserSync(db, w, a, p, r)
    case HookStep(a, r) => HookSync(db, w, a, p, r)
  }

  /** A step that raises leaves the tables as they were: its savepoint is rolled back. */
  ghost function Apply(db: Db, w: World, p: string, t: TaskStep): Db {
    match Outcome(db, w, p, t)
    case Ok(d) => d
    case Raised(_) => db
  }

  /** What the caller of the operation sees of its outcome. */
  function Report(o: Result<Db>): Result<()> {
    match o
    case Ok(_) => Ok(())
    case Raised(e) => Raised(e)
  }

  ghost function Run(db: Db, w: World, p: string, ts: seq<TaskStep>): Db {
    if ts == [] then db else Apply(Run(db, w, p, ts[..|ts| - 1]), w, p, ts[|ts| - 1])
  }

  predicate EndsAttempt(res: Result<()>) {
    res.Raised? && res.error != RepositoryAccess
  }

  /** The step ends the attempt: the provider is down for its repository, or it raises
      anything but the access error that a batch skips. */
  ghost predicate Blocks(db: Db, w: World, p: string, t: TaskStep, outage: set<string>) {
    t.repo in outage || EndsAttempt(Report(Outcome(db, w, p, t)))
  }

  /** None of the first n steps of a run blocks it. */
  ghost predicate Clear(db: Db, w: World, p: string, ts: seq<TaskStep>, outage: set<string>, n: nat)
    requires n <= |ts|
  {
    forall j :: 0 <= j < n ==> !Blocks(Run(db, w, p, ts[..j]), w, p, ts[j], outage)
  }

  /** An attempt at the steps `ts` gets through exactly the first `done` of them. */
  ghost predicate Attempt(db: Db, w: World, p: string, ts: seq<TaskStep>, outage: set<string>, done: nat) {
    && done <= |ts|
    && Clear(db, w, p, ts, outage, done)
    && (done < |ts| ==> Blocks(Run(db, w, p, ts[..done]), w, p, ts[done], outage))
  }

  lemma RunNext(db: Db, w: World, p: string, ts: seq<TaskStep>, i: nat)
    requires i < |ts|
    ensures Run(db, w, p, ts[..i + 1]) == Apply(Run(db, w, p, ts[..i]), w, p, ts[i])
  {
    assert ts[..i + 1][..i] == ts[..i];
  }

  lemma ClearNext(db: Db, w: World, p: string, ts: seq<TaskStep>, outage: set<string>, i: nat)
    requires i < |ts| && Clear(db, w, p, ts, outage, i)
    requires !Blocks(Run(db, w, p, ts[..i]), w, p, ts[i], outage)
    ensures Clear(db, w, p, ts, outage, i + 1)
  {
  }

  lemma UserSyncValid(db: Db, w: World, u: nat, p: string, r: string)
    requires Valid(db)
    ensures UserSync(db, w, u, p, r).Ok? ==> Valid(UserSync(db, w, u, p, r).value)
  {
  }

  lemma HookSyncValid(db: Db, w: World, u: nat, p: string, r: string)
    requires Valid(db)
    ensures HookSync(db, w, u, p, r).Ok? ==> Valid(HookSync(db, w, u, p, r).value)
  {
  }

  lemma ApplyValid(db: Db, w: World, p: string, t: TaskStep)
    requires Valid(db)
    ensures Valid(Apply(db, w, p, t))
  {
    UserSyncValid(db, w, t.actor, p, t.repo);
    HookSyncValid(db, w, t.actor, p, t.repo);
  }

  lemma {:induction false} RunValid(db: Db, w: World, p: string, ts: seq<TaskStep>)
    requires Valid(db)
    ensures Valid(Run(db, w, p, ts))
  {
    if ts != [] {
      RunValid(db, w, p, ts[..|ts| - 1]);
      ApplyValid(Run(db, w, p, ts[..|ts| - 1]), w, p, ts[|ts| - 1]);
    }
  }
}
