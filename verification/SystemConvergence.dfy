/** Convergence inside whole runs: between a user's syncs and their tasks, every user may sync, run batch tasks,
    enable, disable and disconnect, at this and at other providers, and releases come and go. */
module SystemConvergence {
  import opened Domain
  import opened Tables
  import opened Provider
  import opened SyncSpec
  import opened EnableSpec
  import opened Confluence
  import opened Convergence
  import opened Rounds
  import opened HookInvariants
  import opened Disconnect
  import opened Handlers
  import opened System

  /** From w to w', listings, admin lists and what tokens reach stay the same; hooks may change. */
  predicate SameMembership(w: World, w': World) {
    w'.listings == w.listings && w'.admins == w.admins && w'.reach == w.reach
  }

  /** The operation leaves provider p's side of the contract for user u alone: other parties change no membership, and u
      stays connected. */
  ghost predicate SteadyOp(w: World, u: nat, op: Operation) {
    match op
    case RemoteOp(w') => SameMembership(w, w')
    case DisconnectOp(v, _) => v != u
    case _ => true
  }

  ghost predicate Steady(s: State, p: string, u: nat, t: Step) {
    t.On? && t.provider == p && p in s.worlds ==> SteadyOp(s.worlds[p], u, t.op)
  }

  ghost predicate SteadyRun(s: State, c: Config, p: string, u: nat, ts: seq<Step>) {
    forall i :: 0 <= i < |ts| ==> Steady(StateAfter(s, c, ts[..i]), p, u, ts[i])
  }

  ghost predicate Contracted(s: State, p: string, u: nat, ext: string) {
    Inv(s) && p in s.worlds && Contract(s.db, s.worlds[p], p, u, ext)
  }

  // ---------- what one operation leaves alone ----------

  lemma EnableMembership(db: Db, w: World, u: nat, p: string, r: string, com: Option<string>, edited: bool)
    ensures SameMembership(w, Enable(db, w, u, p, r, com, edited).world)
    ensures Enable(db, w, u, p, r, com, edited).db.assoc == db.assoc
  {
    match ConfiguredWebhook(w, u, r)
    case Ok(Some(n)) => assert SameMembership(w, AfterEdit(w, u, r, n, edited));
    case Ok(None) => assert SameMembership(w, AfterCreate(w, u, r));
    case Raised(_) =>
  }

  lemma DisableMembership(db: Db, w: World, u: nat, p: string, r: string, hook: Option<HookText>, answered: bool)
    ensures SameMembership(w, Disable(db, w, u, p, r, hook, answered).world)
  {
    DeletionCases(w, u, r, hook, answered);
  }

  lemma ActMembership(db: Db, w: World, p: string, u: nat, op: Operation)
    requires SteadyOp(w, u, op)
    ensures SameMembership(w, Act(db, w, p, op).1)
  {
    match op
    case EnableOp(v, r, com, edited, _) => EnableMembership(db, w, v, p, r, com, edited);
    case DisableOp(v, r, hook, answered, _) => DisableMembership(db, w, v, p, r, hook, answered);
    case _ =>
  }

  lemma ActIdentities(db: Db, w: World, p: string, op: Operation)
    requires Valid(db)
    ensures var ids := Act(db, w, p, op).0.identities;
      || ids == db.identities
      || (op.DisconnectOp? && Unlinks(db, p, op.user, op.ext) && op.ext.Some?
          && ids == db.identities - {(p, op.ext.value)})
      || (op.ConnectOp? && CanConnect(db, p, op.user, op.account) && ids == db.identities[(p, op.account) := op.user])
  {
    match op
    case SyncOp(u, now) => SyncRefines(db, p, u, Listing(w, u), now);
    case BatchOp(task) => StepSameRows(db, w, p, task);
    case _ =>
  }

  /** ext is u's account at p, and everyone has at most one there. */
  ghost predicate Linked(identities: map<(string, string), nat>, p: string, u: nat, ext: string) {
    (p, ext) in identities && identities[(p, ext)] == u && OneAccountEach(identities, p)
  }

  lemma ContractKept(db: Db, w: World, d: Db, w': World, p: string, u: nat, ext: string)
    requires Contract(db, w, p, u, ext) && SameMembership(w, w') && Linked(d.identities, p, u, ext)
    ensures Contract(d, w', p, u, ext)
  {
    assert Listing(w', u) == Listing(w, u);
    assert forall r :: ReachOf(w', u, r) == ReachOf(w, u, r);
  }

  lemma OneFewer(ids: map<(string, string), nat>, p: string, gone: (string, string))
    requires OneAccountEach(ids, p)
    ensures OneAccountEach(ids - {gone}, p)
  {
    var after := ids - {gone};
    forall a, b | (p, a) in after && (p, b) in after && after[(p, a)] == after[(p, b)]
      ensures a == b
    {
      assert (p, a) in ids && (p, b) in ids;
    }
  }

  lemma OneMore(db: Db, p: string, q: string, v: nat, more: string)
    requires OneAccountEach(db.identities, p) && CanConnect(db, q, v, more)
    ensures OneAccountEach(db.identities[(q, more) := v], p)
  {
    var after := db.identities[(q, more) := v];
    forall a, b | (p, a) in after && (p, b) in after && after[(p, a)] == after[(p, b)]
      ensures a == b
    {
      assert (p, a) in db.identities || (p, a) == (q, more);
      assert (p, b) in db.identities || (p, b) == (q, more);
    }
  }

  /** No step gives a user a second account at a provider. */
  lemma OneAccountStep(s: State, c: Config, p: string, t: Step)
    requires Valid(s.db) && OneAccountEach(s.db.identities, p)
    ensures OneAccountEach(Next(s, c, t).db.identities, p)
  {
    if t.On? && t.provider in s.worlds {
      var q := t.provider;
      ActIdentities(s.db, s.worlds[q], q, t.op);
      match t.op
      case DisconnectOp(_, Some(gone)) => OneFewer(s.db.identities, p, (q, gone));
      case ConnectOp(v, more, _) =>
        if CanConnect(s.db, q, v, more) {
          OneMore(s.db, p, q, v, more);
        }
      case _ =>
    }
  }

  lemma StaysLinked(s: State, c: Config, p: string, u: nat, ext: string, t: Step)
    requires Valid(s.db) && Linked(s.db.identities, p, u, ext) && Steady(s, p, u, t) && p in s.worlds
    ensures Linked(Next(s, c, t).db.identities, p, u, ext)
  {
    OneAccountStep(s, c, p, t);
    if t.On? && t.provider in s.worlds {
      ActIdentities(s.db, s.worlds[t.provider], t.provider, t.op);
    }
  }

  lemma ContractHolds(s: State, c: Config, p: string, u: nat, ext: string, t: Step)
    requires Valid(s.db) && p in s.worlds && Contract(s.db, s.worlds[p], p, u, ext) && Steady(s, p, u, t)
    ensures var z := Next(s, c, t);
      p in z.worlds && SameMembership(s.worlds[p], z.worlds[p]) && Contract(z.db, z.worlds[p], p, u, ext)
  {
    StaysLinked(s, c, p, u, ext, t);
    if t.On? && t.provider == p {
      ActMembership(s.db, s.worlds[p], p, u, t.op);
    }
    ContractKept(s.db, s.worlds[p], Next(s, c, t).db, Next(s, c, t).worlds[p], p, u, ext);
  }

  lemma ContractStep(s: State, c: Config, p: string, u: nat, ext: string, t: Step)
    requires Contracted(s, p, u, ext) && Steady(s, p, u, t)
    ensures Contracted(Next(s, c, t), p, u, ext) && SameMembership(s.worlds[p], Next(s, c, t).worlds[p])
  {
    StepKeeps(s, c, t);
    ContractHolds(s, c, p, u, ext, t);
  }

  /** The operation at p keeps u's association with a listed row, and gives u no association with an unlisted one. */
  lemma ActAssociation(db: Db, w: World, p: string, u: nat, ext: string, op: Operation, id: nat)
    requires Valid(db) && OneHook(w) && Contract(db, w, p, u, ext) && SteadyOp(w, u, op)
    requires id in Act(db, w, p, op).0.repos && Act(db, w, p, op).0.repos[id].provider == p
    ensures var d := Act(db, w, p, op).0;
      var listed := d.repos[id].providerId in Ids(Listing(w, u));
      && (listed && (id, u) in db.assoc ==> (id, u) in d.assoc)
      && (!listed && (id, u) in d.assoc ==> (id, u) in db.assoc)
  {
    match op
    case SyncOp(v, now) =>
      SyncRefines(db, p, v, Listing(w, v), now);
      if id !in db.repos {
        var g :| g in Listing(w, v) && NewFor(Sync(db, p, v, Listing(w, v), now).repos[id], p, g);
        EntryListed(Listing(w, v), g);
        assert (id, u) !in db.assoc;
      }
    case BatchOp(MemberStep(a, r)) =>
      BatchActs(db, w, p, op.task);
      MemberStepAssoc(db, w, p, a, r, id, u);
      ContractAdmins(db, w, p, u, ext, r);
    case BatchOp(HookStep(a, r)) => HookStepRow(db, w, p, a, r);
    case EnableOp(v, r, com, edited, _) => EnableMembership(db, w, v, p, r, com, edited);
    case DisableOp(v, r, hook, answered, _) => DisableValid(db, w, v, p, r, hook, answered);
    case _ =>
  }

  // ---------- the tables follow the listing ----------

  /** u has the row of r. */
  ghost predicate Has(db: Db, p: string, u: nat, r: string) {
    exists id: nat :: HasKey(db, id, p, r) && (id, u) in db.assoc
  }

  /** Every listed repository is registered, and u has no other of provider p. */
  ghost predicate Synced(db: Db, w: World, p: string, u: nat) {
    && (forall r :: r in Ids(Listing(w, u)) ==> Lookup(db, p, r).Some?)
    && (forall id :: id in db.repos && db.repos[id].provider == p && (id, u) in db.assoc ==>
          db.repos[id].providerId in Ids(Listing(w, u)))
  }

  lemma SyncSyncs(db: Db, w: World, p: string, u: nat, now: nat)
    requires Valid(db)
    ensures Synced(Sync(db, p, u, Listing(w, u), now), w, p, u)
  {
    var xs := Listing(w, u);
    SyncRefines(db, p, u, xs, now);
    var d := Sync(db, p, u, xs, now);
    forall r | r in Ids(xs)
      ensures Lookup(d, p, r).Some?
    {
      ListedEntry(xs, r);
    }
    forall id | id in d.repos && d.repos[id].provider == p && (id, u) in d.assoc
      ensures d.repos[id].providerId in Ids(xs)
    {
      SyncedIsListed(db, p, u, xs, now, id);
    }
  }

  /** No step undoes what a sync established, or takes a listed repository from u. */
  lemma SyncedStep(s: State, c: Config, p: string, u: nat, ext: string, t: Step)
    requires Contracted(s, p, u, ext) && Steady(s, p, u, t) && Synced(s.db, s.worlds[p], p, u)
    ensures p in Next(s, c, t).worlds && Synced(Next(s, c, t).db, Next(s, c, t).worlds[p], p, u)
    ensures forall r :: r in Ids(Listing(s.worlds[p], u)) && Has(s.db, p, u, r) ==> Has(Next(s, c, t).db, p, u, r)
  {
    var z, w := Next(s, c, t), s.worlds[p];
    ContractStep(s, c, p, u, ext, t);
    StepKeeps(s, c, t);
    forall id: nat | id in z.db.repos && z.db.repos[id].provider == p
      ensures z.db.repos[id].providerId in Ids(Listing(w, u)) && (id, u) in s.db.assoc ==> (id, u) in z.db.assoc
      ensures z.db.repos[id].providerId !in Ids(Listing(w, u)) && (id, u) in z.db.assoc ==> (id, u) in s.db.assoc
    {
      StepAssociation(s, c, p, u, ext, t, id);
    }
    SyncedKept(s.db, z.db, w, p, u);
  }

  lemma SyncedKept(db: Db, d: Db, w: World, p: string, u: nat)
    requires Valid(db) && Valid(d) && RowsKept(db, d) && Synced(db, w, p, u)
    requires forall id: nat :: id in d.repos && d.repos[id].provider == p ==>
      && (d.repos[id].providerId in Ids(Listing(w, u)) && (id, u) in db.assoc ==> (id, u) in d.assoc)
      && (d.repos[id].providerId !in Ids(Listing(w, u)) && (id, u) in d.assoc ==> (id, u) in db.assoc)
    ensures Synced(d, w, p, u)
    ensures forall r :: r in Ids(Listing(w, u)) && Has(db, p, u, r) ==> Has(d, p, u, r)
  {
    forall r | r in Ids(Listing(w, u))
      ensures Lookup(d, p, r).Some?
    {
      assert HasKey(d, Lookup(db, p, r).value, p, r);
    }
    forall r | r in Ids(Listing(w, u)) && Has(db, p, u, r)
      ensures Has(d, p, u, r)
    {
      var id: nat :| HasKey(db, id, p, r) && (id, u) in db.assoc;
      assert HasKey(d, id, p, r) && (id, u) in d.assoc;
    }
  }

  lemma StepAssociation(s: State, c: Config, p: string, u: nat, ext: string, t: Step, id: nat)
    requires Contracted(s, p, u, ext) && Steady(s, p, u, t)
    requires id in Next(s, c, t).db.repos && Next(s, c, t).db.repos[id].provider == p
    ensures var z := Next(s, c, t);
      var listed := z.db.repos[id].providerId in Ids(Listing(s.worlds[p], u));
      && (listed && (id, u) in s.db.assoc ==> (id, u) in z.db.assoc)
      && (!listed && (id, u) in z.db.assoc ==> (id, u) in s.db.assoc)
  {
    if t.On? && t.provider in s.worlds {
      if t.provider == p {
        ActAssociation(s.db, s.worlds[p], p, u, ext, t.op, id);
      } else {
        ActKeeps(s.db, s.worlds[t.provider], t.provider, t.op);
      }
    }
  }

  /** A members step of u for a listed repository gives u the row. */
  lemma MemberStepGives(db: Db, w: World, p: string, u: nat, ext: string, r: string)
    requires Valid(db) && Contract(db, w, p, u, ext) && r in Ids(Listing(w, u)) && Lookup(db, p, r).Some?
    ensures Has(Apply(db, w, p, MemberStep(u, r)), p, u, r)
  {
    var id, d := Lookup(db, p, r).value, Apply(db, w, p, MemberStep(u, r));
    ContractAdmins(db, w, p, u, ext, r);
    MemberStepAssoc(db, w, p, u, r, id, u);
    StepSameRows(db, w, p, MemberStep(u, r));
    assert HasKey(d, id, p, r) && (id, u) in d.assoc;
  }

  lemma SteadyPrefix(s: State, c: Config, p: string, u: nat, ts: seq<Step>)
    requires ts != [] && SteadyRun(s, c, p, u, ts)
    ensures SteadyRun(s, c, p, u, ts[..|ts| - 1]) && Steady(StateAfter(s, c, ts[..|ts| - 1]), p, u, ts[|ts| - 1])
  {
    var prefix := ts[..|ts| - 1];
    assert forall i :: 0 <= i < |prefix| ==> prefix[..i] == ts[..i] && prefix[i] == ts[i];
  }

  /** u has r, or the steps give it to u. */
  ghost predicate Gets(db: Db, p: string, u: nat, ts: seq<Step>, r: string) {
    Has(db, p, u, r) || On(p, BatchOp(MemberStep(u, r))) in ts
  }

  /** After a sync of u, through any steady run: the contract holds, what the sync established stays, and u has every
      listed repository that u had, or whose members step was among the steps. */
  lemma {:induction false} Converging(s: State, c: Config, p: string, u: nat, ext: string, ts: seq<Step>)
    requires Contracted(s, p, u, ext) && SteadyRun(s, c, p, u, ts) && Synced(s.db, s.worlds[p], p, u)
    ensures var z := StateAfter(s, c, ts);
      && Contracted(z, p, u, ext) && SameMembership(s.worlds[p], z.worlds[p]) && Synced(z.db, z.worlds[p], p, u)
      && forall r :: r in Ids(Listing(s.worlds[p], u)) && Gets(s.db, p, u, ts, r) ==> Has(z.db, p, u, r)
  {
    if ts != [] {
      var before, t := StateAfter(s, c, ts[..|ts| - 1]), ts[|ts| - 1];
      SteadyPrefix(s, c, p, u, ts);
      Converging(s, c, p, u, ext, ts[..|ts| - 1]);
      ContractStep(before, c, p, u, ext, t);
      SyncedStep(before, c, p, u, ext, t);
      forall r | r in Ids(Listing(s.worlds[p], u)) && Gets(s.db, p, u, ts, r)
        ensures Has(StateAfter(s, c, ts).db, p, u, r)
      {
        if t == On(p, BatchOp(MemberStep(u, r))) {
          MemberStepGives(before.db, before.worlds[p], p, u, ext, r);
        } else {
          assert On(p, BatchOp(MemberStep(u, r))) in ts ==> On(p, BatchOp(MemberStep(u, r))) in ts[..|ts| - 1];
        }
      }
    }
  }

  lemma SteadyTail(s: State, c: Config, p: string, u: nat, a: seq<Step>, b: seq<Step>)
    requires SteadyRun(s, c, p, u, a + b)
    ensures SteadyRun(s, c, p, u, a) && SteadyRun(StateAfter(s, c, a), c, p, u, b)
  {
    forall i | 0 <= i < |a|
      ensures Steady(StateAfter(s, c, a[..i]), p, u, a[i])
    {
      assert (a + b)[..i] == a[..i];
    }
    forall i | 0 <= i < |b|
      ensures Steady(StateAfter(StateAfter(s, c, a), c, b[..i]), p, u, b[i])
    {
      assert (a + b)[..|a| + i] == a + b[..i] && (a + b)[|a| + i] == b[i];
      StateAfterAppend(s, c, a, b[..i]);
    }
  }

  predicate CoversListing(w: World, p: string, u: nat, ts: seq<Step>) {
    forall r :: r in Ids(Listing(w, u)) ==> On(p, BatchOp(MemberStep(u, r))) in ts
  }

  /** A sync of u, and then any steady steps among which u's members steps are: u has every listed repository, and
      no other. */
  lemma SyncAndTasks(s: State, c: Config, p: string, u: nat, ext: string, now: nat, ts: seq<Step>)
    requires Contracted(s, p, u, ext) && SteadyRun(s, c, p, u, [On(p, SyncOp(u, now))] + ts)
    requires CoversListing(s.worlds[p], p, u, ts)
    ensures var z := StateAfter(s, c, [On(p, SyncOp(u, now))] + ts);
      && Contracted(z, p, u, ext) && SameMembership(s.worlds[p], z.worlds[p]) && Synced(z.db, z.worlds[p], p, u)
      && forall r :: r in Ids(Listing(s.worlds[p], u)) ==> Has(z.db, p, u, r)
  {
    var sync := On(p, SyncOp(u, now));
    SteadyTail(s, c, p, u, [sync], ts);
    StateAfterOne(s, c, sync);
    StateAfterAppend(s, c, [sync], ts);
    ContractStep(s, c, p, u, ext, sync);
    SyncSyncs(s.db, s.worlds[p], p, u, now);
    Converging(Next(s, c, sync), c, p, u, ext, ts);
  }

  /** Convergence in runs: after a sync of u and u's members steps, in any order and with any steps of anyone in
      between, u's repositories are exactly the listed ones. */
  lemma ConvergesInRuns(s: State, c: Config, p: string, u: nat, ext: string, now: nat, ts: seq<Step>)
    requires Contracted(s, p, u, ext) && SteadyRun(s, c, p, u, [On(p, SyncOp(u, now))] + ts)
    requires CoversListing(s.worlds[p], p, u, ts)
    ensures Available(StateAfter(s, c, [On(p, SyncOp(u, now))] + ts).db, p, u)
      == set r | r in Ids(Listing(s.worlds[p], u))
  {
    SyncAndTasks(s, c, p, u, ext, now, ts);
    SyncedAvailable(StateAfter(s, c, [On(p, SyncOp(u, now))] + ts).db, s.worlds[p], p, u);
  }

  lemma SyncedAvailable(db: Db, w: World, p: string, u: nat)
    requires forall r :: r in Ids(Listing(w, u)) ==> Has(db, p, u, r)
    requires forall id :: id in db.repos && db.repos[id].provider == p && (id, u) in db.assoc ==>
      db.repos[id].providerId in Ids(Listing(w, u))
    ensures Available(db, p, u) == set r | r in Ids(Listing(w, u))
  {
    forall r | r in Ids(Listing(w, u))
      ensures r in Available(db, p, u)
    {
      var id: nat :| HasKey(db, id, p, r) && (id, u) in db.assoc;
      assert (id, u).0 in db.repos;
    }
  }

  // ---------- metadata ----------

  predicate SameMetadata(g: GenericRepository, h: GenericRepository) {
    g.fullName == h.fullName && g.defaultBranch == h.defaultBranch && g.description == h.description
  }

  /** g is in u's listing, and whoever lists it sees the same. */
  ghost predicate Agreed(w: World, u: nat, g: GenericRepository) {
    g in Listing(w, u) && forall v, h :: h in Listing(w, v) && g.id == h.id ==> SameMetadata(g, h)
  }

  ghost predicate Shown(db: Db, p: string, g: GenericRepository) {
    exists id :: HasKey(db, id, p, g.id) && db.repos[id].Shows(g)
  }

  lemma SyncKeepsShown(db: Db, w: World, p: string, u: nat, v: nat, now: nat, g: GenericRepository, id: nat)
    requires Valid(db) && Agreed(w, u, g) && HasKey(db, id, p, g.id) && db.repos[id].Shows(g)
    ensures var d := Sync(db, p, v, Listing(w, v), now); HasKey(d, id, p, g.id) && d.repos[id].Shows(g)
  {
    SyncRefines(db, p, v, Listing(w, v), now);
    if Refreshes(db, p, v, Listing(w, v), id) {
      assert SameMetadata(g, Find(Listing(w, v), g.id).value);
    }
  }

  lemma EnableKeepsShown(db: Db, w: World, p: string, u: nat, r: string, com: Option<string>, edited: bool, id: nat)
    requires OneHook(w) && id in db.repos
    ensures var d := Enable(db, w, u, p, r, com, edited).db;
      id in d.repos && SameExceptEnabling(d.repos[id], db.repos[id])
  {
    var n := EnableCases(db, w, u, p, r, com, edited);
  }

  lemma ActShown(db: Db, w: World, p: string, u: nat, op: Operation, g: GenericRepository)
    requires Valid(db) && OneHook(w) && Agreed(w, u, g) && Shown(db, p, g)
    ensures Shown(Act(db, w, p, op).0, p, g)
  {
    var id :| HasKey(db, id, p, g.id) && db.repos[id].Shows(g);
    var d := Act(db, w, p, op).0;
    match op
    case SyncOp(v, now) => SyncKeepsShown(db, w, p, u, v, now, g, id);
    case BatchOp(task) => StepSameRows(db, w, p, task);
    case EnableOp(v, r, com, edited, _) => EnableKeepsShown(db, w, p, v, r, com, edited, id);
    case _ =>
      assert HasKey(d, id, p, g.id) && d.repos[id].Shows(g);
  }

  lemma StepShown(s: State, c: Config, p: string, u: nat, t: Step, g: GenericRepository)
    requires Inv(s) && p in s.worlds && Agreed(s.worlds[p], u, g) && Shown(s.db, p, g)
    ensures Shown(Next(s, c, t).db, p, g)
  {
    if t.On? && t.provider in s.worlds {
      if t.provider == p {
        ActShown(s.db, s.worlds[p], p, u, t.op, g);
      } else {
        ActKeeps(s.db, s.worlds[t.provider], t.provider, t.op);
        var id :| HasKey(s.db, id, p, g.id) && s.db.repos[id].Shows(g);
        assert HasKey(Next(s, c, t).db, id, p, g.id);
      }
    }
  }

  lemma AgreedStill(w: World, w': World, u: nat, g: GenericRepository)
    requires Agreed(w, u, g) && SameMembership(w, w')
    ensures Agreed(w', u, g)
  {
    assert forall v :: Listing(w', v) == Listing(w, v);
  }

  lemma {:induction false} StaysShown(s: State, c: Config, p: string, u: nat, ext: string, ts: seq<Step>,
                                      g: GenericRepository)
    requires Contracted(s, p, u, ext) && SteadyRun(s, c, p, u, ts) && Agreed(s.worlds[p], u, g) && Shown(s.db, p, g)
    ensures var z := StateAfter(s, c, ts);
      Contracted(z, p, u, ext) && Agreed(z.worlds[p], u, g) && Shown(z.db, p, g)
    decreases |ts|
  {
    if ts != [] {
      var n := |ts| - 1;
      SteadyPrefix(s, c, p, u, ts);
      StaysShown(s, c, p, u, ext, ts[..n], g);
      ShownStep(StateAfter(s, c, ts[..n]), c, p, u, ext, ts[n], g);
    }
  }

  lemma ShownStep(s: State, c: Config, p: string, u: nat, ext: string, t: Step, g: GenericRepository)
    requires Contracted(s, p, u, ext) && Steady(s, p, u, t) && Agreed(s.worlds[p], u, g) && Shown(s.db, p, g)
    ensures var z := Next(s, c, t);
      Contracted(z, p, u, ext) && Agreed(z.worlds[p], u, g) && Shown(z.db, p, g)
  {
    StepShown(s, c, p, u, t, g);
    ContractStep(s, c, p, u, ext, t);
    AgreedStill(s.worlds[p], Next(s, c, t).worlds[p], u, g);
  }

  /** A sync of u refreshes what u has. */
  lemma SyncShows(db: Db, w: World, p: string, u: nat, now: nat, g: GenericRepository)
    requires Valid(db) && Distinct(Ids(Listing(w, u))) && g in Listing(w, u) && Has(db, p, u, g.id)
    ensures Shown(Sync(db, p, u, Listing(w, u), now), p, g)
  {
    var id: nat :| HasKey(db, id, p, g.id) && (id, u) in db.assoc;
    SyncRefines(db, p, u, Listing(w, u), now);
    EntryListed(Listing(w, u), g);
    SameEntry(Listing(w, u), Find(Listing(w, u), g.id).value, g);
    assert Refreshes(db, p, u, Listing(w, u), id);
    assert HasKey(Sync(db, p, u, Listing(w, u), now), id, p, g.id);
  }

  /** A sync of u while u has g, and then any steady steps: u still has g, under the remote's metadata. */
  lemma RefreshedBySync(s: State, c: Config, p: string, u: nat, ext: string, now: nat, ts: seq<Step>,
                        g: GenericRepository)
    requires Contracted(s, p, u, ext) && SteadyRun(s, c, p, u, [On(p, SyncOp(u, now))] + ts)
    requires Synced(s.db, s.worlds[p], p, u) && Agreed(s.worlds[p], u, g) && Has(s.db, p, u, g.id)
    ensures var z := StateAfter(s, c, [On(p, SyncOp(u, now))] + ts);
      Has(z.db, p, u, g.id) && Shown(z.db, p, g)
  {
    var sync := On(p, SyncOp(u, now));
    var synced := Next(s, c, sync);
    EntryListed(Listing(s.worlds[p], u), g);
    SteadyTail(s, c, p, u, [sync], ts);
    StateAfterOne(s, c, sync);
    SyncShows(s.db, s.worlds[p], p, u, now, g);
    ContractStep(s, c, p, u, ext, sync);
    SyncedStep(s, c, p, u, ext, sync);
    Converging(synced, c, p, u, ext, ts);
    StaysShown(synced, c, p, u, ext, ts, g);
    StateAfterAppend(s, c, [sync], ts);
  }

  /** Two rounds in runs: after a sync of u, u's members steps and a second sync, with any steps of anyone in between
      and after, u has every listed repository under the remote's name, branch and description. */
  lemma RefreshedInRuns(s: State, c: Config, p: string, u: nat, ext: string, now: nat, ts: seq<Step>, now': nat,
                        more: seq<Step>, g: GenericRepository)
    requires Contracted(s, p, u, ext) && CoversListing(s.worlds[p], p, u, ts)
    requires SteadyRun(s, c, p, u, ([On(p, SyncOp(u, now))] + ts) + ([On(p, SyncOp(u, now'))] + more))
    requires Agreed(s.worlds[p], u, g)
    ensures var z := StateAfter(s, c, ([On(p, SyncOp(u, now))] + ts) + ([On(p, SyncOp(u, now'))] + more));
      Has(z.db, p, u, g.id) && Shown(z.db, p, g)
  {
    var first, second := [On(p, SyncOp(u, now))] + ts, [On(p, SyncOp(u, now'))] + more;
    var mid := StateAfter(s, c, first);
    SteadyTail(s, c, p, u, first, second);
    SyncAndTasks(s, c, p, u, ext, now, ts);
    EntryListed(Listing(s.worlds[p], u), g);
    AgreedStill(s.worlds[p], mid.worlds[p], u, g);
    RefreshedBySync(mid, c, p, u, ext, now', more, g);
    StateAfterAppend(s, c, first, second);
  }
}
