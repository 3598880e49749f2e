/** Every service operation, task iteration, delivery and attempt as a step over the tables, the remotes and the
    release queue; what every run of such steps keeps. */
module System {
  import opened Domain
  import opened Tables
  import opened Provider
  import opened SyncSpec
  import opened EnableSpec
  import opened Convergence
  import opened HookInvariants
  import opened Handlers
  import opened Releases
  import opened ReleaseInvariants
  import opened Disconnect

  /** The tables and the release queue are shared; every configured provider has a remote of its own. */
  datatype State = State(db: Db, worlds: map<string, World>, intake: Intake)

  /** An operation at one provider. The changes of an enable or a disable to the tables can be lost before they are
      committed, while their remote effects stay. A cleanup task makes one such disable for each of its entries. */
  datatype Operation =
    | SyncOp(user: nat, now: nat)
    | BatchOp(task: TaskStep)
    | EnableOp(user: nat, repo: string, community: Option<string>, edited: bool, committed: bool)
    | DisableOp(user: nat, repo: string, hook: Option<HookText>, answered: bool, committed: bool)
    | ConnectOp(user: nat, account: string, now: nat)
    | DisconnectOp(user: nat, ext: Option<string>)
    | RemoteOp(world: World)                              // other parties change the remote

  datatype Step =
    | On(provider: string, op: Operation)
    | DeliveryStep(provider: string, payload: Payload)
    | ReleaseStep(index: nat, end: PluginEnd)

  /** An external account is linked to one local user, and a local user links one account per provider. */
  ghost predicate CanConnect(db: Db, p: string, u: nat, ext: string) {
    (p, ext) !in db.identities && !HasAccount(db, p, u)
  }

  ghost predicate HasAccount(db: Db, p: string, u: nat) {
    exists e :: (p, e) in db.identities && db.identities[(p, e)] == u
  }

  /** VCSService.init_account: link the external account, and start the account's data with a sync time. */
  ghost function Connect(db: Db, p: string, u: nat, ext: string, now: nat): Db {
    db.(identities := db.identities[(p, ext) := u], lastSync := db.lastSync[(p, u) := now])
  }

  /** What an operation at provider p makes of the tables and p's remote. One that is not possible changes nothing. */
  ghost function Act(db: Db, w: World, p: string, op: Operation): (Db, World) {
    match op
    case SyncOp(u, now) => (Sync(db, p, u, Listing(w, u), now), w)
    case BatchOp(task) => (Apply(db, w, p, task), w)
    case EnableOp(u, r, com, edited, committed) =>
      var e := Enable(db, w, u, p, r, com, edited);
      (if committed then e.db else db, e.world)
    case DisableOp(u, r, hook, answered, committed) =>
      var e := Disable(db, w, u, p, r, hook, answered);
      (if committed then e.db else db, e.world)
    case ConnectOp(u, ext, now) => (if CanConnect(db, p, u, ext) then Connect(db, p, u, ext, now) else db, w)
    case DisconnectOp(u, ext) => (if Unlinks(db, p, u, ext) then AfterHandler(db, p, u, ext) else db, w)
    case RemoteOp(w') => (db, if NoNewHooks(w, w') then w' else w)
  }

  /** An account of nobody's is linked to a user without one, starts with a sync time, and can be disconnected again;
      any other connect changes nothing. Disconnecting at once restores the tables exactly when the user had no last
      sync there and none of the user's rows carries a hook. */
  lemma DisconnectUndoesConnect(db: Db, w: World, p: string, u: nat, ext: string, now: nat)
    ensures var c := Act(db, w, p, ConnectOp(u, ext, now)).0;
      var d := Act(c, w, p, DisconnectOp(u, Some(ext))).0;
      if (p, ext) !in db.identities && forall e :: (p, e) in db.identities ==> db.identities[(p, e)] != u then
        && (p, ext) in c.identities && c.identities[(p, ext)] == u && (p, u) in c.lastSync && c.lastSync[(p, u)] == now
        && c == db.(identities := c.identities, lastSync := c.lastSync) && d.identities == db.identities
        && (d == db <==> (p, u) !in db.lastSync && forall id :: !HasHook(db, p, u, id))
      else c == db
  {
    var c := Act(db, w, p, ConnectOp(u, ext, now)).0;
    var d := Act(c, w, p, DisconnectOp(u, Some(ext))).0;
    if CanConnect(db, p, u, ext) {
      assert d.identities == db.identities;
      assert forall id :: HasHook(c, p, u, id) <==> HasHook(db, p, u, id);
      if (p, u) !in db.lastSync {
        assert d.lastSync == db.lastSync;
      }
      if forall id :: !HasHook(db, p, u, id) {
        assert d.repos == db.repos;
      }
    }
  }

  /** One step; c is the handler configuration. */
  ghost function Next(s: State, c: Config, t: Step): State {
    match t
    case On(p, op) =>
      if p in s.worlds then
        var (d, w) := Act(s.db, s.worlds[p], p, op);
        s.(db := d, worlds := s.worlds[p := w])
      else s
    case DeliveryStep(q, e) => s.(intake := Deliver(s.intake, s.db, q, e).0)
    case ReleaseStep(i, end) => if i < |s.intake.queue| then s.(intake := AttemptTask(s.intake, c, i, end)) else s
  }

  ghost function StateAfter(s: State, c: Config, ts: seq<Step>): State {
    if ts == [] then s else Next(StateAfter(s, c, ts[..|ts| - 1]), c, ts[|ts| - 1])
  }

  lemma StateAfterLast(s: State, c: Config, ts: seq<Step>, t: Step)
    ensures StateAfter(s, c, ts + [t]) == Next(StateAfter(s, c, ts), c, t)
  {
    assert (ts + [t])[..|ts|] == ts;
  }

  lemma StateAfterMore(s: State, c: Config, a: seq<Step>, b: seq<Step>, t: Step)
    requires StateAfter(s, c, a + b) == StateAfter(StateAfter(s, c, a), c, b)
    ensures StateAfter(s, c, a + (b + [t])) == StateAfter(StateAfter(s, c, a), c, b + [t])
  {
    assert a + (b + [t]) == (a + b) + [t];
    StateAfterLast(s, c, a + b, t);
    StateAfterLast(StateAfter(s, c, a), c, b, t);
  }

  lemma {:induction false} StateAfterAppend(s: State, c: Config, a: seq<Step>, b: seq<Step>)
    ensures StateAfter(s, c, a + b) == StateAfter(StateAfter(s, c, a), c, b)
  {
    if b == [] {
      assert a + b == a;
    } else {
      StateAfterAppend(s, c, a, b[..|b| - 1]);
      StateAfterMore(s, c, a, b[..|b| - 1], b[|b| - 1]);
      assert b == b[..|b| - 1] + [b[|b| - 1]];
    }
  }

  lemma StateAfterOne(s: State, c: Config, t: Step)
    ensures StateAfter(s, c, [t]) == Next(s, c, t)
  {
    assert [t][..0] == [];
  }

  lemma StateAfterCons(s: State, c: Config, t: Step, ts: seq<Step>)
    ensures StateAfter(s, c, [t] + ts) == StateAfter(Next(s, c, t), c, ts)
  {
    StateAfterOne(s, c, t);
    StateAfterAppend(s, c, [t], ts);
  }

  /** Every release refers to a registered repository of its own provider. */
  ghost predicate ReleasesBelong(s: State) {
    forall k :: k in s.intake.releases ==>
      && s.intake.releases[k].repo in s.db.repos
      && s.db.repos[s.intake.releases[k].repo].provider == s.intake.releases[k].provider
  }

  ghost predicate Inv(s: State) {
    && Valid(s.db) && IntakeOk(s.intake) && ReleasesBelong(s)
    && forall p :: p in s.worlds ==> OneHook(s.worlds[p])
  }

  /** Nothing registered, nothing received, and remotes without hooks of ours. */
  ghost predicate Initial(s: State) {
    && s.db.repos == map[] && s.db.assoc == {}
    && s.intake == Intake(map[], 0, [], [])
    && forall p :: p in s.worlds ==> CleanRemote(s.worlds[p])
  }

  ghost predicate CleanRemote(w: World) {
    w.host != "" && forall r, n :: n in HooksOf(w, r) ==> n < w.nextHook && !Ours(w, r, n)
  }

  lemma InitialInv(s: State)
    requires Initial(s)
    ensures Inv(s) && AllLive(s)
  {
    forall id: string
      ensures RowsFor(s.intake, id) == {}
    {
    }
  }

  // ---------- one operation ----------

  /** Rows are never deleted and never change provider or provider id. */
  ghost predicate RowsKept(db: Db, d: Db) {
    forall id :: id in db.repos ==>
      && id in d.repos && d.repos[id].provider == db.repos[id].provider
      && d.repos[id].providerId == db.repos[id].providerId
  }

  /** Beyond that, rows of other providers than p, and their associations, do not change at all, and none is added. */
  ghost predicate OnlyProvider(db: Db, d: Db, p: string) {
    && RowsKept(db, d)
    && (forall id :: id in db.repos && db.repos[id].provider != p ==> d.repos[id] == db.repos[id])
    && (forall id :: id in d.repos && id !in db.repos ==> d.repos[id].provider == p)
    && (forall id: nat, v: nat :: id in db.repos && db.repos[id].provider != p ==>
          ((id, v) in d.assoc <==> (id, v) in db.assoc))
  }

  lemma SyncActs(db: Db, p: string, u: nat, xs: seq<GenericRepository>, now: nat)
    requires Valid(db)
    ensures Valid(Sync(db, p, u, xs, now)) && OnlyProvider(db, Sync(db, p, u, xs, now), p)
  {
    SyncRefines(db, p, u, xs, now);
    var d := Sync(db, p, u, xs, now);
    forall id | id in d.repos && id !in db.repos
      ensures d.repos[id].provider == p
    {
      var g :| g in xs && NewFor(d.repos[id], p, g);
    }
  }

  lemma BatchActs(db: Db, w: World, p: string, t: TaskStep)
    requires Valid(db)
    ensures Valid(Apply(db, w, p, t)) && OnlyProvider(db, Apply(db, w, p, t), p)
    ensures LiveHooks(db, w, p) ==> LiveHooks(Apply(db, w, p, t), w, p)
  {
    ApplyValid(db, w, p, t);
    match t
    case HookStep(u, r) =>
      assert Outcome(db, w, p, t) == HookSync(db, w, u, p, r);
      if HookSync(db, w, u, p, r).Ok? && LiveHooks(db, w, p) {
        HookSyncKeeps(db, w, u, p, r);
      }
    case MemberStep(u, r) =>
      assert Outcome(db, w, p, t) == UserSync(db, w, u, p, r);
  }

  lemma EnableActs(db: Db, w: World, u: nat, p: string, r: string, com: Option<string>, edited: bool)
    requires Valid(db) && OneHook(w)
    ensures var e := Enable(db, w, u, p, r, com, edited);
      Valid(e.db) && OneHook(e.world) && OnlyProvider(db, e.db, p)
  {
    EnableKeeps(db, w, u, p, r, com, edited);
    var n := EnableCases(db, w, u, p, r, com, edited);
  }

  lemma DisableActs(db: Db, w: World, u: nat, p: string, r: string, hook: Option<HookText>, answered: bool)
    requires Valid(db) && OneHook(w)
    ensures var e := Disable(db, w, u, p, r, hook, answered);
      Valid(e.db) && OneHook(e.world) && OnlyProvider(db, e.db, p)
  {
    DisableRemote(db, w, u, p, r, hook, answered);
    DisableTables(db, w, u, p, r, hook, answered);
  }

  lemma DisconnectActs(db: Db, w: World, u: nat, p: string, ext: Option<string>)
    requires Valid(db)
    ensures Valid(AfterHandler(db, p, u, ext)) && OnlyProvider(db, AfterHandler(db, p, u, ext), p)
  {
    HandlerForgets(db, w, p, u, ext);
  }

  lemma ActKeeps(db: Db, w: World, p: string, op: Operation)
    requires Valid(db) && OneHook(w)
    ensures var (d, w') := Act(db, w, p, op);
      Valid(d) && OneHook(w') && OnlyProvider(db, d, p)
  {
    match op
    case SyncOp(u, now) => SyncActs(db, p, u, Listing(w, u), now);
    case BatchOp(task) => BatchActs(db, w, p, task);
    case EnableOp(u, r, com, edited, _) => EnableActs(db, w, u, p, r, com, edited);
    case DisableOp(u, r, hook, answered, _) => DisableActs(db, w, u, p, r, hook, answered);
    case DisconnectOp(u, ext) => DisconnectActs(db, w, u, p, ext);
    case _ =>
  }

  // ---------- the invariant of all runs ----------

  lemma StepKeeps(s: State, c: Config, t: Step)
    requires Inv(s)
    ensures Inv(Next(s, c, t)) && RowsKept(s.db, Next(s, c, t).db) && Next(s, c, t).worlds.Keys == s.worlds.Keys
  {
    match t
    case On(p, op) =>
      if p in s.worlds {
        ActKeeps(s.db, s.worlds[p], p, op);
      }
    case DeliveryStep(q, e) => DeliveryKeeps(s, q, e);
    case ReleaseStep(i, end) =>
      if i < |s.intake.queue| {
        AttemptKeeps(s.intake, c, i, end);
        AttemptCases(s.intake, c, i, end);
      }
  }

  lemma DeliveryKeeps(s: State, q: string, e: Payload)
    requires Inv(s)
    ensures var x := Deliver(s.intake, s.db, q, e).0;
      IntakeOk(x) && ReleasesBelong(s.(intake := x))
  {
    DeliverAccepts(s.intake, s.db, q, e);
  }

  /** The invariant of all runs of all users at all providers: unique and referenced rows, at most one hook of ours
      per repository, one row and one task per release, paid-for plugin runs, and releases that belong to
      repositories of their provider. */
  lemma {:induction false} RunInv(s: State, c: Config, ts: seq<Step>)
    requires Inv(s)
    ensures var z := StateAfter(s, c, ts); Inv(z) && RowsKept(s.db, z.db) && z.worlds.Keys == s.worlds.Keys
  {
    if ts != [] {
      RunInv(s, c, ts[..|ts| - 1]);
      StepKeeps(StateAfter(s, c, ts[..|ts| - 1]), c, ts[|ts| - 1]);
    }
  }

  // ---------- well-formed rows ----------

  /** New rows are well-formed, and rows that were well-formed still are. */
  ghost predicate KeepsWellFormed(db: Db, d: Db) {
    forall id :: id in d.repos && (id in db.repos ==> db.repos[id].WellFormed()) ==> d.repos[id].WellFormed()
  }

  lemma SyncWellFormed(db: Db, p: string, u: nat, xs: seq<GenericRepository>, now: nat)
    requires Valid(db)
    ensures KeepsWellFormed(db, Sync(db, p, u, xs, now))
  {
    SyncRefines(db, p, u, xs, now);
    var d := Sync(db, p, u, xs, now);
    forall id | id in d.repos && id !in db.repos
      ensures d.repos[id].WellFormed()
    {
      var g :| g in xs && NewFor(d.repos[id], p, g);
    }
  }

  lemma BatchWellFormed(db: Db, w: World, p: string, t: TaskStep)
    ensures KeepsWellFormed(db, Apply(db, w, p, t))
  {
    match t
    case HookStep(u, r) => assert Outcome(db, w, p, t) == HookSync(db, w, u, p, r);
    case MemberStep(u, r) => assert Outcome(db, w, p, t) == UserSync(db, w, u, p, r);
  }

  lemma EnableWellFormed(db: Db, w: World, u: nat, p: string, r: string, com: Option<string>, edited: bool)
    requires OneHook(w)
    ensures KeepsWellFormed(db, Enable(db, w, u, p, r, com, edited).db)
  {
    var n := EnableCases(db, w, u, p, r, com, edited);
  }

  lemma ActWellFormed(db: Db, w: World, p: string, op: Operation)
    requires Valid(db) && OneHook(w)
    ensures KeepsWellFormed(db, Act(db, w, p, op).0)
  {
    match op
    case SyncOp(u, now) => SyncWellFormed(db, p, u, Listing(w, u), now);
    case BatchOp(task) => BatchWellFormed(db, w, p, task);
    case EnableOp(u, r, com, edited, _) => EnableWellFormed(db, w, u, p, r, com, edited);
    case _ =>
  }

  /** In every run, rows become and stay well-formed, whatever the other rows are like. */
  lemma {:induction false} RunWellFormed(s: State, c: Config, ts: seq<Step>)
    requires Inv(s)
    ensures KeepsWellFormed(s.db, StateAfter(s, c, ts).db)
  {
    if ts != [] {
      var before, t := StateAfter(s, c, ts[..|ts| - 1]), ts[|ts| - 1];
      RunWellFormed(s, c, ts[..|ts| - 1]);
      RunInv(s, c, ts[..|ts| - 1]);
      StepKeeps(before, c, t);
      if t.On? && t.provider in before.worlds {
        ActWellFormed(before.db, before.worlds[t.provider], t.provider, t.op);
      }
    }
  }

  /** In every run from an empty installation, a hook and an enabler come and go together, and only enabled rows carry a
      community. */
  lemma WellFormedInRuns(s: State, c: Config, ts: seq<Step>)
    requires Initial(s)
    ensures RowsWellFormed(StateAfter(s, c, ts).db)
  {
    InitialInv(s);
    RunWellFormed(s, c, ts);
  }

  /** In no run does anyone ever meet two hooks of ours on one repository. */
  lemma NeverMultipleInRuns(s: State, c: Config, ts: seq<Step>, p: string, u: nat, r: string)
    requires Initial(s) && p in s.worlds
    ensures p in StateAfter(s, c, ts).worlds
    ensures ConfiguredWebhook(StateAfter(s, c, ts).worlds[p], u, r) != Raised(MultipleWebhooks)
  {
    InitialInv(s);
    RunInv(s, c, ts);
    NeverMultiple(StateAfter(s, c, ts).worlds[p], u, r);
  }

  // ---------- hook columns over runs ----------

  /** At every provider, every hook column names a hook of ours that exists. */
  ghost predicate AllLive(s: State) {
    forall p :: p in s.worlds ==> LiveHooks(s.db, s.worlds[p], p)
  }

  /** The operation deletes no hook that the tables go on naming: it is no disable, its changes to the tables are
      committed, or the row of the repository does not name the hook it removes; and other parties leave the hooks
      alone that rows name. */
  ghost predicate HarmlessOp(db: Db, w: World, p: string, op: Operation) {
    match op
    case DisableOp(u, r, hook, answered, committed) =>
      committed || forall n :: AvailableRow(db, p, u, r).Some? && Removes(w, u, r, hook, answered, n) ==>
                     !Named(db, p, r, n)
    case RemoteOp(w') =>
      NoNewHooks(w, w') ==> forall r, n :: Ours(w, r, n) && !Ours(w', r, n) ==> !Named(db, p, r, n)
    case _ => true
  }

  ghost predicate Harmless(s: State, t: Step) {
    t.On? && t.provider in s.worlds ==> HarmlessOp(s.db, s.worlds[t.provider], t.provider, t.op)
  }

  /** Every step is harmless in the state it is made in. */
  ghost predicate HarmlessRun(s: State, c: Config, ts: seq<Step>) {
    ts == [] || (HarmlessRun(s, c, ts[..|ts| - 1]) && Harmless(StateAfter(s, c, ts[..|ts| - 1]), ts[|ts| - 1]))
  }

  /** Every state of the run is live. */
  ghost predicate AlwaysLive(s: State, c: Config, ts: seq<Step>) {
    AllLive(StateAfter(s, c, ts)) && (ts == [] || AlwaysLive(s, c, ts[..|ts| - 1]))
  }

  lemma LiveAct(db: Db, w: World, p: string, op: Operation)
    requires Valid(db) && OneHook(w) && LiveHooks(db, w, p)
    ensures var (d, w') := Act(db, w, p, op);
      LiveHooks(d, w', p) <==> HarmlessOp(db, w, p, op)
  {
    match op
    case SyncOp(u, now) => SyncKeepsLive(db, w, p, u, now);
    case BatchOp(task) => BatchActs(db, w, p, task);
    case EnableOp(u, r, com, edited, _) => EnableKeeps(db, w, u, p, r, com, edited);
    case DisableOp(u, r, hook, answered, committed) =>
      if committed {
        DisableKeeps(db, w, u, p, r, hook, answered);
      } else {
        UncommittedDisable(db, w, u, p, r, hook, answered);
      }
    case DisconnectOp(u, ext) => HandlerForgets(db, w, p, u, ext);
    case ConnectOp(_, _, _) =>
    case RemoteOp(w') => LiveUnlessNamed(db, w, w', p);
  }

  lemma SyncKeepsLive(db: Db, w: World, p: string, u: nat, now: nat)
    requires Valid(db) && LiveHooks(db, w, p)
    ensures LiveHooks(Sync(db, p, u, Listing(w, u), now), w, p)
  {
    SyncRefines(db, p, u, Listing(w, u), now);
    NewRowsBlank(db, p, Listing(w, u), Sync(db, p, u, Listing(w, u), now));
  }

  lemma NewRowsBlank(db: Db, p: string, xs: seq<GenericRepository>, d: Db)
    requires NewRows(db, p, xs, d)
    ensures forall id :: id in d.repos && id !in db.repos ==> d.repos[id].hook.None?
  {
    forall id | id in d.repos && id !in db.repos
      ensures d.repos[id].hook.None?
    {
      var g :| g in xs && NewFor(d.repos[id], p, g);
    }
  }

  /** An operation at one provider does not touch the link at another. */
  lemma LiveElsewhere(db: Db, d: Db, p: string, w: World, q: string)
    requires OnlyProvider(db, d, p) && q != p
    ensures LiveHooks(d, w, q) <==> LiveHooks(db, w, q)
  {
    if LiveHooks(d, w, q) {
      forall id | id in db.repos && db.repos[id].provider == q
        ensures LiveRow(db.repos[id], w)
      {
        assert LiveRow(d.repos[id], w);
      }
    }
  }

  lemma LiveStep(s: State, c: Config, t: Step)
    requires Inv(s) && AllLive(s)
    ensures AllLive(Next(s, c, t)) <==> Harmless(s, t)
  {
    var z := Next(s, c, t);
    if t.On? && t.provider in s.worlds {
      var p := t.provider;
      LiveAct(s.db, s.worlds[p], p, t.op);
      ActKeeps(s.db, s.worlds[p], p, t.op);
      forall q | q in s.worlds && q != p
        ensures LiveHooks(z.db, z.worlds[q], q)
      {
        LiveElsewhere(s.db, z.db, p, s.worlds[q], q);
      }
      assert AllLive(z) <==> LiveHooks(z.db, z.worlds[p], p);
    }
  }

  /** In every state of a run, enabled rows name existing hooks of ours, exactly when no step of the run deletes a hook
      that the tables go on naming. */
  lemma {:induction false} RunLive(s: State, c: Config, ts: seq<Step>)
    requires Inv(s) && AllLive(s)
    ensures AlwaysLive(s, c, ts) <==> HarmlessRun(s, c, ts)
  {
    if ts != [] {
      var prefix := ts[..|ts| - 1];
      RunLive(s, c, prefix);
      if AlwaysLive(s, c, prefix) {
        RunInv(s, c, prefix);
        LiveStep(StateAfter(s, c, prefix), c, ts[|ts| - 1]);
      }
    }
  }

  // ---------- deleted hooks stay deleted ----------

  ghost predicate FreshOnly(w: World, w': World) {
    w.nextHook <= w'.nextHook && forall r, n :: n in HooksOf(w', r) && n < w.nextHook ==> n in HooksOf(w, r)
  }

  lemma EnableFreshOnly(db: Db, w: World, u: nat, p: string, r: string, com: Option<string>, edited: bool)
    requires OneHook(w)
    ensures FreshOnly(w, Enable(db, w, u, p, r, com, edited).world)
  {
    NeverMultiple(w, u, r);
    match ConfiguredWebhook(w, u, r)
    case Ok(Some(n)) => EditOurs(w, u, r, n, edited);
    case Ok(None) => CreateOurs(w, u, r);
    case Raised(_) =>
  }

  lemma ActFreshOnly(db: Db, w: World, p: string, op: Operation)
    requires Valid(db) && OneHook(w)
    ensures FreshOnly(w, Act(db, w, p, op).1)
  {
    match op
    case EnableOp(u, r, com, edited, _) => EnableFreshOnly(db, w, u, p, r, com, edited);
    case DisableOp(u, r, hook, answered, _) => DisableKeeps(db, w, u, p, r, hook, answered);
    case _ =>
  }

  lemma FreshStep(s: State, c: Config, t: Step, p: string)
    requires Inv(s) && p in s.worlds
    ensures p in Next(s, c, t).worlds && FreshOnly(s.worlds[p], Next(s, c, t).worlds[p])
  {
    if t.On? && t.provider == p {
      ActFreshOnly(s.db, s.worlds[p], p, t.op);
    }
  }

  /** Over every run, hooks that existed at its start may go, and no id from before it is issued. */
  lemma {:induction false} RunFreshOnly(s: State, c: Config, ts: seq<Step>, p: string)
    requires Inv(s) && p in s.worlds
    ensures p in StateAfter(s, c, ts).worlds && FreshOnly(s.worlds[p], StateAfter(s, c, ts).worlds[p])
  {
    if ts != [] {
      RunFreshOnly(s, c, ts[..|ts| - 1], p);
      RunInv(s, c, ts[..|ts| - 1]);
      FreshStep(StateAfter(s, c, ts[..|ts| - 1]), c, ts[|ts| - 1], p);
    }
  }

  /** A hook that is gone never comes back, so what a cleanup deleted stays deleted in every continuation. */
  lemma GoneForever(s: State, c: Config, ts: seq<Step>, p: string, r: string, n: nat)
    requires Inv(s) && p in s.worlds && n < s.worlds[p].nextHook && n !in HooksOf(s.worlds[p], r)
    ensures p in StateAfter(s, c, ts).worlds && n !in HooksOf(StateAfter(s, c, ts).worlds[p], r)
  {
    RunFreshOnly(s, c, ts, p);
  }

  // ---------- a disconnect from beginning to end ----------

  /** The cleanup's call for one entry, whose changes to the tables are never committed. */
  function CleanupCall(p: string, u: nat, e: Captured, x: Weather): Step {
    On(p, DisableOp(u, e.0, Some(e.1), e.0 !in x.refused, false))
  }

  /** The calls of one attempt at the cleanup, each a step of its own: other steps can come between them. */
  function CleanupCalls(p: string, u: nat, walked: seq<Captured>, x: Weather): seq<Step> {
    seq(|walked|, k requires 0 <= k < |walked| => CleanupCall(p, u, walked[k], x))
  }

  /** The attempt's first call, and the rest of the attempt. */
  lemma {:induction false} FirstCall(db: Db, w: World, u: nat, p: string, list: seq<Captured>, x: Weather)
    returns (w': World)
    requires Valid(db) && list != [] && Walkable(db, w, u, p, list[0], x)
    ensures w' == Act(db, w, p, CleanupCall(p, u, list[0], x).op).1
    ensures Clean(db, w, u, p, list, x) == Clean(db, w', u, p, list[1..], x)
    ensures Walked(db, w, u, p, list, x) == 1 + Walked(db, w', u, p, list[1..], x)
  {
    var d := FirstWalked(db, w, u, p, list, x);
    w' := d.world;
    SameWalk(db, w, db, w', u, p, list[1..], x);
    SameWalk(db, w, d.db, w', u, p, list[1..], x);
    SameRemote(db, d.db, w', u, p, list[1..], x);
  }

  lemma CallStep(s: State, c: Config, p: string, u: nat, e: Captured, x: Weather)
    requires p in s.worlds
    ensures var call := CleanupCall(p, u, e, x);
      Next(s, c, call) == s.(worlds := s.worlds[p := Act(s.db, s.worlds[p], p, call.op).1])
  {
  }

  lemma ChainCalls(s: State, c: Config, p: string, call: Step, rest: seq<Step>, w1: World, w2: World)
    requires p in s.worlds && Next(s, c, call) == s.(worlds := s.worlds[p := w1])
    requires StateAfter(s.(worlds := s.worlds[p := w1]), c, rest) == s.(worlds := s.worlds[p := w1][p := w2])
    ensures StateAfter(s, c, [call] + rest) == s.(worlds := s.worlds[p := w2])
  {
    StateAfterCons(s, c, call, rest);
    assert s.worlds[p := w1][p := w2] == s.worlds[p := w2];
  }

  /** Without anything in between, these calls are the attempt. */
  lemma {:induction false} CleanupIsItsCalls(s: State, c: Config, p: string, u: nat, list: seq<Captured>, x: Weather)
    requires Valid(s.db) && p in s.worlds
    ensures StateAfter(s, c, CleanupCalls(p, u, list[..Walked(s.db, s.worlds[p], u, p, list, x)], x))
      == s.(worlds := s.worlds[p := Clean(s.db, s.worlds[p], u, p, list, x).world])
    decreases |list|
  {
    var w, k := s.worlds[p], Walked(s.db, s.worlds[p], u, p, list, x);
    if k == 0 {
      assert CleanupCalls(p, u, list[..0], x) == [];
      if list != [] {
        StoppedAtOnce(s.db, w, u, p, list, x);
      }
      assert s.worlds[p := w] == s.worlds;
    } else {
      var rest, call := list[1..], CleanupCall(p, u, list[0], x);
      var w' := FirstCall(s.db, w, u, p, list, x);
      var s' := s.(worlds := s.worlds[p := w']);
      CleanupIsItsCalls(s', c, p, u, rest, x);
      FirstThenRest(p, u, list, k, x);
      CallStep(s, c, p, u, list[0], x);
      ChainCalls(s, c, p, call, CleanupCalls(p, u, rest[..k - 1], x), w', Clean(s.db, w', u, p, rest, x).world);
    }
  }

  lemma FirstThenRest(p: string, u: nat, list: seq<Captured>, k: nat, x: Weather)
    requires 0 < k <= |list|
    ensures CleanupCalls(p, u, list[..k], x)
      == [CleanupCall(p, u, list[0], x)] + CleanupCalls(p, u, list[1..][..k - 1], x)
  {
  }

  /** The remote effects of an attempt do not depend on the columns that it clears in its transaction. */
  lemma {:induction false} SameRemote(db: Db, d: Db, w: World, u: nat, p: string, list: seq<Captured>, x: Weather)
    requires Valid(db) && Valid(d) && forall s :: AvailableRow(d, p, u, s) == AvailableRow(db, p, u, s)
    ensures Clean(d, w, u, p, list, x) == Clean(db, w, u, p, list, x)
    decreases |list|
  {
    if list != [] && list[0].0 !in x.outage {
      var (r, h) := list[0];
      var a := Disable(db, w, u, p, r, Some(h), r !in x.refused);
      var b := Disable(d, w, u, p, r, Some(h), r !in x.refused);
      assert a.world == b.world && a.result == b.result;
      if !a.result.Raised? {
        DisableValid(db, w, u, p, r, Some(h), r !in x.refused);
        DisableValid(d, w, u, p, r, Some(h), r !in x.refused);
        SameRemote(a.db, b.db, a.world, u, p, list[1..], x);
      }
    }
  }

  /** The cleanup's call for a captured hook, made while the repository is the user's, its hooks can be seen, and the
      remote agrees, whether or not its changes to the tables are committed. */
  lemma CallDeletes(s: State, c: Config, p: string, u: nat, e: Captured, committed: bool)
    requires Inv(s) && p in s.worlds && e.1.Digits? && e.1.n < s.worlds[p].nextHook
    requires AvailableRow(s.db, p, u, e.0).Some? && ReachOf(s.worlds[p], u, e.0).Full?
    ensures var z := Next(s, c, On(p, DisableOp(u, e.0, Some(e.1), true, committed)));
      p in z.worlds && Gone(z.worlds[p], e) && e.1.n < z.worlds[p].nextHook
  {
    var op := DisableOp(u, e.0, Some(e.1), true, committed);
    ActFreshOnly(s.db, s.worlds[p], p, op);
    DeleteOurs(s.worlds[p], e.0, e.1.n);
  }

  lemma CapturedIsLive(s: State, p: string, u: nat, list: seq<Captured>, e: Captured)
    requires Inv(s) && AllLive(s) && p in s.worlds && Captures(s.db, p, u, list) && e in list
    ensures e.1.Digits? && e.1.n < s.worlds[p].nextHook
  {
    var id :| CapturedFrom(s.db, p, u, e, id);
    assert LiveRow(s.db.repos[id], s.worlds[p]);
  }

  /** Hooks captured in some state; then any steps of any users, failed cleanups among them; then the cleanup's call
      for one captured hook, made while the repository is the user's, its hooks can be seen, and the remote agrees;
      then again any steps. That hook does not exist at the end. */
  lemma DisconnectedForGood(s: State, c: Config, p: string, u: nat, list: seq<Captured>, e: Captured,
                            before: seq<Step>, committed: bool, after: seq<Step>)
    requires Inv(s) && AllLive(s) && p in s.worlds && Captures(s.db, p, u, list) && e in list
    requires var mid := StateAfter(s, c, before);
      AvailableRow(mid.db, p, u, e.0).Some? && p in mid.worlds && ReachOf(mid.worlds[p], u, e.0).Full?
    ensures var call := On(p, DisableOp(u, e.0, Some(e.1), true, committed));
      var z := StateAfter(s, c, before + ([call] + after));
      e.1.Digits? && p in z.worlds && Gone(z.worlds[p], e)
  {
    var call := On(p, DisableOp(u, e.0, Some(e.1), true, committed));
    var mid := StateAfter(s, c, before);
    CapturedIsLive(s, p, u, list, e);
    RunInv(s, c, before);
    RunFreshOnly(s, c, before, p);
    CallDeletes(mid, c, p, u, e, committed);
    StepKeeps(mid, c, call);
    GoneForever(Next(mid, c, call), c, after, p, e.0, e.1.n);
    StateAfterCons(mid, c, call, after);
    StateAfterAppend(s, c, before, [call] + after);
  }

  // ---------- releases over runs ----------

  /** Once a release is in processing, published, deleted or pending publication, no continuation runs the plugin on
      it or changes it. */
  lemma SettledForever(s: State, c: Config, ts: seq<Step>, k: nat)
    requires Inv(s) && k in s.intake.releases
    requires s.intake.releases[k].status in {Processing, Published, Deleted, PublishPending}
    ensures Untouched(s.intake, StateAfter(s, c, ts).intake, k)
  {
    SettledRun(s, c, ts, k);
  }

  lemma {:induction false} SettledRun(s: State, c: Config, ts: seq<Step>, k: nat)
    requires Inv(s) && k in s.intake.releases && !Pending(s.intake.releases[k].status)
    ensures Untouched(s.intake, StateAfter(s, c, ts).intake, k)
  {
    if ts != [] {
      SettledRun(s, c, ts[..|ts| - 1], k);
      RunInv(s, c, ts[..|ts| - 1]);
      SettledStep(StateAfter(s, c, ts[..|ts| - 1]), c, ts[|ts| - 1], k);
    }
  }

  lemma SettledStep(s: State, c: Config, t: Step, k: nat)
    requires RowsOk(s.intake) && k in s.intake.releases && !Pending(s.intake.releases[k].status)
    ensures var x := Next(s, c, t).intake;
      && k in x.releases && x.releases[k] == s.intake.releases[k]
      && RunsOfRow(x.log, k) == RunsOfRow(s.intake.log, k)
  {
    match t
    case ReleaseStep(i, end) =>
      if i < |s.intake.queue| {
        AttemptSkipsSettled(s.intake, c, i, end, k);
      }
    case _ =>
  }

  /** Rows a and b have one release id and are both pending. */
  ghost predicate BothPending(x: Intake, a: nat, b: nat) {
    && a != b && a in x.releases && b in x.releases && x.releases[a].providerId == x.releases[b].providerId
    && Pending(x.releases[a].status) && Pending(x.releases[b].status)
  }

  /** From x to y, row k was neither run nor changed. */
  ghost predicate Untouched(x: Intake, y: Intake, k: nat) {
    k in x.releases && k in y.releases && y.releases[k] == x.releases[k] && RunsOfRow(y.log, k) == RunsOfRow(x.log, k)
  }

  lemma StuckStep(s: State, c: Config, t: Step, a: nat, b: nat)
    requires Inv(s) && BothPending(s.intake, a, b)
    ensures Untouched(s.intake, Next(s, c, t).intake, a)
  {
    match t
    case DeliveryStep(q, e) => DeliverAccepts(s.intake, s.db, q, e);
    case ReleaseStep(i, end) =>
      if i < |s.intake.queue| {
        StuckAttempt(s.intake, c, i, end, a, b);
      }
    case _ =>
  }

  /** Once two rows with one release id are pending together, neither is ever run or changed again. */
  lemma {:induction false} StuckForever(s: State, c: Config, ts: seq<Step>, a: nat, b: nat)
    requires Inv(s) && BothPending(s.intake, a, b)
    ensures var x := StateAfter(s, c, ts).intake;
      BothPending(x, a, b) && Untouched(s.intake, x, a) && Untouched(s.intake, x, b)
  {
    if ts != [] {
      var before, t := StateAfter(s, c, ts[..|ts| - 1]), ts[|ts| - 1];
      StuckForever(s, c, ts[..|ts| - 1], a, b);
      RunInv(s, c, ts[..|ts| - 1]);
      StuckStep(before, c, t, a, b);
      StuckStep(before, c, t, b, a);
    }
  }

  lemma RowStaysStep(s: State, c: Config, t: Step, k: nat)
    requires Inv(s) && k in s.intake.releases
    ensures var x := Next(s, c, t).intake;
      k in x.releases && x.releases[k].providerId == s.intake.releases[k].providerId
  {
    match t
    case DeliveryStep(q, e) => DeliverAccepts(s.intake, s.db, q, e);
    case ReleaseStep(i, end) =>
      if i < |s.intake.queue| {
        AttemptCases(s.intake, c, i, end);
      }
    case _ =>
  }
}
