/** The other direction of the link: every hook of ours is on a repository that is enabled here. Which operations keep
    it, and which runs. */
module OwnedHooks {
  import opened Domain
  import opened Tables
  import opened Provider
  import opened SyncSpec
  import opened EnableSpec
  import opened Convergence
  import opened Confluence
  import opened HookInvariants
  import opened Disconnect
  import opened Handlers
  import opened System

  ghost predicate HasOurs(w: World, r: string) {
    exists n :: Ours(w, r, n)
  }

  ghost predicate EnabledRepo(db: Db, p: string, r: string) {
    exists id :: HasKey(db, id, p, r) && db.repos[id].Enabled()
  }

  ghost predicate OwnedAt(db: Db, w: World, p: string, r: string) {
    HasOurs(w, r) ==> EnabledRepo(db, p, r)
  }

  /** Every hook of ours is on an enabled repository. */
  ghost predicate Owned(db: Db, w: World, p: string) {
    forall r :: OwnedAt(db, w, p, r)
  }

  /** The operation leaves no hook of ours on a repository that is not enabled: a hook sync meets no hook of ours, or
      its user is not one who sees nothing; an enable creates no hook, or its row is or gets enabled; a disable that
      blanks the row does not remove another hook than ours; a disconnect blanks no repository with a hook of ours. */
  ghost predicate TidyOp(db: Db, w: World, p: string, op: Operation) {
    match op
    case BatchOp(HookStep(a, r)) => HasOurs(w, r) ==> !ReachOf(w, a, r).Hidden?
    case EnableOp(u, r, _, _, committed) =>
      committed || AvailableRow(db, p, u, r).None? || !ReachOf(w, u, r).Full? || EnabledRepo(db, p, r)
    case DisableOp(u, r, hook, answered, committed) =>
      !(committed && AvailableRow(db, p, u, r).Some? && ReachOf(w, u, r).Full? && LeavesOurs(w, r, hook, answered))
    case DisconnectOp(u, ext) =>
      Unlinks(db, p, u, ext) ==> forall id :: HasHook(db, p, u, id) ==> !HasOurs(w, db.repos[id].providerId)
    case _ => true
  }

  /** The deletion of the named hook succeeds, and a hook of ours is another one. */
  ghost predicate LeavesOurs(w: World, r: string, hook: Option<HookText>, answered: bool) {
    && hook.Some? && hook.value.Digits? && (hook.value.n in HooksOf(w, r) ==> answered)
    && exists m :: m != hook.value.n && Ours(w, r, m)
  }

  // ---------- one operation ----------

  /** An operation on repository r only: r decides. */
  lemma OnlyAt(db: Db, w: World, d: Db, w': World, p: string, r: string)
    requires Owned(db, w, p)
    requires forall s :: s != r && HasOurs(w', s) ==> HasOurs(w, s)
    requires forall s :: s != r && EnabledRepo(db, p, s) ==> EnabledRepo(d, p, s)
    ensures Owned(d, w', p) <==> OwnedAt(d, w', p, r)
  {
    forall s | s != r
      ensures OwnedAt(d, w', p, s)
    {
      assert OwnedAt(db, w, p, s);
    }
  }

  lemma OtherRowsEnabled(db: Db, d: Db, p: string, r: string)
    requires SameExceptRow(db, d, p, r)
    ensures forall s :: s != r && EnabledRepo(db, p, s) ==> EnabledRepo(d, p, s)
  {
    forall s | s != r && EnabledRepo(db, p, s)
      ensures EnabledRepo(d, p, s)
    {
      var id :| HasKey(db, id, p, s) && db.repos[id].Enabled();
      assert d.repos[id] == db.repos[id];
      assert HasKey(d, id, p, s);
    }
  }

  /** The row of r says whether r is enabled. */
  lemma RowDecides(d: Db, p: string, r: string, id: nat)
    requires UniqueKeys(d) && HasKey(d, id, p, r)
    ensures EnabledRepo(d, p, r) <==> d.repos[id].Enabled()
  {
    if d.repos[id].Enabled() {
      assert HasKey(d, id, p, r) && d.repos[id].Enabled();
    }
  }

  lemma SyncOwned(db: Db, w: World, p: string, u: nat, now: nat)
    requires Valid(db) && Owned(db, w, p)
    ensures Owned(Sync(db, p, u, Listing(w, u), now), w, p)
  {
    SyncRefines(db, p, u, Listing(w, u), now);
    var d := Sync(db, p, u, Listing(w, u), now);
    forall r
      ensures OwnedAt(d, w, p, r)
    {
      assert OwnedAt(db, w, p, r);
      if id :| HasKey(db, id, p, r) && db.repos[id].Enabled() {
        assert HasKey(d, id, p, r) && d.repos[id].Enabled();
      }
    }
  }

  lemma SameReposOwned(db: Db, w: World, d: Db, p: string)
    requires Owned(db, w, p) && d.repos == db.repos
    ensures Owned(d, w, p)
  {
    forall r
      ensures OwnedAt(d, w, p, r)
    {
      assert OwnedAt(db, w, p, r);
      if id :| HasKey(db, id, p, r) && db.repos[id].Enabled() {
        assert HasKey(d, id, p, r) && d.repos[id].Enabled();
      }
    }
  }

  lemma MemberOwned(db: Db, w: World, p: string, a: nat, r: string)
    requires Owned(db, w, p)
    ensures Owned(Apply(db, w, p, MemberStep(a, r)), w, p)
  {
    UserSyncSame(db, w, a, p, r);
    assert Outcome(db, w, p, MemberStep(a, r)) == UserSync(db, w, a, p, r);
    SameReposOwned(db, w, Apply(db, w, p, MemberStep(a, r)), p);
  }

  lemma HookSyncOwned(db: Db, w: World, p: string, a: nat, r: string)
    requires Valid(db) && OneHook(w) && Owned(db, w, p)
    ensures Owned(Apply(db, w, p, HookStep(a, r)), w, p) <==> (HasOurs(w, r) ==> !ReachOf(w, a, r).Hidden?)
  {
    var d := Apply(db, w, p, HookStep(a, r));
    HookSyncLocal(db, w, p, a, r);
    OnlyAt(db, w, d, w, p, r);
    if HasOurs(w, r) {
      assert OwnedAt(db, w, p, r);
      var id :| HasKey(db, id, p, r) && db.repos[id].Enabled();
      var n :| Ours(w, r, n);
      NeverMultiple(w, a, r);
      assert Lookup(db, p, r) == Some(id);
      HookStepRow(db, w, p, a, r);
      ApplyValid(db, w, p, HookStep(a, r));
      assert HasKey(d, id, p, r);
      RowDecides(d, p, r, id);
    }
  }

  lemma HookSyncLocal(db: Db, w: World, p: string, a: nat, r: string)
    requires Valid(db)
    ensures SameExceptRow(db, Apply(db, w, p, HookStep(a, r)), p, r)
    ensures forall s :: s != r && EnabledRepo(db, p, s) ==> EnabledRepo(Apply(db, w, p, HookStep(a, r)), p, s)
  {
    var d := Apply(db, w, p, HookStep(a, r));
    HookStepRow(db, w, p, a, r);
    forall id | id in db.repos
      ensures SameExceptEnabling(d.repos[id], db.repos[id]) && (!HasKey(db, id, p, r) ==> d.repos[id] == db.repos[id])
    {
    }
    OtherRowsEnabled(db, d, p, r);
  }

  lemma EnableOwned(db: Db, w: World, u: nat, p: string, r: string, com: Option<string>, edited: bool, committed: bool)
    requires Valid(db) && OneHook(w) && Owned(db, w, p)
    ensures var e := Enable(db, w, u, p, r, com, edited);
      Owned(if committed then e.db else db, e.world, p) <==> TidyOp(db, w, p, EnableOp(u, r, com, edited, committed))
  {
    var e := Enable(db, w, u, p, r, com, edited);
    var id, n := EnableEstablishes(db, w, u, p, r, com, edited);
    if e.result == Ok(true) {
      assert HasKey(db, id, p, r) && Ours(e.world, r, n);
      EnableKeeps(db, w, u, p, r, com, edited);
      OtherHooks(w, e.world, u, r, n, edited);
      if committed {
        EnabledLocal(db, e.db, p, r, id, u, n, com);
        OnlyAt(db, w, e.db, e.world, p, r);
      } else {
        OnlyAt(db, w, db, e.world, p, r);
      }
    }
  }

  lemma OtherHooks(w: World, w': World, u: nat, r: string, n: nat, edited: bool)
    requires OnlyHook(w, w', u, r, n, edited)
    ensures forall s :: s != r && HasOurs(w', s) ==> HasOurs(w, s)
  {
    forall s | s != r && HasOurs(w', s)
      ensures HasOurs(w, s)
    {
      var m :| Ours(w', s, m);
      assert Ours(w, s, m);
    }
  }

  lemma EnabledLocal(db: Db, d: Db, p: string, r: string, id: nat, u: nat, n: nat, com: Option<string>)
    requires HasKey(db, id, p, r) && EnabledRow(db, d, id, u, n, com)
    ensures EnabledRepo(d, p, r)
    ensures forall s :: s != r && EnabledRepo(db, p, s) ==> EnabledRepo(d, p, s)
  {
    assert HasKey(d, id, p, r) && d.repos[id].Enabled();
    forall s | s != r && EnabledRepo(db, p, s)
      ensures EnabledRepo(d, p, s)
    {
      var k :| HasKey(db, k, p, s) && db.repos[k].Enabled();
      assert HasKey(d, k, p, s) && d.repos[k].Enabled();
    }
  }

  lemma DisableOwned(db: Db, w: World, u: nat, p: string, r: string, hook: Option<HookText>, answered: bool,
                     committed: bool)
    requires Valid(db) && OneHook(w) && Owned(db, w, p)
    ensures var e := Disable(db, w, u, p, r, hook, answered);
      Owned(if committed then e.db else db, e.world, p)
      <==> TidyOp(db, w, p, DisableOp(u, r, hook, answered, committed))
  {
    var e := Disable(db, w, u, p, r, hook, answered);
    DisableRemote(db, w, u, p, r, hook, answered);
    DisableTables(db, w, u, p, r, hook, answered);
    FewerHooks(w, e.world);
    if committed {
      OtherRowsEnabled(db, e.db, p, r);
      OnlyAt(db, w, e.db, e.world, p, r);
      DisabledRepo(db, w, u, p, r, hook, answered);
    } else {
      OnlyAt(db, w, db, e.world, p, r);
      assert OwnedAt(db, w, p, r);
    }
  }

  lemma FewerHooks(w: World, w': World)
    requires NoNewHooks(w, w')
    ensures forall s :: HasOurs(w', s) ==> HasOurs(w, s)
  {
    forall s | HasOurs(w', s)
      ensures HasOurs(w, s)
    {
      var m :| Ours(w', s, m);
      assert Ours(w, s, m);
    }
  }

  /** After a committed disable, r has a hook of ours and is not enabled exactly when a named hook was deleted that is
      not the one of ours. */
  lemma DisabledRepo(db: Db, w: World, u: nat, p: string, r: string, hook: Option<HookText>, answered: bool)
    requires Valid(db) && OneHook(w) && Owned(db, w, p)
    ensures var e := Disable(db, w, u, p, r, hook, answered);
      OwnedAt(e.db, e.world, p, r) <==>
        !(AvailableRow(db, p, u, r).Some? && ReachOf(w, u, r).Full? && LeavesOurs(w, r, hook, answered))
  {
    var e := Disable(db, w, u, p, r, hook, answered);
    assert OwnedAt(db, w, p, r);
    NeverMultiple(w, u, r);
    if e.result == Ok(true) {
      var id := AvailableRow(db, p, u, r).value;
      assert HasKey(db, id, p, r) && HasKey(e.db, id, p, r);
      DisableTables(db, w, u, p, r, hook, answered);
      RowDecides(e.db, p, r, id);
      assert !EnabledRepo(e.db, p, r);
      LeftHooks(w, u, r, hook, answered);
    }
  }

  lemma LeftHooks(w: World, u: nat, r: string, hook: Option<HookText>, answered: bool)
    requires OneHook(w) && Deletion(w, u, r, hook, answered).1 == Ok(true)
    ensures HasOurs(Deletion(w, u, r, hook, answered).0, r) <==> LeavesOurs(w, r, hook, answered)
  {
    var w' := Deletion(w, u, r, hook, answered).0;
    NeverMultiple(w, u, r);
    if hook.Some? {
      var n := hook.value.n;
      DeleteOurs(w, r, n);
      assert forall m :: Ours(w', r, m) <==> Ours(w, r, m) && m != n;
    } else if ConfiguredWebhook(w, u, r).value.Some? {
      DeleteOurs(w, r, ConfiguredWebhook(w, u, r).value.value);
    }
  }

  lemma DisconnectOwned(db: Db, w: World, p: string, u: nat, ext: Option<string>)
    requires Valid(db) && Owned(db, w, p)
    ensures Owned(AfterHandler(db, p, u, ext), w, p) <==>
      forall id :: HasHook(db, p, u, id) ==> !HasOurs(w, db.repos[id].providerId)
  {
    var d := AfterHandler(db, p, u, ext);
    HandlerForgets(db, w, p, u, ext);
    if Owned(d, w, p) {
      forall id | HasHook(db, p, u, id)
        ensures !HasOurs(w, db.repos[id].providerId)
      {
        var r := db.repos[id].providerId;
        assert HasKey(d, id, p, r) && !d.repos[id].Enabled();
        RowDecides(d, p, r, id);
        assert OwnedAt(d, w, p, r);
      }
    }
    if forall id :: HasHook(db, p, u, id) ==> !HasOurs(w, db.repos[id].providerId) {
      forall r
        ensures OwnedAt(d, w, p, r)
      {
        assert OwnedAt(db, w, p, r);
        if id :| HasOurs(w, r) && HasKey(db, id, p, r) && db.repos[id].Enabled() {
          assert HasKey(d, id, p, r) && d.repos[id].Enabled();
        }
      }
    }
  }

  lemma RemoteOwned(db: Db, w: World, w': World, p: string)
    requires Owned(db, w, p) && NoNewHooks(w, w')
    ensures Owned(db, w', p)
  {
    FewerHooks(w, w');
    forall r
      ensures OwnedAt(db, w', p, r)
    {
      assert OwnedAt(db, w, p, r);
    }
  }

  /** Every operation: the link from hooks to rows survives it exactly when it is tidy. */
  lemma ActOwned(db: Db, w: World, p: string, op: Operation)
    requires Valid(db) && OneHook(w) && Owned(db, w, p)
    ensures var (d, w') := Act(db, w, p, op);
      Owned(d, w', p) <==> TidyOp(db, w, p, op)
  {
    match op
    case SyncOp(u, now) => SyncOwned(db, w, p, u, now);
    case BatchOp(MemberStep(a, r)) => MemberOwned(db, w, p, a, r);
    case BatchOp(HookStep(a, r)) => HookSyncOwned(db, w, p, a, r);
    case EnableOp(u, r, com, edited, committed) => EnableOwned(db, w, u, p, r, com, edited, committed);
    case DisableOp(u, r, hook, answered, committed) => DisableOwned(db, w, u, p, r, hook, answered, committed);
    case ConnectOp(_, _, _) => SameReposOwned(db, w, Act(db, w, p, op).0, p);
    case DisconnectOp(u, ext) => DisconnectOwned(db, w, p, u, ext);
    case RemoteOp(w') =>
      if NoNewHooks(w, w') {
        RemoteOwned(db, w, w', p);
      }
  }

  // ---------- runs ----------

  /** At every provider, every hook of ours is on an enabled repository. */
  ghost predicate AllOwned(s: State) {
    forall p :: p in s.worlds ==> Owned(s.db, s.worlds[p], p)
  }

  ghost predicate Tidy(s: State, t: Step) {
    t.On? && t.provider in s.worlds ==> TidyOp(s.db, s.worlds[t.provider], t.provider, t.op)
  }

  /** Every step is tidy in the state it is made in. */
  ghost predicate TidyRun(s: State, c: Config, ts: seq<Step>) {
    ts == [] || (TidyRun(s, c, ts[..|ts| - 1]) && Tidy(StateAfter(s, c, ts[..|ts| - 1]), ts[|ts| - 1]))
  }

  ghost predicate AlwaysOwned(s: State, c: Config, ts: seq<Step>) {
    AllOwned(StateAfter(s, c, ts)) && (ts == [] || AlwaysOwned(s, c, ts[..|ts| - 1]))
  }

  lemma InitialOwned(s: State)
    requires Initial(s)
    ensures AllOwned(s)
  {
    forall p, r | p in s.worlds
      ensures OwnedAt(s.db, s.worlds[p], p, r)
    {
      assert CleanRemote(s.worlds[p]);
    }
  }

  lemma OwnedElsewhere(db: Db, d: Db, p: string, w: World, q: string)
    requires OnlyProvider(db, d, p) && q != p && Owned(db, w, q)
    ensures Owned(d, w, q)
  {
    forall r
      ensures OwnedAt(d, w, q, r)
    {
      assert OwnedAt(db, w, q, r);
      if id :| HasKey(db, id, q, r) && db.repos[id].Enabled() {
        assert HasKey(d, id, q, r) && d.repos[id].Enabled();
      }
    }
  }

  lemma OwnedStep(s: State, c: Config, t: Step)
    requires Inv(s) && AllOwned(s)
    ensures AllOwned(Next(s, c, t)) <==> Tidy(s, t)
  {
    var z := Next(s, c, t);
    if t.On? && t.provider in s.worlds {
      var p := t.provider;
      ActOwned(s.db, s.worlds[p], p, t.op);
      ActKeeps(s.db, s.worlds[p], p, t.op);
      forall q | q in s.worlds && q != p
        ensures Owned(z.db, z.worlds[q], q)
      {
        OwnedElsewhere(s.db, z.db, p, s.worlds[q], q);
      }
      assert AllOwned(z) <==> Owned(z.db, z.worlds[p], p);
    }
  }

  /** In every state of a run, hooks of ours are on enabled repositories only, exactly when every step of the run is
      tidy. */
  lemma {:induction false} RunOwned(s: State, c: Config, ts: seq<Step>)
    requires Inv(s) && AllOwned(s)
    ensures AlwaysOwned(s, c, ts) <==> TidyRun(s, c, ts)
  {
    if ts != [] {
      var prefix := ts[..|ts| - 1];
      RunOwned(s, c, prefix);
      if AlwaysOwned(s, c, prefix) {
        RunInv(s, c, prefix);
        OwnedStep(StateAfter(s, c, prefix), c, ts[|ts| - 1]);
      }
    }
  }

  /** In particular from an empty installation. */
  lemma OwnedFromStart(s: State, c: Config, ts: seq<Step>)
    requires Initial(s)
    ensures AlwaysOwned(s, c, ts) <==> TidyRun(s, c, ts)
  {
    InitialInv(s);
    InitialOwned(s);
    RunOwned(s, c, ts);
  }
}
