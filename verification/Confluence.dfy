/** Runs of the batch tasks against an unchanging remote: the tables they end in depend only on which
    steps were executed, not on their order, their number of repetitions, or how attempts were cut short. */
module Confluence {
  import opened Domain
  import opened Tables
  import opened Provider
  import opened SyncSpec

  /** The local users behind a repository's remote admin list. */
  function Admins(db: Db, w: World, p: string, r: string): seq<nat> {
    Resolve(db.identities, p, if r in w.admins then w.admins[r] else [])
  }

  /** Some executed step replaced the members of row id: a user who reaches the repository ran it, and the
      insertions into the members it started from did not collide. */
  ghost predicate MembersReplaced(db: Db, w: World, p: string, done: set<TaskStep>, id: nat) {
    && id in db.repos && db.repos[id].provider == p
    && (exists a: nat :: MemberStep(a, db.repos[id].providerId) in done && ReachOf(w, a, db.repos[id].providerId).Full?)
    && !InsertsTwice(Admins(db, w, p, db.repos[id].providerId), UsersOf(db, id))
  }

  ghost predicate AssocAfter(db: Db, w: World, p: string, done: set<TaskStep>, id: nat, v: nat) {
    if MembersReplaced(db, w, p, done, id) then v in Admins(db, w, p, db.repos[id].providerId) else (id, v) in db.assoc
  }

  ghost function RowAfter(db: Db, w: World, p: string, u: nat, done: set<TaskStep>, id: nat): Repo
    requires id in db.repos
  {
    var row := db.repos[id];
    var seen := ConfiguredWebhook(w, u, row.providerId);
    if row.provider == p && HookStep(u, row.providerId) in done && seen.Ok? then HookedRow(row, u, seen.value) else row
  }

  ghost predicate SettledRows(db: Db, w: World, p: string, u: nat, done: set<TaskStep>, d: Db) {
    && d.repos.Keys == db.repos.Keys
    && (forall id :: id in db.repos ==> d.repos[id] == RowAfter(db, w, p, u, done, id))
    && d.identities == db.identities && d.lastSync == db.lastSync && d.nextId == db.nextId
  }

  ghost predicate SettledMembers(db: Db, w: World, p: string, done: set<TaskStep>, d: Db) {
    forall id: nat, v: nat :: (id, v) in d.assoc <==> AssocAfter(db, w, p, done, id, v)
  }

  /** d is what the tables db become once the steps in `done` have been executed, in whatever way;
      the hook steps among them ran with the token of u. */
  ghost predicate Settled(db: Db, w: World, p: string, u: nat, done: set<TaskStep>, d: Db) {
    SettledRows(db, w, p, u, done, d) && SettledMembers(db, w, p, done, d)
  }

  function StepSet(ts: seq<TaskStep>): set<TaskStep> {
    set t | t in ts
  }

  predicate HookStepsOf(u: nat, done: set<TaskStep>) {
    forall t :: t in done && t.HookStep? ==> t.actor == u
  }

  lemma SettledUnique(db: Db, w: World, p: string, u: nat, done: set<TaskStep>, d: Db, e: Db)
    requires Settled(db, w, p, u, done, d) && Settled(db, w, p, u, done, e)
    ensures d == e
  {
    SameMembers(db, w, p, done, d, e);
    assert d.repos == e.repos;
  }

  /** The same rows with the same metadata: only what enabling touches, and the associations, may differ. */
  ghost predicate SameRows(db: Db, d: Db) {
    && d.repos.Keys == db.repos.Keys
    && (forall id :: id in db.repos ==> SameExceptEnabling(d.repos[id], db.repos[id]))
    && d.identities == db.identities && d.lastSync == db.lastSync && d.nextId == db.nextId
  }

  lemma UserSyncSame(d: Db, w: World, a: nat, p: string, r: string)
    ensures var e := UserSync(d, w, a, p, r); e.Ok? ==> e.value == d.(assoc := e.value.assoc)
  {
  }

  lemma StepSameRows(d: Db, w: World, p: string, t: TaskStep)
    ensures SameRows(d, Apply(d, w, p, t))
  {
    match t
    case MemberStep(a, r) =>
      UserSyncSame(d, w, a, p, r);
      assert Outcome(d, w, p, t) == UserSync(d, w, a, p, r);
    case HookStep(a, r) => HookStepRow(d, w, p, a, r);
  }

  /** Batch steps of any users keep keys, metadata and identities. */
  lemma {:induction false} RunSameRows(db: Db, w: World, p: string, ts: seq<TaskStep>)
    ensures SameRows(db, Run(db, w, p, ts))
  {
    if ts != [] {
      RunSameRows(db, w, p, ts[..|ts| - 1]);
      StepSameRows(Run(db, w, p, ts[..|ts| - 1]), w, p, ts[|ts| - 1]);
    }
  }

  lemma SameLookup(db: Db, d: Db, p: string, r: string)
    requires UniqueKeys(db) && SameRows(db, d)
    ensures Lookup(d, p, r) == Lookup(db, p, r)
  {
    assert forall id: nat :: HasKey(d, id, p, r) <==> HasKey(db, id, p, r);
  }

  /** The effect of one hook step on the rows, whatever the step's outcome. */
  lemma HookStepRow(d: Db, w: World, p: string, u: nat, r: string)
    ensures var seen, e := ConfiguredWebhook(w, u, r), Apply(d, w, p, HookStep(u, r));
      && e == d.(repos := e.repos) && e.repos.Keys == d.repos.Keys
      && forall id :: id in d.repos ==>
           e.repos[id] == if Lookup(d, p, r) == Some(id) && seen.Ok? then HookedRow(d.repos[id], u, seen.value)
                          else d.repos[id]
  {
    assert Outcome(d, w, p, HookStep(u, r)) == HookSync(d, w, u, p, r);
  }

  lemma HookedTwice(row: Repo, u: nat, seen: Option<nat>)
    ensures HookedRow(HookedRow(row, u, seen), u, seen) == HookedRow(row, u, seen)
    ensures HookedRow(row, u, seen).providerId == row.providerId && HookedRow(row, u, seen).provider == row.provider
  {
  }

  lemma HookStepRows(db: Db, w: World, p: string, u: nat, done: set<TaskStep>, d: Db, r: string)
    requires Valid(db) && SameRows(db, d) && SettledRows(db, w, p, u, done, d)
    ensures SettledRows(db, w, p, u, done + {HookStep(u, r)}, Apply(d, w, p, HookStep(u, r)))
  {
    var more, e := done + {HookStep(u, r)}, Apply(d, w, p, HookStep(u, r));
    HookStepRow(d, w, p, u, r);
    SameLookup(db, d, p, r);
    forall id: nat | id in db.repos
      ensures e.repos[id] == RowAfter(db, w, p, u, more, id)
    {
      assert HasKey(db, id, p, r) <==> Lookup(db, p, r) == Some(id);
      var row, seen := db.repos[id], ConfiguredWebhook(w, u, db.repos[id].providerId);
      assert HookStep(u, row.providerId) in more <==> HookStep(u, row.providerId) in done || row.providerId == r;
      if seen.Ok? {
        HookedTwice(row, u, seen.value);
      }
    }
  }

  /** A members step replaces nothing, or exactly the members of its own row. */
  lemma MembersReplacedMore(db: Db, w: World, p: string, done: set<TaskStep>, t: TaskStep, id: nat)
    ensures MembersReplaced(db, w, p, done + {t}, id) <==>
      || MembersReplaced(db, w, p, done, id)
      || (t.MemberStep? && HasKey(db, id, p, t.repo) && ReachOf(w, t.actor, t.repo).Full?
          && !InsertsTwice(Admins(db, w, p, t.repo), UsersOf(db, id)))
  {
    if id in db.repos {
      var r := db.repos[id].providerId;
      assert forall a: nat :: MemberStep(a, r) in done + {t} <==> MemberStep(a, r) in done || MemberStep(a, r) == t;
    }
  }

  lemma HookStepMembers(db: Db, w: World, p: string, done: set<TaskStep>, d: Db, u: nat, r: string)
    requires SettledMembers(db, w, p, done, d)
    ensures SettledMembers(db, w, p, done + {HookStep(u, r)}, Apply(d, w, p, HookStep(u, r)))
  {
    forall id: nat, v: nat
      ensures AssocAfter(db, w, p, done, id, v) <==> AssocAfter(db, w, p, done + {HookStep(u, r)}, id, v)
    {
      MembersReplacedMore(db, w, p, done, HookStep(u, r), id);
    }
  }

  /** Once a row's members were replaced, replacing them again inserts nothing; before that, they are
      still the members of the start. */
  lemma ReplacedMembers(db: Db, w: World, p: string, done: set<TaskStep>, d: Db, id: nat)
    requires SettledMembers(db, w, p, done, d) && id in db.repos && db.repos[id].provider == p
    ensures var us := Admins(db, w, p, db.repos[id].providerId);
      if MembersReplaced(db, w, p, done, id)
      then UsersOf(d, id) == (set v | v in us) && !InsertsTwice(us, UsersOf(d, id))
      else UsersOf(d, id) == UsersOf(db, id)
  {
    forall v: nat
      ensures v in UsersOf(d, id) <==> AssocAfter(db, w, p, done, id, v)
      ensures v in UsersOf(db, id) <==> (id, v) in db.assoc
    {
      assert v in UsersOf(d, id) <==> (id, v) in d.assoc;
    }
    if !MembersReplaced(db, w, p, done, id) {
      assert UsersOf(d, id) == UsersOf(db, id);
    }
  }

  /** The effect of one members step on the associations, whatever the step's outcome. */
  lemma MemberStepAssoc(d: Db, w: World, p: string, a: nat, r: string, id: nat, v: nat)
    ensures var us := Admins(d, w, p, r);
      (id, v) in Apply(d, w, p, MemberStep(a, r)).assoc <==>
        if Lookup(d, p, r) == Some(id) && ReachOf(w, a, r).Full? && !InsertsTwice(us, UsersOf(d, id))
        then v in us else (id, v) in d.assoc
  {
    assert Outcome(d, w, p, MemberStep(a, r)) == UserSync(d, w, a, p, r);
  }

  lemma MemberStepMembers(db: Db, w: World, p: string, done: set<TaskStep>, d: Db, a: nat, r: string)
    requires Valid(db) && SameRows(db, d) && SettledMembers(db, w, p, done, d)
    ensures SettledMembers(db, w, p, done + {MemberStep(a, r)}, Apply(d, w, p, MemberStep(a, r)))
  {
    var t := MemberStep(a, r);
    SameLookup(db, d, p, r);
    forall id: nat, v: nat
      ensures (id, v) in Apply(d, w, p, t).assoc <==> AssocAfter(db, w, p, done + {t}, id, v)
    {
      MemberStepAssoc(d, w, p, a, r, id, v);
      MembersReplacedMore(db, w, p, done, t, id);
      assert HasKey(db, id, p, r) <==> Lookup(db, p, r) == Some(id);
      if HasKey(db, id, p, r) {
        ReplacedMembers(db, w, p, done, d, id);
      }
    }
  }

  lemma MemberStepRows(db: Db, w: World, p: string, u: nat, done: set<TaskStep>, d: Db, a: nat, r: string)
    requires SettledRows(db, w, p, u, done, d)
    ensures SettledRows(db, w, p, u, done + {MemberStep(a, r)}, Apply(d, w, p, MemberStep(a, r)))
  {
    assert Outcome(d, w, p, MemberStep(a, r)) == UserSync(d, w, a, p, r);
  }

  lemma PrefixSteps(ts: seq<TaskStep>)
    requires ts != []
    ensures StepSet(ts) == StepSet(ts[..|ts| - 1]) + {ts[|ts| - 1]}
  {
    assert ts == ts[..|ts| - 1] + [ts[|ts| - 1]];
  }

  /** The members after a run are determined by the set of its steps, whoever ran which of them. */
  lemma {:induction false} RunSettlesMembers(db: Db, w: World, p: string, ts: seq<TaskStep>)
    requires Valid(db)
    ensures SettledMembers(db, w, p, StepSet(ts), Run(db, w, p, ts))
  {
    if ts == [] {
      assert StepSet(ts) == {};
    } else {
      var prefix, last := ts[..|ts| - 1], ts[|ts| - 1];
      PrefixSteps(ts);
      RunSettlesMembers(db, w, p, prefix);
      RunSameRows(db, w, p, prefix);
      match last
      case HookStep(a, r) => HookStepMembers(db, w, p, StepSet(prefix), Run(db, w, p, prefix), a, r);
      case MemberStep(a, r) => MemberStepMembers(db, w, p, StepSet(prefix), Run(db, w, p, prefix), a, r);
    }
  }

  lemma {:induction false} RunSettlesRows(db: Db, w: World, p: string, u: nat, ts: seq<TaskStep>)
    requires Valid(db) && HookStepsOf(u, StepSet(ts))
    ensures SettledRows(db, w, p, u, StepSet(ts), Run(db, w, p, ts))
  {
    if ts == [] {
      assert StepSet(ts) == {};
    } else {
      var prefix, last := ts[..|ts| - 1], ts[|ts| - 1];
      PrefixSteps(ts);
      RunSettlesRows(db, w, p, u, prefix);
      RunSameRows(db, w, p, prefix);
      match last
      case HookStep(_, r) => HookStepRows(db, w, p, u, StepSet(prefix), Run(db, w, p, prefix), r);
      case MemberStep(a, r) => MemberStepRows(db, w, p, u, StepSet(prefix), Run(db, w, p, prefix), a, r);
    }
  }

  /** The closed form of a run: its result is determined by the set of its steps. */
  lemma RunSettles(db: Db, w: World, p: string, u: nat, ts: seq<TaskStep>)
    requires Valid(db) && HookStepsOf(u, StepSet(ts))
    ensures Settled(db, w, p, u, StepSet(ts), Run(db, w, p, ts))
  {
    RunSettlesMembers(db, w, p, ts);
    RunSettlesRows(db, w, p, u, ts);
  }

  /** Confluence and repeatability: two runs with the same steps, in any order and any number of times,
      end in the same tables. Members steps may come from any users; hook steps come from one. */
  lemma Confluent(db: Db, w: World, p: string, u: nat, ts: seq<TaskStep>, ts': seq<TaskStep>)
    requires Valid(db) && HookStepsOf(u, StepSet(ts)) && StepSet(ts) == StepSet(ts')
    ensures Run(db, w, p, ts) == Run(db, w, p, ts')
  {
    RunSettles(db, w, p, u, ts);
    RunSettles(db, w, p, u, ts');
    SettledUnique(db, w, p, u, StepSet(ts), Run(db, w, p, ts), Run(db, w, p, ts'));
  }

  // ---------- hook steps of several users ----------

  /** Among the steps is a hook step of a for r, and it meets no error. */
  ghost predicate Acted(w: World, done: set<TaskStep>, a: nat, r: string) {
    HookStep(a, r) in done && ConfiguredWebhook(w, a, r).Ok?
  }

  /** All users of hook steps for one repository see the same, if they see it without an error. */
  ghost predicate SightsAgree(w: World, done: set<TaskStep>) {
    forall a, b, r :: Acted(w, done, a, r) && Acted(w, done, b, r) ==>
      ConfiguredWebhook(w, a, r) == ConfiguredWebhook(w, b, r)
  }

  /** The row after the steps: what one of the users makes of it, whichever it is, or what it was. */
  ghost predicate ReachedRow(w: World, p: string, done: set<TaskStep>, row: Repo, after: Repo) {
    var r := row.providerId;
    if row.provider == p && exists a :: Acted(w, done, a, r) then
      exists a :: Acted(w, done, a, r) && after == HookedRow(row, a, ConfiguredWebhook(w, a, r).value)
    else after == row
  }

  ghost predicate ReachedRows(db: Db, w: World, p: string, done: set<TaskStep>, d: Db) {
    SameRows(db, d) && forall id :: id in db.repos ==> ReachedRow(w, p, done, db.repos[id], d.repos[id])
  }

  /** A second user who sees the same changes nothing more. */
  lemma HookedByOther(row: Repo, a: nat, b: nat, seen: Option<nat>)
    ensures HookedRow(HookedRow(row, a, seen), b, seen) == HookedRow(row, a, seen)
  {
  }

  lemma ReachedStill(w: World, p: string, done: set<TaskStep>, t: TaskStep, row: Repo, after: Repo)
    requires ReachedRow(w, p, done, row, after)
    requires t.MemberStep? || t.repo != row.providerId || row.provider != p
      || !ConfiguredWebhook(w, t.actor, t.repo).Ok?
    ensures ReachedRow(w, p, done + {t}, row, after)
  {
    assert forall a :: row.provider == p ==>
      (Acted(w, done + {t}, a, row.providerId) <==> Acted(w, done, a, row.providerId));
  }

  lemma ReachedNow(w: World, p: string, done: set<TaskStep>, u: nat, row: Repo, after: Repo)
    requires ReachedRow(w, p, done, row, after) && row.provider == p
    requires Acted(w, done + {HookStep(u, row.providerId)}, u, row.providerId)
    requires SightsAgree(w, done + {HookStep(u, row.providerId)})
    ensures ReachedRow(w, p, done + {HookStep(u, row.providerId)}, row,
                       HookedRow(after, u, ConfiguredWebhook(w, u, row.providerId).value))
  {
    var r := row.providerId;
    var more, seen := done + {HookStep(u, r)}, ConfiguredWebhook(w, u, r).value;
    if exists a :: Acted(w, done, a, r) {
      var a :| Acted(w, done, a, r) && after == HookedRow(row, a, ConfiguredWebhook(w, a, r).value);
      assert Acted(w, more, a, r);
      HookedByOther(row, a, u, seen);
    }
  }

  lemma ReachedStep(db: Db, w: World, p: string, done: set<TaskStep>, d: Db, t: TaskStep)
    requires Valid(db) && ReachedRows(db, w, p, done, d) && SightsAgree(w, done + {t})
    ensures ReachedRows(db, w, p, done + {t}, Apply(d, w, p, t))
  {
    var e := Apply(d, w, p, t);
    StepSameRows(d, w, p, t);
    forall id | id in db.repos
      ensures ReachedRow(w, p, done + {t}, db.repos[id], e.repos[id])
    {
      var row := db.repos[id];
      match t
      case MemberStep(a, r) =>
        UserSyncSame(d, w, a, p, r);
        assert Outcome(d, w, p, t) == UserSync(d, w, a, p, r);
        ReachedStill(w, p, done, t, row, d.repos[id]);
      case HookStep(u, r) =>
        SameLookup(db, d, p, r);
        HookStepRow(d, w, p, u, r);
        assert HasKey(db, id, p, r) <==> Lookup(db, p, r) == Some(id);
        if HasKey(db, id, p, r) && ConfiguredWebhook(w, u, r).Ok? {
          ReachedNow(w, p, done, u, row, d.repos[id]);
        } else {
          ReachedStill(w, p, done, t, row, d.repos[id]);
        }
    }
  }

  lemma {:induction false} RunReachesRows(db: Db, w: World, p: string, ts: seq<TaskStep>)
    requires Valid(db) && SightsAgree(w, StepSet(ts))
    ensures ReachedRows(db, w, p, StepSet(ts), Run(db, w, p, ts))
  {
    if ts == [] {
      assert StepSet(ts) == {};
    } else {
      PrefixSteps(ts);
      var prefix := ts[..|ts| - 1];
      assert forall a, r :: Acted(w, StepSet(prefix), a, r) ==> Acted(w, StepSet(ts), a, r);
      RunReachesRows(db, w, p, prefix);
      ReachedStep(db, w, p, StepSet(prefix), Run(db, w, p, prefix), ts[|ts| - 1]);
    }
  }

  lemma SameButEnabler(w: World, p: string, done: set<TaskStep>, row: Repo, a: Repo, b: Repo)
    requires SightsAgree(w, done) && ReachedRow(w, p, done, row, a) && ReachedRow(w, p, done, row, b)
    ensures b == a.(enabledBy := b.enabledBy) && (row.Enabled() || !a.Enabled() ==> b == a)
  {
    var r := row.providerId;
    if row.provider == p && exists u :: Acted(w, done, u, r) {
      var u :| Acted(w, done, u, r) && a == HookedRow(row, u, ConfiguredWebhook(w, u, r).value);
      var v :| Acted(w, done, v, r) && b == HookedRow(row, v, ConfiguredWebhook(w, v, r).value);
    }
  }

  /** Hook steps of several users who see the same: runs with the same steps, in any order and with any repetitions, end
      in the same tables, except that a row that gets newly enabled may name another of these users as its enabler. */
  lemma ConfluentButEnabler(db: Db, w: World, p: string, ts: seq<TaskStep>, ts': seq<TaskStep>)
    requires Valid(db) && SightsAgree(w, StepSet(ts)) && StepSet(ts) == StepSet(ts')
    ensures var d, e := Run(db, w, p, ts), Run(db, w, p, ts');
      && e == d.(repos := e.repos) && e.repos.Keys == d.repos.Keys == db.repos.Keys
      && forall id :: id in db.repos ==>
           && e.repos[id] == d.repos[id].(enabledBy := e.repos[id].enabledBy)
           && (db.repos[id].Enabled() || !d.repos[id].Enabled() ==> e.repos[id] == d.repos[id])
  {
    var d, e := Run(db, w, p, ts), Run(db, w, p, ts');
    RunReachesRows(db, w, p, ts);
    RunReachesRows(db, w, p, ts');
    RunSettlesMembers(db, w, p, ts);
    RunSettlesMembers(db, w, p, ts');
    SameMembers(db, w, p, StepSet(ts), d, e);
    forall id | id in db.repos
      ensures e.repos[id] == d.repos[id].(enabledBy := e.repos[id].enabledBy)
      ensures db.repos[id].Enabled() || !d.repos[id].Enabled() ==> e.repos[id] == d.repos[id]
    {
      SameButEnabler(w, p, StepSet(ts), db.repos[id], d.repos[id], e.repos[id]);
    }
  }

  lemma SameMembers(db: Db, w: World, p: string, done: set<TaskStep>, d: Db, e: Db)
    requires SettledMembers(db, w, p, done, d) && SettledMembers(db, w, p, done, e)
    ensures d.assoc == e.assoc
  {
    forall x: (nat, nat)
      ensures x in d.assoc <==> x in e.assoc
    {
      assert x == (x.0, x.1);
    }
  }

  predicate Within(cuts: seq<nat>, n: nat) {
    forall i :: 0 <= i < |cuts| ==> cuts[i] <= n
  }

  /** The tables after a series of cut-short attempts at ts, the i-th getting through cuts[i] steps. */
  ghost function AfterAttempts(db: Db, w: World, p: string, ts: seq<TaskStep>, cuts: seq<nat>): Db
    requires Within(cuts, |ts|)
  {
    if cuts == [] then db
    else Run(AfterAttempts(db, w, p, ts, cuts[..|cuts| - 1]), w, p, ts[..cuts[|cuts| - 1]])
  }

  lemma {:induction false} RunAppend(db: Db, w: World, p: string, a: seq<TaskStep>, b: seq<TaskStep>)
    ensures Run(db, w, p, a + b) == Run(Run(db, w, p, a), w, p, b)
  {
    if b == [] {
      assert a + b == a;
    } else {
      RunAppend(db, w, p, a, b[..|b| - 1]);
      assert (a + b)[..|a + b| - 1] == a + b[..|b| - 1];
    }
  }

  lemma {:induction false} AttemptsAreARun(db: Db, w: World, p: string, ts: seq<TaskStep>, cuts: seq<nat>)
    returns (run: seq<TaskStep>)
    requires Within(cuts, |ts|)
    ensures AfterAttempts(db, w, p, ts, cuts) == Run(db, w, p, run) && StepSet(run) <= StepSet(ts)
  {
    run := [];
    if cuts != [] {
      var earlier := AttemptsAreARun(db, w, p, ts, cuts[..|cuts| - 1]);
      var prefix := ts[..cuts[|cuts| - 1]];
      RunAppend(db, w, p, earlier, prefix);
      run := earlier + prefix;
      assert forall t :: t in prefix ==> t in ts;
    }
  }

  /** Retry transparency: whatever the earlier attempts got through, a complete attempt leaves the same
      tables as if it had been the only one. */
  lemma RetryTransparent(db: Db, w: World, p: string, u: nat, ts: seq<TaskStep>, cuts: seq<nat>)
    requires Valid(db) && HookStepsOf(u, StepSet(ts)) && Within(cuts, |ts|)
    ensures Run(AfterAttempts(db, w, p, ts, cuts), w, p, ts) == Run(db, w, p, ts)
  {
    var run := AttemptsAreARun(db, w, p, ts, cuts);
    RunAppend(db, w, p, run, ts);
    assert StepSet(run + ts) == StepSet(run) + StepSet(ts) == StepSet(ts);
    Confluent(db, w, p, u, run + ts, ts);
  }

  /** After any run with a hook step for r that could see r's hooks, the row of r is enabled exactly when
      a configured hook exists; a newly enabled row carries that hook and the step's user. */
  lemma HookStepsDecideEnabled(db: Db, w: World, p: string, u: nat, ts: seq<TaskStep>, id: nat)
    requires Valid(db) && HookStepsOf(u, StepSet(ts)) && id in db.repos && db.repos[id].provider == p
    requires HookStep(u, db.repos[id].providerId) in ts && ConfiguredWebhook(w, u, db.repos[id].providerId).Ok?
    ensures id in Run(db, w, p, ts).repos
    ensures var row, seen := Run(db, w, p, ts).repos[id], ConfiguredWebhook(w, u, db.repos[id].providerId).value;
      && (row.Enabled() <==> seen.Some?)
      && (row.Enabled() && !db.repos[id].Enabled() ==>
            row.hook == Some(Digits(seen.value)) && row.enabledBy == Some(u))
      && (row.Enabled() && db.repos[id].Enabled() ==> row == db.repos[id])
  {
    RunSettlesRows(db, w, p, u, ts);
  }

  /** Whether a step blocks its batch does not change while batches of any users run. */
  lemma BlocksStable(db: Db, w: World, p: string, ts: seq<TaskStep>, t: TaskStep)
    requires Valid(db)
    ensures Blocks(Run(db, w, p, ts), w, p, t, {}) <==> Blocks(db, w, p, t, {})
  {
    var d := Run(db, w, p, ts);
    RunSameRows(db, w, p, ts);
    SameLookup(db, d, p, t.repo);
    match t
    case HookStep(a, r) => HookStepBlocks(db, w, p, a, r, d);
    case MemberStep(a, r) =>
      RunSettlesMembers(db, w, p, ts);
      MemberStepBlocks(db, w, p, StepSet(ts), a, r, d);
  }

  lemma HookStepBlocks(db: Db, w: World, p: string, a: nat, r: string, d: Db)
    requires Lookup(d, p, r) == Lookup(db, p, r)
    ensures Blocks(d, w, p, HookStep(a, r), {}) <==> Blocks(db, w, p, HookStep(a, r), {})
  {
    assert Outcome(db, w, p, HookStep(a, r)) == HookSync(db, w, a, p, r);
    assert Outcome(d, w, p, HookStep(a, r)) == HookSync(d, w, a, p, r);
  }

  lemma MemberStepBlocks(db: Db, w: World, p: string, done: set<TaskStep>, a: nat, r: string, d: Db)
    requires Valid(db) && SameRows(db, d) && SettledMembers(db, w, p, done, d) && Lookup(d, p, r) == Lookup(db, p, r)
    ensures Blocks(d, w, p, MemberStep(a, r), {}) <==> Blocks(db, w, p, MemberStep(a, r), {})
  {
    assert Outcome(db, w, p, MemberStep(a, r)) == UserSync(db, w, a, p, r);
    assert Outcome(d, w, p, MemberStep(a, r)) == UserSync(d, w, a, p, r);
    if Lookup(db, p, r).Some? {
      ReplacedMembers(db, w, p, done, d, Lookup(db, p, r).value);
    }
  }

  /** A batch can complete, on this attempt or any later one, exactly when none of its steps blocks in the
      tables it started from. One blocking repository keeps every repository behind it from being processed. */
  lemma BatchCompletes(db: Db, w: World, p: string, ts: seq<TaskStep>, cuts: seq<nat>, outage: set<string>, done: nat)
    requires Valid(db) && Within(cuts, |ts|)
    requires Attempt(AfterAttempts(db, w, p, ts, cuts), w, p, ts, outage, done)
    ensures forall k :: 0 <= k < |ts| && Blocks(db, w, p, ts[k], {}) ==> done <= k
    ensures outage == {} ==> (done == |ts| <==> forall t :: t in ts ==> !Blocks(db, w, p, t, {}))
  {
    var run := AttemptsAreARun(db, w, p, ts, cuts);
    forall k | 0 <= k < |ts| && k <= done
      ensures Blocks(Run(Run(db, w, p, run), w, p, ts[..k]), w, p, ts[k], {}) <==> Blocks(db, w, p, ts[k], {})
    {
      RunAppend(db, w, p, run, ts[..k]);
      BlocksStable(db, w, p, run + ts[..k], ts[k]);
    }
  }

  /** Hook syncs of one repository by two users commute exactly when both users see the same and, if that is
      a hook, the row is already enabled or the users are one. */
  lemma HookSyncsOfTwoUsers(db: Db, w: World, p: string, id: nat, r: string, u: nat, v: nat)
    requires Valid(db) && HasKey(db, id, p, r)
    requires ConfiguredWebhook(w, u, r).Ok? && ConfiguredWebhook(w, v, r).Ok?
    ensures var first, second := HookStep(u, r), HookStep(v, r);
      Run(db, w, p, [first, second]) == Run(db, w, p, [second, first])
      <==> ConfiguredWebhook(w, u, r) == ConfiguredWebhook(w, v, r)
           && (ConfiguredWebhook(w, u, r).value.Some? ==> db.repos[id].Enabled() || u == v)
  {
    TwoHookSyncs(db, w, p, id, r, u, v);
    TwoHookSyncs(db, w, p, id, r, v, u);
    var a, b := ConfiguredWebhook(w, u, r).value, ConfiguredWebhook(w, v, r).value;
    var row := db.repos[id];
    assert WithRow(db, id, HookedRow(HookedRow(row, u, a), v, b)).repos[id] == HookedRow(HookedRow(row, u, a), v, b);
    assert WithRow(db, id, HookedRow(HookedRow(row, v, b), u, a)).repos[id] == HookedRow(HookedRow(row, v, b), u, a);
  }

  lemma TwoHookSyncs(db: Db, w: World, p: string, id: nat, r: string, u: nat, v: nat)
    requires Valid(db) && HasKey(db, id, p, r)
    requires ConfiguredWebhook(w, u, r).Ok? && ConfiguredWebhook(w, v, r).Ok?
    ensures var a, b := ConfiguredWebhook(w, u, r).value, ConfiguredWebhook(w, v, r).value;
      Run(db, w, p, [HookStep(u, r), HookStep(v, r)])
      == WithRow(db, id, HookedRow(HookedRow(db.repos[id], u, a), v, b))
  {
    var a, b := ConfiguredWebhook(w, u, r).value, ConfiguredWebhook(w, v, r).value;
    var d := WithRow(db, id, HookedRow(db.repos[id], u, a));
    OneHookSync(db, w, p, id, r, u);
    OneHookSync(d, w, p, id, r, v);
    TwoSteps(db, w, p, HookStep(u, r), HookStep(v, r));
  }

  lemma OneHookSync(db: Db, w: World, p: string, id: nat, r: string, u: nat)
    requires Valid(db) && HasKey(db, id, p, r) && ConfiguredWebhook(w, u, r).Ok?
    ensures var d := WithRow(db, id, HookedRow(db.repos[id], u, ConfiguredWebhook(w, u, r).value));
      Apply(db, w, p, HookStep(u, r)) == d && Valid(d) && HasKey(d, id, p, r)
  {
    assert Lookup(db, p, r) == Some(id);
    assert Outcome(db, w, p, HookStep(u, r)) == HookSync(db, w, u, p, r);
    HookSyncValid(db, w, u, p, r);
  }

  lemma TwoSteps(db: Db, w: World, p: string, first: TaskStep, second: TaskStep)
    ensures Run(db, w, p, [first, second]) == Apply(Apply(db, w, p, first), w, p, second)
  {
    var ts := [first, second];
    assert ts[..1] == [first] && ts[..1][..0] == [];
    assert Run(db, w, p, ts[..1]) == Apply(Run(db, w, p, ts[..1][..0]), w, p, first);
  }
}
