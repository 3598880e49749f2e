/** What deliveries, attempts and retries keep: one row and one task per release, and a bounded number of plugin
    runs, paid for by the rows that were accepted. */
module ReleaseInvariants {
  import opened Domain
  import opened Tables
  import opened Handlers
  import opened Releases

  /** The release waits for a run: it is received, or its last run failed. */
  predicate Pending(s: Status) {
    s == Received || s == Failed
  }

  /** The attempts a queued task may still make; `again` says whether there are exceptions that are retried. */
  function Left(again: bool, t: Task): nat {
    if !again then 1 else if t.retries <= MAX_RETRIES then MAX_RETRIES + 1 - t.retries else 0
  }

  /** The attempts that tasks for release id may still make. */
  function Budget(again: bool, q: seq<Task>, id: string): nat {
    if q == [] then 0
    else Budget(again, q[..|q| - 1], id) + if q[|q| - 1].releaseId == id then Left(again, q[|q| - 1]) else 0
  }

  /** The plugin runs so far for release id. */
  function RunsFor(log: seq<PluginRun>, id: string): nat {
    if log == [] then 0
    else RunsFor(log[..|log| - 1], id) + if log[|log| - 1].releaseId == id then 1 else 0
  }

  function RunsOfRow(log: seq<PluginRun>, k: nat): nat {
    if log == [] then 0
    else RunsOfRow(log[..|log| - 1], k) + if log[|log| - 1].row == k then 1 else 0
  }

  function RowsFor(x: Intake, id: string): set<nat> {
    set k | k in x.releases && x.releases[k].providerId == id
  }

  predicate SameRelease(a: Release, b: Release) {
    a.provider == b.provider && a.providerId == b.providerId
  }

  ghost predicate RowsOk(x: Intake) {
    && (forall k :: k in x.releases ==> k < x.nextRelease)
    && (forall a, b :: a in x.releases && b in x.releases && SameRelease(x.releases[a], x.releases[b]) ==> a == b)
  }

  ghost predicate TasksOk(x: Intake) {
    && (forall i :: 0 <= i < |x.queue| ==>
          x.queue[i].retries <= MAX_RETRIES && AlreadyReceived(x, x.queue[i].provider, x.queue[i].releaseId))
    && (forall i, j :: 0 <= i < j < |x.queue| ==>
          x.queue[i].provider != x.queue[j].provider || x.queue[i].releaseId != x.queue[j].releaseId)
  }

  ghost predicate LogOk(x: Intake) {
    forall i :: 0 <= i < |x.log| ==>
      && x.log[i].row in x.releases && x.releases[x.log[i].row].providerId == x.log[i].releaseId
      && Pending(x.log[i].status)
  }

  /** The runs made and the attempts left for release id, less six for every row that carries it. */
  function Debt(x: Intake, id: string): int {
    RunsFor(x.log, id) + Budget(true, x.queue, id) - (MAX_RETRIES + 1) * |RowsFor(x, id)|
  }

  /** Runs made and runs still possible are covered by six for every accepted row. */
  ghost predicate Paid(x: Intake) {
    forall id :: Debt(x, id) <= 0
  }

  /** From x to y no release got more runs and attempts than new rows paid for. */
  ghost predicate DebtFalls(x: Intake, y: Intake) {
    forall id :: Debt(y, id) <= Debt(x, id)
  }

  ghost predicate IntakeOk(x: Intake) {
    RowsOk(x) && TasksOk(x) && LogOk(x) && Paid(x)
  }

  lemma {:induction false} BudgetSplit(again: bool, a: seq<Task>, b: seq<Task>, id: string)
    ensures Budget(again, a + b, id) == Budget(again, a, id) + Budget(again, b, id)
  {
    if b == [] {
      assert a + b == a;
    } else {
      BudgetSplit(again, a, b[..|b| - 1], id);
      assert (a + b)[..|a + b| - 1] == a + b[..|b| - 1];
    }
  }

  lemma BudgetWithout(again: bool, q: seq<Task>, i: nat, id: string)
    requires i < |q|
    ensures Budget(again, q, id)
      == Budget(again, Without(q, i), id) + if q[i].releaseId == id then Left(again, q[i]) else 0
  {
    assert q == q[..i] + ([q[i]] + q[i + 1..]);
    BudgetSplit(again, q[..i], [q[i]] + q[i + 1..], id);
    BudgetSplit(again, [q[i]], q[i + 1..], id);
    BudgetSplit(again, q[..i], q[i + 1..], id);
    assert [q[i]][..0] == [];
  }

  // ---------- deliveries ----------

  lemma DeliverDebt(x: Intake, db: Db, p: string, e: Payload)
    requires RowsOk(x)
    ensures DebtFalls(x, Deliver(x, db, p, e).0)
  {
    var y := Deliver(x, db, p, e).0;
    if y != x {
      forall id: string
        ensures Debt(y, id) <= Debt(x, id)
      {
        AcceptedDebt(x, y, y.releases[x.nextRelease], Task(p, e.releaseId, 0), id);
      }
    }
  }

  lemma OneMoreRow(x: Intake, y: Intake, row: Release, id: string)
    requires x.nextRelease !in x.releases && y.releases == x.releases[x.nextRelease := row]
    ensures |RowsFor(y, id)| == |RowsFor(x, id)| + if row.providerId == id then 1 else 0
  {
    var before, after := RowsFor(x, id), RowsFor(y, id);
    forall k: nat
      ensures k in after <==> k in before || (k == x.nextRelease && row.providerId == id)
    {
    }
    if row.providerId == id {
      assert after == before + {x.nextRelease};
    } else {
      assert after == before;
    }
  }

  /** One more row pays for one more task. */
  lemma AcceptedDebt(x: Intake, y: Intake, row: Release, t: Task, id: string)
    requires RowsOk(x) && y.log == x.log && y.queue == x.queue + [t]
    requires y.releases == x.releases[x.nextRelease := row] && t.retries == 0 && t.releaseId == row.providerId
    ensures Debt(y, id) == Debt(x, id)
  {
    BudgetSplit(true, x.queue, [t], id);
    assert [t][..0] == [];
    OneMoreRow(x, y, row, id);
  }

  lemma DeliverKeepsRows(x: Intake, db: Db, p: string, e: Payload)
    requires RowsOk(x) && TasksOk(x) && LogOk(x)
    ensures RowsOk(Deliver(x, db, p, e).0) && TasksOk(Deliver(x, db, p, e).0) && LogOk(Deliver(x, db, p, e).0)
  {
    var y := Deliver(x, db, p, e).0;
    if y != x {
      forall i | 0 <= i < |y.queue|
        ensures y.queue[i].retries <= MAX_RETRIES && AlreadyReceived(y, y.queue[i].provider, y.queue[i].releaseId)
      {
        if i < |x.queue| {
          assert AlreadyReceived(x, x.queue[i].provider, x.queue[i].releaseId);
          var k :| k in x.releases && x.releases[k].provider == x.queue[i].provider
            && x.releases[k].providerId == x.queue[i].releaseId;
          assert k in y.releases && y.releases[k] == x.releases[k];
        } else {
          assert x.nextRelease in y.releases;
        }
      }
    }
  }

  /** From x to y, one received row for the release and one task for it were added; the row's repository is
      enabled. */
  ghost predicate AcceptedRelease(x: Intake, db: Db, p: string, e: Payload, y: Intake) {
    && x.nextRelease !in x.releases && y.releases.Keys == x.releases.Keys + {x.nextRelease}
    && (forall k :: k in x.releases ==> y.releases[k] == x.releases[k])
    && y.log == x.log && |y.queue| == |x.queue| + 1 && y.queue[..|x.queue|] == x.queue
    && var row, task := y.releases[x.nextRelease], y.queue[|x.queue|];
       && row.provider == task.provider == p && row.providerId == task.releaseId == e.releaseId && task.retries == 0
       && row.tag == e.tag && row.status == Received
       && HasKey(db, row.repo, p, e.repoId) && db.repos[row.repo].Enabled()
  }

  /** Row id is the row of repository r at p, and its hook column is neither null nor empty (`on`), or is (not `on`). */
  ghost predicate Switched(db: Db, id: nat, p: string, r: string, on: bool) {
    HasKey(db, id, p, r) && (on <==> db.repos[id].hook.Some? && db.repos[id].hook.value != Other(""))
  }

  /** A delivery accepts a release (one new row, received, and one new task) exactly when it announces a release
      that its provider has not announced before, of a repository that is registered and enabled now; the row then
      belongs to that repository. Any other delivery changes nothing. The answer is 409 exactly for a release that
      was announced before or a disabled repository, 404 exactly for a new release of an unknown repository, and the
      code is left alone exactly when nothing is announced or the release is accepted. */
  lemma DeliverAccepts(x: Intake, db: Db, p: string, e: Payload)
    requires Valid(db) && IntakeOk(x)
    ensures var (y, code) := Deliver(x, db, p, e);
      var announced := (e.action == Some("published") || e.action == Some("released")) && !e.draft;
      var before := exists k :: k in x.releases && x.releases[k].provider == p
                                && x.releases[k].providerId == e.releaseId;
      && IntakeOk(y)
      && (y != x <==> announced && !before && exists id :: Switched(db, id, p, e.repoId, true))
      && (y != x ==> AcceptedRelease(x, db, p, e, y))
      && (code == None <==> y != x || !announced)
      && (code == Some(409) <==> announced && (before || exists id :: Switched(db, id, p, e.repoId, false)))
      && (code == Some(404) <==> announced && !before && forall id: nat :: !HasKey(db, id, p, e.repoId))
  {
    DeliverKeepsRows(x, db, p, e);
    DeliverDebt(x, db, p, e);
    if id: nat :| HasKey(db, id, p, e.repoId) {
      assert Lookup(db, p, e.repoId) == Some(id);
      assert Switched(db, id, p, e.repoId, db.repos[id].Enabled());
    }
    var y := Deliver(x, db, p, e).0;
    assert y != x ==> |y.queue| == |x.queue| + 1;
  }

  // ---------- attempts ----------

  lemma AttemptDebt(x: Intake, c: Config, i: nat, end: PluginEnd)
    requires i < |x.queue| && TasksOk(x)
    ensures DebtFalls(x, AttemptTask(x, c, i, end))
  {
    var y := AttemptTask(x, c, i, end);
    AttemptCases(x, c, i, end);
    forall id: string
      ensures Debt(y, id) <= Debt(x, id)
    {
      assert RowsFor(y, id) == RowsFor(x, id);
      AttemptedDebt(x, y, i, id);
    }
  }

  /** A run of the plugin costs one of the attempts its task had left. */
  lemma AttemptedDebt(x: Intake, y: Intake, i: nat, id: string)
    requires i < |x.queue| && x.queue[i].retries <= MAX_RETRIES && RowsFor(y, id) == RowsFor(x, id)
    requires var t, rest := x.queue[i], Without(x.queue, i);
      y.queue == rest || (t.retries < MAX_RETRIES && y.queue == rest + [t.(retries := t.retries + 1)])
    requires y.log == x.log || (|y.log| == |x.log| + 1 && y.log[..|x.log|] == x.log
                                && y.log[|x.log|].releaseId == x.queue[i].releaseId)
    ensures Debt(y, id) <= Debt(x, id)
  {
    var more := x.queue[i].(retries := x.queue[i].retries + 1);
    BudgetWithout(true, x.queue, i, id);
    BudgetSplit(true, Without(x.queue, i), [more], id);
    assert [more][..0] == [];
  }

  /** An attempt keeps every row's provider, id, tag and repository, and runs the plugin on a pending row only. */
  lemma AttemptCases(x: Intake, c: Config, i: nat, end: PluginEnd)
    requires i < |x.queue|
    ensures var y, t, rest := AttemptTask(x, c, i, end), x.queue[i], Without(x.queue, i);
      && y.nextRelease == x.nextRelease && y.releases.Keys == x.releases.Keys
      && (forall k :: k in x.releases ==> y.releases[k] == x.releases[k].(status := y.releases[k].status))
      && (y.queue == rest || (t.retries < MAX_RETRIES && y.queue == rest + [t.(retries := t.retries + 1)]))
      && (y.log == x.log || exists k ::
            k in Candidates(x, t.releaseId) && y.log == x.log + [PluginRun(k, t.releaseId, x.releases[k].status)])
  {
    if k: nat :| Candidates(x, x.queue[i].releaseId) == {k} {
      assert k in Candidates(x, x.queue[i].releaseId);
    }
  }

  /** k is the only pending row with this release id, of any provider: the only one that is received or failed. */
  ghost predicate OnlyPending(x: Intake, id: string, k: nat) {
    forall m: nat ::
      m in x.releases && x.releases[m].providerId == id
      && (x.releases[m].status == Received || x.releases[m].status == Failed)
      <==> m == k
  }

  lemma OnlyCandidate(x: Intake, id: string, k: nat)
    ensures OnlyPending(x, id, k) <==> Candidates(x, id) == {k}
  {
    var found := Candidates(x, id);
    assert forall m: nat ::
      m in x.releases && x.releases[m].providerId == id && Pending(x.releases[m].status) <==> m in found;
    if OnlyPending(x, id, k) {
      assert forall m: nat :: m in found <==> m == k;
    }
  }

  /** An attempt runs the plugin, and logs the run, exactly when exactly one row with its release id is received or
      failed, and then leaves that row in the status the plugin leaves it in; nothing else changes. The task leaves
      the queue; it is queued again, with one retry more, exactly when the plugin ran and threw, the error handler
      itself did not throw, the exception is one to be retried, and fewer than five retries were made. */
  lemma AttemptRunsAndRetries(x: Intake, c: Config, i: nat, end: PluginEnd)
    requires i < |x.queue|
    ensures var y, t := AttemptTask(x, c, i, end), x.queue[i];
      var again := end.Threw? && end.handled && Retried(c, end.ex) && t.retries < 5;
      && (y.log != x.log <==> exists k :: OnlyPending(x, t.releaseId, k))
      && (y.log == x.log ==> y == x.(queue := x.queue[..i] + x.queue[i + 1..]))
      && forall k :: k in x.releases && OnlyPending(x, t.releaseId, k) ==>
           && y.releases == x.releases[k := x.releases[k].(status := end.status)] && y.nextRelease == x.nextRelease
           && y.log == x.log + [PluginRun(k, t.releaseId, x.releases[k].status)]
           && y.queue == x.queue[..i] + x.queue[i + 1..]
                         + if again then [Task(t.provider, t.releaseId, t.retries + 1)] else []
  {
    var y, t := AttemptTask(x, c, i, end), x.queue[i];
    forall k: nat
      ensures OnlyPending(x, t.releaseId, k) <==> Candidates(x, t.releaseId) == {k}
    {
      OnlyCandidate(x, t.releaseId, k);
    }
    if y.log != x.log {
      assert |y.log| == |x.log| + 1;
    }
  }

  /** A release that fails with an error that asks for no retry is not tried again, as long as no configured handler
      claims Exception itself. */
  lemma NoRetryEndsTheTask(x: Intake, c: Config, i: nat, end: PluginEnd)
    requires i < |x.queue| && end.Threw? && IsException(c, end.ex) && c.Matches(end.ex, NO_RETRY)
    requires EXCEPTION !in c.configured
    ensures AttemptTask(x, c, i, end).queue == Without(x.queue, i)
  {
    NoRetryRetried(c, end.ex);
    AttemptRunsAndRetries(x, c, i, end);
  }

  lemma AttemptKeepsRows(x: Intake, c: Config, i: nat, end: PluginEnd)
    requires i < |x.queue| && RowsOk(x) && LogOk(x)
    ensures RowsOk(AttemptTask(x, c, i, end)) && LogOk(AttemptTask(x, c, i, end))
  {
    AttemptCases(x, c, i, end);
  }

  lemma AttemptKeepsTasks(x: Intake, c: Config, i: nat, end: PluginEnd)
    requires i < |x.queue| && TasksOk(x)
    ensures TasksOk(AttemptTask(x, c, i, end))
  {
    AttemptCases(x, c, i, end);
    var y := AttemptTask(x, c, i, end);
    forall p, id | AlreadyReceived(x, p, id)
      ensures AlreadyReceived(y, p, id)
    {
      var k :| k in x.releases && x.releases[k].provider == p && x.releases[k].providerId == id;
      assert k in y.releases && y.releases[k].provider == p && y.releases[k].providerId == id;
    }
  }

  lemma AttemptKeeps(x: Intake, c: Config, i: nat, end: PluginEnd)
    requires i < |x.queue| && IntakeOk(x)
    ensures IntakeOk(AttemptTask(x, c, i, end))
  {
    AttemptKeepsRows(x, c, i, end);
    AttemptKeepsTasks(x, c, i, end);
    AttemptDebt(x, c, i, end);
  }

  /** A row whose status has left RECEIVED and FAILED is not run and not changed by any attempt. */
  lemma AttemptSkipsSettled(x: Intake, c: Config, i: nat, end: PluginEnd, k: nat)
    requires i < |x.queue| && k in x.releases
    requires x.releases[k].status in {Processing, Published, Deleted, PublishPending}
    ensures var y := AttemptTask(x, c, i, end);
      k in y.releases && y.releases[k] == x.releases[k] && RunsOfRow(y.log, k) == RunsOfRow(x.log, k)
  {
    var y, t := AttemptTask(x, c, i, end), x.queue[i];
    if m: nat :| Candidates(x, t.releaseId) == {m} {
      assert m in Candidates(x, t.releaseId);
      assert y.log != x.log ==> y.log[..|y.log| - 1] == x.log;
    }
  }

  /** The plugin runs at most six times for every row that carries the release id; six times for a row whose id
      no other provider's row shares. */
  lemma RunsBounded(x: Intake, k: nat)
    requires IntakeOk(x) && k in x.releases
    ensures RunsOfRow(x.log, k) <= 6 * |RowsFor(x, x.releases[k].providerId)|
    ensures (forall m :: m in x.releases && x.releases[m].providerId == x.releases[k].providerId ==> m == k) ==>
      RunsOfRow(x.log, k) <= 6
  {
    var id := x.releases[k].providerId;
    assert Debt(x, id) <= 0;
    RowRunsAreIdRuns(x, x.log, k);
    if forall m :: m in x.releases && x.releases[m].providerId == id ==> m == k {
      assert RowsFor(x, id) == {k};
    }
  }

  lemma {:induction false} RowRunsAreIdRuns(x: Intake, log: seq<PluginRun>, k: nat)
    requires k in x.releases
    requires forall i :: 0 <= i < |log| ==>
      log[i].row in x.releases && x.releases[log[i].row].providerId == log[i].releaseId
    ensures RunsOfRow(log, k) <= RunsFor(log, x.releases[k].providerId)
  {
    if log != [] {
      RowRunsAreIdRuns(x, log[..|log| - 1], k);
    }
  }

  // ---------- release ids shared between providers ----------

  /** When two providers' rows with one release id are pending together, an attempt for that id is thrown away without
      a run and without a retry. */
  lemma SharedIdIsStuck(x: Intake, c: Config, i: nat, end: PluginEnd, a: nat, b: nat)
    requires i < |x.queue| && a != b && a in x.releases && b in x.releases
    requires x.releases[a].providerId == x.releases[b].providerId == x.queue[i].releaseId
    requires Pending(x.releases[a].status) && Pending(x.releases[b].status)
    ensures AttemptTask(x, c, i, end) == x.(queue := Without(x.queue, i))
  {
    assert a in Candidates(x, x.queue[i].releaseId) && b in Candidates(x, x.queue[i].releaseId);
  }

  /** No attempt, for whatever release, runs or changes either of them. */
  lemma StuckAttempt(x: Intake, c: Config, i: nat, end: PluginEnd, a: nat, b: nat)
    requires i < |x.queue| && a != b && a in x.releases && b in x.releases
    requires x.releases[a].providerId == x.releases[b].providerId
    requires Pending(x.releases[a].status) && Pending(x.releases[b].status)
    ensures var y := AttemptTask(x, c, i, end);
      y.releases.Keys == x.releases.Keys && y.releases[a] == x.releases[a] && RunsOfRow(y.log, a) == RunsOfRow(x.log, a)
  {
    var y, t := AttemptTask(x, c, i, end), x.queue[i];
    if t.releaseId == x.releases[a].providerId {
      SharedIdIsStuck(x, c, i, end, a, b);
    } else if m: nat :| Candidates(x, t.releaseId) == {m} {
      assert m in Candidates(x, t.releaseId);
      assert y.log != x.log ==> y.log[..|y.log| - 1] == x.log;
    }
  }

  /** When only one of them is pending, a task of either provider runs the plugin on it. */
  lemma SharedIdRunsForeignRow(x: Intake, c: Config, i: nat, end: PluginEnd, a: nat)
    requires i < |x.queue| && a in x.releases && x.releases[a].providerId == x.queue[i].releaseId
    requires Pending(x.releases[a].status)
    requires forall b :: b in x.releases && b != a && x.releases[b].providerId == x.queue[i].releaseId ==>
      !Pending(x.releases[b].status)
    ensures RunsOfRow(AttemptTask(x, c, i, end).log, a) == RunsOfRow(x.log, a) + 1
    ensures AttemptTask(x, c, i, end).releases[a].status == end.status
  {
    assert Candidates(x, x.queue[i].releaseId) == {a};
    var y := AttemptTask(x, c, i, end);
    assert y.log[..|y.log| - 1] == x.log;
  }
}
