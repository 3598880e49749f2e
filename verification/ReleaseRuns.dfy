/** How often a release is handed to the plugin, over any steps of anyone at any number of providers. */
module ReleaseRuns {
  import opened Tables
  import opened Handlers
  import opened Releases
  import opened ReleaseInvariants
  import opened System

  /** There are exceptions that are retried. */
  ghost predicate Again(c: Config) {
    exists ex :: Retried(c, ex)
  }

  /** Row k is settled, or pending together with another row of its id. */
  ghost predicate Frozen(x: Intake, k: nat) {
    k in x.releases && (!Pending(x.releases[k].status) || exists b :: BothPending(x, k, b))
  }

  /** The runs that row k can still get: none if it is frozen, and otherwise one for every attempt that all providers'
      tasks for its release id have left. */
  ghost function RunsLeft(c: Config, x: Intake, k: nat): nat
    requires k in x.releases
  {
    if Frozen(x, k) then 0 else Budget(Again(c), x.queue, x.releases[k].providerId)
  }

  // ---------- no row gets more ----------

  /** A frozen row stays frozen, and is neither run nor changed. */
  lemma FrozenStep(s: State, c: Config, t: Step, k: nat)
    requires Inv(s) && Frozen(s.intake, k)
    ensures Untouched(s.intake, Next(s, c, t).intake, k) && Frozen(Next(s, c, t).intake, k)
  {
    if b :| BothPending(s.intake, k, b) {
      StuckStep(s, c, t, k, b);
      StuckStep(s, c, t, b, k);
      assert BothPending(Next(s, c, t).intake, k, b);
    } else {
      SettledStep(s, c, t, k);
    }
  }

  lemma NotFrozen(x: Intake, k: nat)
    requires k in x.releases
    ensures !Frozen(x, k) <==> OnlyPending(x, x.releases[k].providerId, k)
  {
    var id := x.releases[k].providerId;
    if !Frozen(x, k) {
      forall m: nat
        ensures m in x.releases && x.releases[m].providerId == id && Pending(x.releases[m].status) <==> m == k
      {
        assert !BothPending(x, k, m);
      }
    }
  }

  /** A later row with the id freezes row k; a row with another id is no concern of it. */
  lemma DeliveryRunsLeft(x: Intake, db: Db, p: string, e: Payload, y: Intake, c: Config, k: nat)
    requires k in x.releases && !Frozen(x, k) && AcceptedRelease(x, db, p, e, y)
    ensures k in y.releases && y.log == x.log && RunsLeft(c, y, k) <= RunsLeft(c, x, k)
  {
    var own := y.queue[|x.queue|];
    assert y.queue == x.queue + [own];
    if e.releaseId == x.releases[k].providerId {
      assert BothPending(y, k, x.nextRelease);
    } else {
      BudgetSplit(Again(c), x.queue, [own], x.releases[k].providerId);
      assert [own][..0] == [];
    }
  }

  /** An attempt costs the task it is made for at least one of the attempts it had left. */
  lemma AttemptCosts(again: bool, q: seq<Task>, i: nat, after: seq<Task>, id: string)
    requires i < |q| && q[i].retries <= MAX_RETRIES
    requires after == Without(q, i)
      || (again && q[i].retries < MAX_RETRIES && after == Without(q, i) + [q[i].(retries := q[i].retries + 1)])
    ensures Budget(again, after, id) + (if q[i].releaseId == id then 1 else 0) <= Budget(again, q, id)
  {
    var more := q[i].(retries := q[i].retries + 1);
    BudgetWithout(again, q, i, id);
    BudgetSplit(again, Without(q, i), [more], id);
    assert [more][..0] == [];
  }

  lemma AttemptedQueue(x: Intake, c: Config, i: nat, end: PluginEnd)
    requires i < |x.queue|
    ensures var y, t, rest := AttemptTask(x, c, i, end), x.queue[i], Without(x.queue, i);
      y.queue == rest
      || (Again(c) && t.retries < MAX_RETRIES && y.queue == rest + [t.(retries := t.retries + 1)])
  {
    AttemptCases(x, c, i, end);
    AttemptRunsAndRetries(x, c, i, end);
  }

  lemma AttemptRunsLeft(x: Intake, c: Config, i: nat, end: PluginEnd, k: nat)
    requires TasksOk(x) && i < |x.queue| && k in x.releases && !Frozen(x, k)
    ensures var y := AttemptTask(x, c, i, end);
      k in y.releases && RunsOfRow(y.log, k) + RunsLeft(c, y, k) <= RunsOfRow(x.log, k) + RunsLeft(c, x, k)
  {
    var y, t, id := AttemptTask(x, c, i, end), x.queue[i], x.releases[k].providerId;
    AttemptCases(x, c, i, end);
    AttemptedQueue(x, c, i, end);
    AttemptCosts(Again(c), x.queue, i, y.queue, id);
    assert y.log != x.log ==> y.log[..|y.log| - 1] == x.log;
  }

  lemma RunsLeftStep(s: State, c: Config, t: Step, k: nat)
    requires Inv(s) && k in s.intake.releases
    ensures var x := Next(s, c, t).intake;
      k in x.releases
      && RunsOfRow(x.log, k) + RunsLeft(c, x, k) <= RunsOfRow(s.intake.log, k) + RunsLeft(c, s.intake, k)
  {
    if Frozen(s.intake, k) {
      FrozenStep(s, c, t, k);
    } else {
      match t
      case DeliveryStep(q, e) =>
        DeliverAccepts(s.intake, s.db, q, e);
        if Next(s, c, t).intake != s.intake {
          DeliveryRunsLeft(s.intake, s.db, q, e, Next(s, c, t).intake, c, k);
        }
      case ReleaseStep(i, end) =>
        if i < |s.intake.queue| {
          AttemptRunsLeft(s.intake, c, i, end, k);
        }
      case _ =>
    }
  }

  /** Over any steps, what a row is run is taken from what it had left. */
  lemma {:induction false} RunsTakenFromLeft(s: State, c: Config, ts: seq<Step>, k: nat)
    requires Inv(s) && k in s.intake.releases
    ensures var x := StateAfter(s, c, ts).intake;
      k in x.releases
      && RunsOfRow(x.log, k) + RunsLeft(c, x, k) <= RunsOfRow(s.intake.log, k) + RunsLeft(c, s.intake, k)
  {
    if ts != [] {
      RunsTakenFromLeft(s, c, ts[..|ts| - 1], k);
      RunInv(s, c, ts[..|ts| - 1]);
      RunsLeftStep(StateAfter(s, c, ts[..|ts| - 1]), c, ts[|ts| - 1], k);
    }
  }

  // ---------- and a row can get as many ----------

  predicate RetriesOk(q: seq<Task>) {
    forall i :: 0 <= i < |q| ==> q[i].retries <= MAX_RETRIES
  }

  /** After n failed attempts that began in x: row k, the only pending one with the id, was run n times, at the cost of
      n of the attempts that all tasks for the id had left. */
  ghost predicate Draining(again: bool, x: Intake, y: Intake, id: string, k: nat, n: nat) {
    && OnlyPending(y, id, k) && RetriesOk(y.queue)
    && Budget(again, y.queue, id) + n == Budget(again, x.queue, id)
    && RunsOfRow(y.log, k) == RunsOfRow(x.log, k) + n
  }

  /** The plugin fails, with an exception to be retried if there is one. */
  ghost predicate Fails(c: Config, end: PluginEnd) {
    end.status == Failed && (Again(c) ==> end.Threw? && end.handled && Retried(c, end.ex))
  }

  /** The queue after such an attempt at its i-th task. */
  function Requeued(again: bool, q: seq<Task>, i: nat): seq<Task>
    requires i < |q|
  {
    if again && q[i].retries < MAX_RETRIES then Without(q, i) + [q[i].(retries := q[i].retries + 1)]
    else Without(q, i)
  }

  ghost function FailedTo(again: bool, x: Intake, i: nat, id: string, k: nat): Intake
    requires k in x.releases && i < |x.queue|
  {
    x.(releases := x.releases[k := x.releases[k].(status := Failed)],
       queue := Requeued(again, x.queue, i),
       log := x.log + [PluginRun(k, id, x.releases[k].status)])
  }

  lemma FailedAttempt(x: Intake, c: Config, i: nat, end: PluginEnd, id: string, k: nat)
    requires OnlyPending(x, id, k) && i < |x.queue| && x.queue[i].releaseId == id && Fails(c, end)
    ensures k in x.releases && AttemptTask(x, c, i, end) == FailedTo(Again(c), x, i, id, k)
  {
    OnlyCandidate(x, id, k);
    assert k in Candidates(x, id);
  }

  lemma FailedRow(x: Intake, y: Intake, id: string, k: nat)
    requires OnlyPending(x, id, k) && k in x.releases
    requires y.releases == x.releases[k := x.releases[k].(status := Failed)]
    ensures OnlyPending(y, id, k)
  {
    forall m: nat
      ensures m in y.releases && y.releases[m].providerId == id && Pending(y.releases[m].status) <==> m == k
    {
      assert m in x.releases && x.releases[m].providerId == id && Pending(x.releases[m].status) <==> m == k;
    }
  }

  lemma RequeuedRetries(again: bool, q: seq<Task>, i: nat)
    requires RetriesOk(q) && i < |q|
    ensures RetriesOk(Requeued(again, q, i))
  {
    var rest := Without(q, i);
    assert forall j :: 0 <= j < |rest| ==> rest[j] == q[if j < i then j else j + 1];
  }

  lemma RequeuedBudget(again: bool, q: seq<Task>, i: nat, id: string)
    requires i < |q| && q[i].retries <= MAX_RETRIES && q[i].releaseId == id
    ensures Budget(again, Requeued(again, q, i), id) + 1 == Budget(again, q, id)
  {
    var more := q[i].(retries := q[i].retries + 1);
    BudgetWithout(again, q, i, id);
    BudgetSplit(again, Without(q, i), [more], id);
    OneTaskBudget(again, more);
  }

  lemma OneTaskBudget(again: bool, t: Task)
    ensures Budget(again, [t], t.releaseId) == Left(again, t)
  {
    assert [t][..0] == [];
  }

  lemma RunLogged(log: seq<PluginRun>, run: PluginRun)
    ensures RunsOfRow(log + [run], run.row) == RunsOfRow(log, run.row) + 1
  {
    assert (log + [run])[..|log|] == log;
  }

  lemma OneFailure(again: bool, x: Intake, i: nat, id: string, k: nat)
    requires OnlyPending(x, id, k) && k in x.releases
    requires RetriesOk(x.queue) && i < |x.queue| && x.queue[i].releaseId == id
    ensures Draining(again, x, FailedTo(again, x, i, id, k), id, k, 1)
  {
    FailedRow(x, FailedTo(again, x, i, id, k), id, k);
    RequeuedRetries(again, x.queue, i);
    RequeuedBudget(again, x.queue, i, id);
    RunLogged(x.log, PluginRun(k, id, x.releases[k].status));
  }

  lemma DrainedFurther(again: bool, x: Intake, y: Intake, z: Intake, id: string, k: nat, n: nat)
    requires Draining(again, x, y, id, k, n) && Draining(again, y, z, id, k, 1)
    ensures Draining(again, x, z, id, k, n + 1)
  {
  }

  /** As long as attempts for the id are left, a task for it is queued. */
  lemma {:induction false} SomeTaskLeft(again: bool, q: seq<Task>, id: string) returns (i: nat)
    requires Budget(again, q, id) > 0
    ensures i < |q| && q[i].releaseId == id
  {
    if q[|q| - 1].releaseId == id {
      i := |q| - 1;
    } else {
      i := SomeTaskLeft(again, q[..|q| - 1], id);
    }
  }

  /** The steps are attempts at tasks for the release id. */
  ghost predicate AttemptsFor(s: State, c: Config, ts: seq<Step>, id: string) {
    ts == [] ||
    var x, t := StateAfter(s, c, ts[..|ts| - 1]).intake, ts[|ts| - 1];
    AttemptsFor(s, c, ts[..|ts| - 1], id) && t.ReleaseStep? && t.index < |x.queue| && x.queue[t.index].releaseId == id
  }

  lemma SomeFailure(c: Config) returns (end: PluginEnd)
    ensures Fails(c, end)
  {
    end := Finished(Failed);
    if ex :| Retried(c, ex) {
      end := Threw(ex, Failed, true);
    }
  }

  lemma AttemptAgain(x: Intake, z: State, c: Config, id: string, k: nat, n: nat) returns (t: Step)
    requires Draining(Again(c), x, z.intake, id, k, n) && n < Budget(Again(c), x.queue, id)
    ensures t.ReleaseStep? && t.index < |z.intake.queue| && z.intake.queue[t.index].releaseId == id
    ensures Draining(Again(c), x, Next(z, c, t).intake, id, k, n + 1)
  {
    var y := z.intake;
    var end := SomeFailure(c);
    var i := SomeTaskLeft(Again(c), y.queue, id);
    FailedAttempt(y, c, i, end, id, k);
    OneFailure(Again(c), y, i, id, k);
    DrainedFurther(Again(c), x, y, FailedTo(Again(c), y, i, id, k), id, k, n);
    t := ReleaseStep(i, end);
    assert Next(z, c, t).intake == AttemptTask(y, c, i, end);
  }

  /** Whatever else is queued: when every attempt fails, with an error to be retried if there is one, the only pending
      row with an id can be run any number of times up to the attempts that all tasks for the id have left. */
  lemma {:induction false} BoundAttained(s: State, c: Config, id: string, k: nat, n: nat) returns (ts: seq<Step>)
    requires OnlyPending(s.intake, id, k) && RetriesOk(s.intake.queue) && n <= Budget(Again(c), s.intake.queue, id)
    ensures AttemptsFor(s, c, ts, id) && Draining(Again(c), s.intake, StateAfter(s, c, ts).intake, id, k, n)
    decreases n
  {
    if n == 0 {
      ts := [];
    } else {
      var before := BoundAttained(s, c, id, k, n - 1);
      var t := AttemptAgain(s.intake, StateAfter(s, c, before), c, id, k, n - 1);
      ts := before + [t];
      StateAfterLast(s, c, before, t);
      assert ts[..|ts| - 1] == before;
    }
  }

  // ---------- the exact limit ----------

  /** Row k was run at most n times after any steps at all. */
  ghost predicate NeverMoreThan(s: State, c: Config, k: nat, n: nat) {
    forall ts :: RunsOfRow(StateAfter(s, c, ts).intake.log, k) <= n
  }

  /** The exact limit on the runs of any release in any state: the runs it had, and what it has left. */
  lemma RunsLeftExactly(s: State, c: Config, k: nat, n: nat)
    requires Inv(s) && k in s.intake.releases
    ensures NeverMoreThan(s, c, k, n) <==> n >= RunsOfRow(s.intake.log, k) + RunsLeft(c, s.intake, k)
  {
    var had, id := RunsOfRow(s.intake.log, k), s.intake.releases[k].providerId;
    if n >= had + RunsLeft(c, s.intake, k) {
      forall ts
        ensures RunsOfRow(StateAfter(s, c, ts).intake.log, k) <= n
      {
        RunsTakenFromLeft(s, c, ts, k);
      }
    } else if n < had {
      assert RunsOfRow(StateAfter(s, c, []).intake.log, k) == had;
    } else {
      NotFrozen(s.intake, k);
      var ts := BoundAttained(s, c, id, k, n + 1 - had);
      assert RunsOfRow(StateAfter(s, c, ts).intake.log, k) == n + 1;
    }
  }

  /** Some row with the id is pending. */
  ghost predicate PendingFor(x: Intake, id: string) {
    exists m :: m in x.releases && x.releases[m].providerId == id && Pending(x.releases[m].status)
  }

  lemma {:induction false} NotRunBefore(log: seq<PluginRun>, k: nat)
    requires forall i :: 0 <= i < |log| ==> log[i].row != k
    ensures RunsOfRow(log, k) == 0
  {
    if log != [] {
      NotRunBefore(log[..|log| - 1], k);
    }
  }

  /** A new row is frozen at once exactly if another row with its id is pending. */
  lemma AcceptedFrozen(x: Intake, db: Db, p: string, e: Payload, y: Intake)
    requires AcceptedRelease(x, db, p, e, y)
    ensures Frozen(y, x.nextRelease) <==> PendingFor(x, e.releaseId)
  {
    var k := x.nextRelease;
    if PendingFor(x, e.releaseId) {
      var m :| m in x.releases && x.releases[m].providerId == e.releaseId && Pending(x.releases[m].status);
      assert BothPending(y, k, m);
    }
    if b :| BothPending(y, k, b) {
      assert b in x.releases && y.releases[b] == x.releases[b];
    }
  }

  lemma AcceptedBudget(again: bool, x: Intake, db: Db, p: string, e: Payload, y: Intake)
    requires AcceptedRelease(x, db, p, e, y)
    ensures Budget(again, y.queue, e.releaseId) == (if again then 6 else 1) + Budget(again, x.queue, e.releaseId)
  {
    var own := y.queue[|x.queue|];
    assert y.queue == x.queue + [own];
    BudgetSplit(again, x.queue, [own], e.releaseId);
    assert [own][..0] == [];
  }

  /** What a release has left when it is accepted. */
  lemma AcceptedRunsLeft(s: State, c: Config, p: string, e: Payload)
    requires Inv(s) && Next(s, c, DeliveryStep(p, e)) != s
    ensures var x, k := Next(s, c, DeliveryStep(p, e)).intake, s.intake.nextRelease;
      && k in x.releases && RunsOfRow(x.log, k) == 0
      && RunsLeft(c, x, k) ==
           if PendingFor(s.intake, e.releaseId) then 0
           else (if Again(c) then 6 else 1) + Budget(Again(c), s.intake.queue, e.releaseId)
  {
    var x := Next(s, c, DeliveryStep(p, e)).intake;
    DeliverAccepts(s.intake, s.db, p, e);
    NotRunBefore(s.intake.log, s.intake.nextRelease);
    AcceptedFrozen(s.intake, s.db, p, e, x);
    AcceptedBudget(Again(c), s.intake, s.db, p, e, x);
  }

  /** The exact limit on the runs of a release, known at the moment it is accepted: none, if another row with its id is
      pending; otherwise the attempts of its own task (six, or one if no exception is retried), and as many more as
      the tasks that other providers have queued for the id have left. What is accepted later does not matter. */
  lemma RunsExactly(s: State, c: Config, p: string, e: Payload, n: nat)
    requires Inv(s) && Next(s, c, DeliveryStep(p, e)) != s
    ensures NeverMoreThan(Next(s, c, DeliveryStep(p, e)), c, s.intake.nextRelease, n)
      <==> PendingFor(s.intake, e.releaseId)
           || n >= (if Again(c) then 6 else 1) + Budget(Again(c), s.intake.queue, e.releaseId)
  {
    AcceptedRunsLeft(s, c, p, e);
    StepKeeps(s, c, DeliveryStep(p, e));
    RunsLeftExactly(Next(s, c, DeliveryStep(p, e)), c, s.intake.nextRelease, n);
  }

  lemma {:induction false} NoneLeft(again: bool, q: seq<Task>, id: string)
    requires RetriesOk(q)
    ensures Budget(again, q, id) == 0 <==> forall i :: 0 <= i < |q| ==> q[i].releaseId != id
  {
    if q != [] {
      var rest := q[..|q| - 1];
      NoneLeft(again, rest, id);
      assert forall i :: 0 <= i < |rest| ==> rest[i] == q[i];
    }
  }

  /** A release gets no more runs than its own task's attempts exactly when, at its acceptance, no other provider's task
      for the id is queued, or another row with the id is pending. */
  lemma SixExactly(s: State, c: Config, p: string, e: Payload)
    requires Inv(s) && Next(s, c, DeliveryStep(p, e)) != s
    ensures NeverMoreThan(Next(s, c, DeliveryStep(p, e)), c, s.intake.nextRelease, if Again(c) then 6 else 1)
      <==> PendingFor(s.intake, e.releaseId)
           || forall i :: 0 <= i < |s.intake.queue| ==> s.intake.queue[i].releaseId != e.releaseId
  {
    RunsExactly(s, c, p, e, if Again(c) then 6 else 1);
    NoneLeft(Again(c), s.intake.queue, e.releaseId);
  }

  /** Such a task is always another provider's. */
  lemma QueuedForOthers(s: State, c: Config, p: string, e: Payload)
    requires Inv(s) && Next(s, c, DeliveryStep(p, e)) != s
    ensures forall i :: 0 <= i < |s.intake.queue| && s.intake.queue[i].releaseId == e.releaseId ==>
      s.intake.queue[i].provider != p
  {
    DeliverAccepts(s.intake, s.db, p, e);
    forall i | 0 <= i < |s.intake.queue| && s.intake.queue[i].releaseId == e.releaseId
      ensures s.intake.queue[i].provider != p
    {
      assert AlreadyReceived(s.intake, s.intake.queue[i].provider, e.releaseId);
    }
  }

  // ---------- runs from the start ----------

  /** The plugin runs of these rows. */
  function RunsIn(log: seq<PluginRun>, rows: set<nat>): nat {
    if log == [] then 0 else RunsIn(log[..|log| - 1], rows) + if log[|log| - 1].row in rows then 1 else 0
  }

  lemma {:induction false} RunsInMore(log: seq<PluginRun>, rows: set<nat>, k: nat)
    requires k !in rows
    ensures RunsIn(log, rows + {k}) == RunsIn(log, rows) + RunsOfRow(log, k)
  {
    if log != [] {
      RunsInMore(log[..|log| - 1], rows, k);
    }
  }

  lemma {:induction false} AllRan(log: seq<PluginRun>, rows: set<nat>)
    requires forall m :: m in rows ==> RunsOfRow(log, m) >= 1
    ensures RunsIn(log, rows) >= |rows|
  {
    if m :| m in rows {
      AllRan(log, rows - {m});
      RunsInMore(log, rows - {m}, m);
      assert rows == rows - {m} + {m};
    }
  }

  lemma {:induction false} RunsInAreRunsFor(log: seq<PluginRun>, rows: set<nat>, id: string)
    requires forall i :: 0 <= i < |log| && log[i].row in rows ==> log[i].releaseId == id
    ensures RunsIn(log, rows) <= RunsFor(log, id)
  {
    if log != [] {
      RunsInAreRunsFor(log[..|log| - 1], rows, id);
    }
  }

  /** Every settled row was run, and no row more often than five times for each row with its id and once. */
  ghost predicate RanOk(x: Intake) {
    && (forall k :: k in x.releases && !Pending(x.releases[k].status) ==> RunsOfRow(x.log, k) >= 1)
    && (forall k :: k in x.releases ==> WithinFive(x, k))
  }

  ghost predicate WithinFive(x: Intake, k: nat)
    requires k in x.releases
  {
    RunsOfRow(x.log, k) <= 5 * |RowsFor(x, x.releases[k].providerId)| + 1
  }

  /** When all other rows with the id were run, they have used up an attempt each. */
  lemma OthersRan(x: Intake, k: nat)
    requires IntakeOk(x) && k in x.releases
    requires forall m :: m in RowsFor(x, x.releases[k].providerId) && m != k ==> RunsOfRow(x.log, m) >= 1
    ensures WithinFive(x, k)
  {
    var id := x.releases[k].providerId;
    var rows := RowsFor(x, id);
    AllRan(x.log, rows - {k});
    RunsInMore(x.log, rows - {k}, k);
    assert rows == rows - {k} + {k};
    RunsInAreRunsFor(x.log, rows, id);
    assert Debt(x, id) <= 0;
  }

  lemma MoreRows(x: Intake, y: Intake, k: nat)
    requires k in x.releases && WithinFive(x, k) && Untouched(x, y, k)
    requires forall m :: m in x.releases ==> m in y.releases && y.releases[m].providerId == x.releases[m].providerId
    ensures WithinFive(y, k)
  {
    var before, after := RowsFor(x, x.releases[k].providerId), RowsFor(y, x.releases[k].providerId);
    assert before <= after;
    assert after == before + (after - before);
  }

  /** Runs are only added. */
  lemma RunsGrow(s: State, c: Config, t: Step, k: nat)
    requires Inv(s)
    ensures RunsOfRow(Next(s, c, t).intake.log, k) >= RunsOfRow(s.intake.log, k)
  {
    var x := Next(s, c, t).intake;
    match t
    case DeliveryStep(q, e) => DeliverAccepts(s.intake, s.db, q, e);
    case ReleaseStep(i, end) =>
      if i < |s.intake.queue| {
        AttemptCases(s.intake, c, i, end);
        assert x.log != s.intake.log ==> x.log[..|x.log| - 1] == s.intake.log;
      }
    case _ =>
  }

  /** A row that an attempt settles was run by it. */
  lemma AttemptSettles(x: Intake, c: Config, i: nat, end: PluginEnd, k: nat)
    requires i < |x.queue| && k in x.releases && AttemptTask(x, c, i, end).releases[k] != x.releases[k]
    ensures RunsOfRow(AttemptTask(x, c, i, end).log, k) >= 1
  {
    var id := x.queue[i].releaseId;
    var m: nat :| Candidates(x, id) == {m};
    RunLogged(x.log, PluginRun(m, id, x.releases[m].status));
  }

  lemma SettledByRun(s: State, c: Config, t: Step, k: nat)
    requires Inv(s) && k in Next(s, c, t).intake.releases && !Pending(Next(s, c, t).intake.releases[k].status)
    requires k in s.intake.releases ==> Pending(s.intake.releases[k].status)
    ensures RunsOfRow(Next(s, c, t).intake.log, k) >= 1
  {
    match t
    case DeliveryStep(q, e) => DeliverAccepts(s.intake, s.db, q, e);
    case ReleaseStep(i, end) =>
      if i < |s.intake.queue| {
        AttemptCases(s.intake, c, i, end);
        AttemptSettles(s.intake, c, i, end, k);
      }
    case _ =>
  }

  lemma WithinFiveStep(s: State, c: Config, t: Step, k: nat)
    requires Inv(s) && RanOk(s.intake) && k in Next(s, c, t).intake.releases
    ensures WithinFive(Next(s, c, t).intake, k)
  {
    var x, y := s.intake, Next(s, c, t).intake;
    StepKeeps(s, c, t);
    forall m | m in x.releases
      ensures m in y.releases && y.releases[m].providerId == x.releases[m].providerId
    {
      RowStaysStep(s, c, t, m);
    }
    if k !in x.releases {
      NewRowNotRun(s, c, t, k);
    } else if Frozen(x, k) {
      FrozenStep(s, c, t, k);
      MoreRows(x, y, k);
    } else if t.DeliveryStep? {
      DeliverAccepts(x, s.db, t.provider, t.payload);
      MoreRows(x, y, k);
    } else {
      NotFrozen(x, k);
      OthersSettled(s, c, t, k);
      OthersRan(y, k);
    }
  }

  lemma NewRowNotRun(s: State, c: Config, t: Step, k: nat)
    requires Inv(s) && k !in s.intake.releases && k in Next(s, c, t).intake.releases
    ensures RunsOfRow(Next(s, c, t).intake.log, k) == 0
  {
    match t
    case DeliveryStep(q, e) =>
      DeliverAccepts(s.intake, s.db, q, e);
      NotRunBefore(s.intake.log, k);
    case ReleaseStep(i, end) =>
      if i < |s.intake.queue| {
        AttemptCases(s.intake, c, i, end);
      }
    case _ =>
  }

  lemma OthersSettled(s: State, c: Config, t: Step, k: nat)
    requires Inv(s) && RanOk(s.intake) && k in s.intake.releases && !t.DeliveryStep?
    requires OnlyPending(s.intake, s.intake.releases[k].providerId, k)
    ensures var y := Next(s, c, t).intake;
      k in y.releases
      && forall m :: m in RowsFor(y, y.releases[k].providerId) && m != k ==> RunsOfRow(y.log, m) >= 1
  {
    var y := Next(s, c, t).intake;
    RowStaysStep(s, c, t, k);
    forall m | m in RowsFor(y, y.releases[k].providerId) && m != k
      ensures RunsOfRow(y.log, m) >= 1
    {
      SameRows(s, c, t);
      RowStaysStep(s, c, t, m);
      RunsGrow(s, c, t, m);
    }
  }

  lemma SameRows(s: State, c: Config, t: Step)
    requires !t.DeliveryStep?
    ensures Next(s, c, t).intake.releases.Keys == s.intake.releases.Keys
  {
    if t.ReleaseStep? && t.index < |s.intake.queue| {
      AttemptCases(s.intake, c, t.index, t.end);
    }
  }

  lemma RanStep(s: State, c: Config, t: Step)
    requires Inv(s) && RanOk(s.intake)
    ensures RanOk(Next(s, c, t).intake)
  {
    var y := Next(s, c, t).intake;
    forall k | k in y.releases
      ensures WithinFive(y, k)
      ensures !Pending(y.releases[k].status) ==> RunsOfRow(y.log, k) >= 1
    {
      WithinFiveStep(s, c, t, k);
      RunsGrow(s, c, t, k);
      if !Pending(y.releases[k].status) && (k in s.intake.releases ==> Pending(s.intake.releases[k].status)) {
        SettledByRun(s, c, t, k);
      }
    }
  }

  lemma {:induction false} RanInRuns(s: State, c: Config, ts: seq<Step>)
    requires Inv(s) && RanOk(s.intake)
    ensures RanOk(StateAfter(s, c, ts).intake)
  {
    if ts != [] {
      RanInRuns(s, c, ts[..|ts| - 1]);
      RunInv(s, c, ts[..|ts| - 1]);
      RanStep(StateAfter(s, c, ts[..|ts| - 1]), c, ts[|ts| - 1]);
    }
  }

  /** In every run from the start, at any number of providers: one row and at most one queued task per (provider,
      release id); the plugin runs only on received and failed rows, at least once on every settled one, and at most
      five times for each row sharing the release id and once; every release belongs to a repository of its provider. */
  lemma ReleasesInRuns(s: State, c: Config, ts: seq<Step>)
    requires Initial(s)
    ensures var z := StateAfter(s, c, ts);
      var x := z.intake;
      && (forall a, b :: a in x.releases && b in x.releases && SameRelease(x.releases[a], x.releases[b]) ==> a == b)
      && (forall i, j :: 0 <= i < j < |x.queue| ==>
            x.queue[i].provider != x.queue[j].provider || x.queue[i].releaseId != x.queue[j].releaseId)
      && (forall i :: 0 <= i < |x.log| ==> x.log[i].status == Received || x.log[i].status == Failed)
      && (forall k :: k in x.releases && x.releases[k].status in {Processing, Published, Deleted, PublishPending} ==>
            RunsOfRow(x.log, k) >= 1)
      && (forall k :: k in x.releases ==> RunsOfRow(x.log, k) <= 5 * |RowsFor(x, x.releases[k].providerId)| + 1)
      && ReleasesBelong(z)
  {
    InitialInv(s);
    RunInv(s, c, ts);
    RanInRuns(s, c, ts);
    var x := StateAfter(s, c, ts).intake;
    forall k | k in x.releases
      ensures RunsOfRow(x.log, k) <= 5 * |RowsFor(x, x.releases[k].providerId)| + 1
    {
      assert WithinFive(x, k);
    }
  }
}
