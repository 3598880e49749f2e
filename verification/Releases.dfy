/** Release intake and processing: webhook deliveries create rows and tasks, task attempts run the plugin. */
module Releases {
  import opened Domain
  import opened Tables
  import opened Handlers

  datatype Status = Received | Processing | Published | Failed | Deleted | PublishPending

  /** A row of `vcs_releases`; its primary key is the key of the table that holds it. */
  datatype Release = Release(provider: string, providerId: string, tag: string, repo: nat, status: Status)

  datatype Task = Task(provider: string, releaseId: string, retries: nat)

  /** One call of the plugin's process_release: the row, its release id, and the status it was called in. */
  datatype PluginRun = PluginRun(row: nat, releaseId: string, status: Status)

  datatype Intake = Intake(
    releases: map<nat, Release>,
    nextRelease: nat,
    queue: seq<Task>,
    log: seq<PluginRun>)

  const MAX_RETRIES: nat := 5

  datatype Payload = Payload(action: Option<string>, draft: bool, releaseId: string, repoId: string, tag: string)

  /** webhook_is_create_release_event of the GitHub provider. */
  predicate IsCreateRelease(e: Payload) {
    (e.action == Some("published") || e.action == Some("released")) && !e.draft
  }

  /** How one call of the plugin ends: it returns, or it throws an exception of some class, in either case with
      some status committed. `handled` says that the error handler itself did not throw. */
  datatype PluginEnd = Finished(status: Status) | Threw(ex: string, status: Status, handled: bool)

  ghost predicate AlreadyReceived(x: Intake, p: string, id: string) {
    exists k :: k in x.releases && x.releases[k].provider == p && x.releases[k].providerId == id
  }

  /** A delivery: the new state, and the response code it sets (None: the code stays as it was). */
  ghost function Deliver(x: Intake, db: Db, p: string, e: Payload): (Intake, Option<nat>) {
    if !IsCreateRelease(e) then (x, None)
    else if AlreadyReceived(x, p, e.releaseId) then (x, Some(409))
    else
      match Lookup(db, p, e.repoId)
      case None => (x, Some(404))
      case Some(id) =>
        if !db.repos[id].Enabled() then (x, Some(409))
        else (x.(releases := x.releases[x.nextRelease := Release(p, e.releaseId, e.tag, id, Received)],
                 nextRelease := x.nextRelease + 1,
                 queue := x.queue + [Task(p, e.releaseId, 0)]), None)
  }

  /** The rows process_release selects: by release id and status, whatever their provider. */
  function Candidates(x: Intake, id: string): set<nat> {
    set k | k in x.releases && x.releases[k].providerId == id
      && (x.releases[k].status == Received || x.releases[k].status == Failed)
  }

  function Without<T>(q: seq<T>, i: nat): seq<T>
    requires i < |q|
  {
    q[..i] + q[i + 1..]
  }

  /** One attempt at the i-th queued task. */
  ghost function AttemptTask(x: Intake, c: Config, i: nat, end: PluginEnd): Intake
    requires i < |x.queue|
  {
    var t, rest := x.queue[i], Without(x.queue, i);
    if k: nat :| Candidates(x, t.releaseId) == {k} then
      var again := end.Threw? && end.handled && Retried(c, end.ex) && t.retries < MAX_RETRIES;
      x.(releases := x.releases[k := x.releases[k].(status := end.status)],
         queue := if again then rest + [t.(retries := t.retries + 1)] else rest,
         log := x.log + [PluginRun(k, t.releaseId, x.releases[k].status)])
    else
      x.(queue := rest)
  }

  // ---------- the code ----------

  class Event {
    const payload: Payload
    var responseCode: nat

    constructor (payload: Payload)
      ensures this.payload == payload && responseCode == 202
    {
      this.payload := payload;
      responseCode := 202;
    }
  }

  class ReleaseStore {
    var releases: map<nat, Release>
    var nextRelease: nat
    var queue: seq<Task>
    var log: seq<PluginRun>

    ghost function Snap(): Intake
      reads this
    {
      Intake(releases, nextRelease, queue, log)
    }

    /** VCSReceiver._handle_event. */
    method HandleEvent(db: Database, p: string, event: Event)
      requires UniqueKeys(db.Snap())
      modifies this, event`responseCode
      ensures var (x, code) := Deliver(old(Snap()), db.Snap(), p, event.payload);
        Snap() == x && event.responseCode == if code.Some? then code.value else old(event.responseCode)
    {
      if IsCreateRelease(event.payload) {
        HandleCreateRelease(db, p, event);
      }
    }

    method HandleCreateRelease(db: Database, p: string, event: Event)
      requires UniqueKeys(db.Snap()) && IsCreateRelease(event.payload)
      modifies this, event`responseCode
      ensures var (x, code) := Deliver(old(Snap()), db.Snap(), p, event.payload);
        Snap() == x && event.responseCode == if code.Some? then code.value else old(event.responseCode)
    {
      var e := event.payload;
      if exists k :: k in releases && releases[k].provider == p && releases[k].providerId == e.releaseId {
        assert AlreadyReceived(Snap(), p, e.releaseId);
        event.responseCode := 409;
        return;
      }
      var repo := db.Get(p, e.repoId);
      if repo.None? {
        event.responseCode := 404;
        return;
      }
      if db.repos[repo.value].Enabled() {
        releases := releases[nextRelease := Release(p, e.releaseId, e.tag, repo.value, Received)];
        nextRelease := nextRelease + 1;
        queue := queue + [Task(p, e.releaseId, 0)];
      } else {
        event.responseCode := 409;
      }
    }

    /** One attempt of tasks.process_release at the i-th queued task; `end` is what the plugin call does. */
    method ProcessRelease(c: Config, i: nat, end: PluginEnd)
      requires i < |queue| && (end.Threw? ==> IsException(c, end.ex))
      modifies this
      ensures Snap() == AttemptTask(old(Snap()), c, i, end)
    {
      var t := queue[i];
      queue := Without(queue, i);
      var found := Candidates(Intake(releases, nextRelease, queue, log), t.releaseId);
      assert found == Candidates(old(Snap()), t.releaseId);
      if found == {} {
        return;
      }
      var k :| k in found;
      if found != {k} {
        return;
      }
      log := log + [PluginRun(k, t.releaseId, releases[k].status)];
      releases := releases[k := releases[k].(status := end.status)];
      if end.Threw? && end.handled {
        var _, retry := Dispatch(c, end.ex);
        if retry && t.retries < MAX_RETRIES {
          queue := queue + [t.(retries := t.retries + 1)];
        }
      }
    }
  }
}
