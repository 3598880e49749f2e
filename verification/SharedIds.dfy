/** A run from an empty installation in which two providers announce releases under one id, and a release is handed to
    the plugin eleven times. */
module SharedIds {
  import opened Domain
  import opened Tables
  import opened Provider
  import opened SyncSpec
  import opened EnableSpec
  import opened Convergence
  import opened HookInvariants
  import opened Handlers
  import opened Releases
  import opened ReleaseInvariants
  import opened System
  import opened ReleaseRuns

  const GH := "github"
  const GL := "gitlab"

  /** A remote on which user 1 administers one repository, without any hooks. */
  function Fresh(id: string): World {
    World("example.org", map[], map[1 := [GenericRepository(id, "org/repo", "main", None, None)]], map[],
          map[(1, id) := Full], map[], 0)
  }

  const START := State(Db(map[], {}, map[], map[], 0), map[GH := Fresh("1"), GL := Fresh("2")],
                       Intake(map[], 0, [], []))

  // ---------- registering and enabling ----------

  function Setup(p: string, id: string): seq<Step> {
    [On(p, SyncOp(1, 0)), On(p, EnableOp(1, id, None, true, true))]
  }

  lemma FreshRemote(id: string)
    ensures CleanRemote(Fresh(id)) && OneHook(Fresh(id))
  {
    assert forall r :: HooksOf(Fresh(id), r) == map[];
  }

  lemma Registers(db: Db, p: string, id: string) returns (row: nat)
    requires Valid(db) && forall k :: k in db.repos ==> db.repos[k].provider != p
    ensures var d := Sync(db, p, 1, Listing(Fresh(id), 1), 0);
      Valid(d) && OnlyProvider(db, d, p) && AvailableRow(d, p, 1, id) == Some(row)
  {
    var xs := Listing(Fresh(id), 1);
    var d := Sync(db, p, 1, xs, 0);
    SyncActs(db, p, 1, xs, 0);
    SyncRefines(db, p, 1, xs, 0);
    assert xs[0] in xs && xs[0].id == id;
    row := Lookup(d, p, id).value;
    assert (row, 1) in d.assoc;
  }

  lemma Enables(d: Db, p: string, id: string, row: nat)
    requires Valid(d) && AvailableRow(d, p, 1, id) == Some(row)
    ensures var e := Enable(d, Fresh(id), 1, p, id, None, true).db;
      Valid(e) && OnlyProvider(d, e, p) && HasKey(e, row, p, id) && e.repos[row].Enabled()
  {
    FreshRemote(id);
    EnableActs(d, Fresh(id), 1, p, id, None, true);
    var k, n := EnableEstablishes(d, Fresh(id), 1, p, id, None, true);
  }

  lemma SetupSteps(s: State, c: Config, p: string, id: string)
    requires p in s.worlds && s.worlds[p] == Fresh(id)
    ensures var e := Enable(Sync(s.db, p, 1, Listing(Fresh(id), 1), 0), Fresh(id), 1, p, id, None, true);
      StateAfter(s, c, Setup(p, id)) == s.(db := e.db, worlds := s.worlds[p := e.world])
  {
    var ts := Setup(p, id);
    assert ts == [ts[0]] + [ts[1]];
    StateAfterAppend(s, c, [ts[0]], [ts[1]]);
    StateAfterOne(s, c, ts[0]);
    StateAfterOne(Next(s, c, ts[0]), c, ts[1]);
    assert s.worlds[p := Fresh(id)] == s.worlds;
  }

  /** After its setup, the repository of provider p is registered and enabled, and other providers' rows and remotes are
      as they were. */
  lemma SetupEnables(s: State, c: Config, p: string, id: string) returns (row: nat)
    requires Valid(s.db) && p in s.worlds && s.worlds[p] == Fresh(id)
    requires forall k :: k in s.db.repos ==> s.db.repos[k].provider != p
    ensures var z := StateAfter(s, c, Setup(p, id));
      && Valid(z.db) && z.intake == s.intake
      && (forall q :: q in s.worlds && q != p ==> q in z.worlds && z.worlds[q] == s.worlds[q])
      && HasKey(z.db, row, p, id) && z.db.repos[row].Enabled()
      && (forall k :: k in s.db.repos ==> k in z.db.repos && z.db.repos[k] == s.db.repos[k])
      && (forall k :: k in z.db.repos && k !in s.db.repos ==> z.db.repos[k].provider == p)
  {
    var d := Sync(s.db, p, 1, Listing(Fresh(id), 1), 0);
    row := Registers(s.db, p, id);
    Enables(d, p, id, row);
    SetupSteps(s, c, p, id);
  }

  // ---------- deliveries and attempts ----------

  function Announcement(id: string): Payload {
    Payload(Some("published"), false, "7", id, "v1")
  }

  lemma Delivered(s: State, p: string, id: string, row: nat)
    requires Valid(s.db) && HasKey(s.db, row, p, id) && s.db.repos[row].Enabled()
    requires forall k :: k in s.intake.releases ==> s.intake.releases[k].provider != p
    ensures Deliver(s.intake, s.db, p, Announcement(id)).0
      == s.intake.(releases := s.intake.releases[s.intake.nextRelease := Release(p, "7", "v1", row, Received)],
                   nextRelease := s.intake.nextRelease + 1, queue := s.intake.queue + [Task(p, "7", 0)])
  {
    assert Lookup(s.db, p, id) == Some(row);
  }

  /** GitHub's plugin run throws an error to be retried, after it published the release. */
  lemma PublishedWithRetry(x: Intake, c: Config, ex: string, row: nat)
    requires x == Intake(map[0 := Release(GH, "7", "v1", row, Received)], 1, [Task(GH, "7", 0)], []) && Retried(c, ex)
    ensures AttemptTask(x, c, 0, Threw(ex, Published, true))
      == Intake(map[0 := Release(GH, "7", "v1", row, Published)], 1, [Task(GH, "7", 1)],
                [PluginRun(0, "7", Received)])
  {
    OnlyCandidate(x, "7", 0);
    assert Candidates(x, "7") == {0};
  }

  lemma ElevenLeft()
    ensures Budget(true, [Task(GH, "7", 1), Task(GL, "7", 0)], "7") == 11
  {
    var q := [Task(GH, "7", 1), Task(GL, "7", 0)];
    assert q[..1] == [Task(GH, "7", 1)] && q[..1][..0] == [];
    assert Budget(true, q[..1], "7") == 5;
  }

  function Until(): seq<Step> {
    Setup(GH, "1") + Setup(GL, "2")
  }

  /** Both repositories registered and enabled. */
  lemma BothEnabled(c: Config) returns (a: nat, b: nat)
    ensures var z := StateAfter(START, c, Until());
      && Valid(z.db) && z.intake == START.intake
      && HasKey(z.db, a, GH, "1") && z.db.repos[a].Enabled() && HasKey(z.db, b, GL, "2") && z.db.repos[b].Enabled()
  {
    a := SetupEnables(START, c, GH, "1");
    var mid := StateAfter(START, c, Setup(GH, "1"));
    b := SetupEnables(mid, c, GL, "2");
    StateAfterAppend(START, c, Setup(GH, "1"), Setup(GL, "2"));
  }

  function Intakes(ex: string): seq<Step> {
    [DeliveryStep(GH, Announcement("1"))] + [ReleaseStep(0, Threw(ex, Published, true))]
    + [DeliveryStep(GL, Announcement("2"))]
  }

  lemma ThreeSteps(s: State, c: Config, a: Step, b: Step, d: Step)
    ensures StateAfter(s, c, [a] + [b] + [d]) == Next(Next(Next(s, c, a), c, b), c, d)
  {
    StateAfterAppend(s, c, [a] + [b], [d]);
    StateAfterAppend(s, c, [a], [b]);
    StateAfterOne(s, c, a);
    StateAfterOne(Next(s, c, a), c, b);
    StateAfterOne(Next(Next(s, c, a), c, b), c, d);
  }

  function Waiting(a: nat, b: nat): Intake {
    Intake(map[0 := Release(GH, "7", "v1", a, Published), 1 := Release(GL, "7", "v1", b, Received)], 2,
           [Task(GH, "7", 1), Task(GL, "7", 0)], [PluginRun(0, "7", Received)])
  }

  lemma BothAnnounced(s: State, c: Config, ex: string, a: nat, b: nat)
    requires Valid(s.db) && s.intake == START.intake && Retried(c, ex)
    requires HasKey(s.db, a, GH, "1") && s.db.repos[a].Enabled() && HasKey(s.db, b, GL, "2") && s.db.repos[b].Enabled()
    ensures var ts := Intakes(ex); Next(Next(Next(s, c, ts[0]), c, ts[1]), c, ts[2]).intake == Waiting(a, b)
  {
    var ts := Intakes(ex);
    var s1 := Next(s, c, ts[0]);
    Delivered(s, GH, "1", a);
    assert s1.intake == Intake(map[0 := Release(GH, "7", "v1", a, Received)], 1, [Task(GH, "7", 0)], []);
    PublishedWithRetry(s1.intake, c, ex, a);
    Delivered(Next(s1, c, ts[1]), GL, "2", b);
  }

  /** GitHub's release is published, its task waits for a retry, and GitLab's release has just been received. */
  lemma BothReceived(c: Config, ex: string) returns (a: nat, b: nat)
    requires Retried(c, ex)
    ensures StateAfter(START, c, Until() + Intakes(ex)).intake == Waiting(a, b)
  {
    a, b := BothEnabled(c);
    var s, ts := StateAfter(START, c, Until()), Intakes(ex);
    BothAnnounced(s, c, ex, a, b);
    StateAfterAppend(START, c, Until(), ts);
    ThreeSteps(s, c, ts[0], ts[1], ts[2]);
    assert ts == [ts[0]] + [ts[1]] + [ts[2]];
  }

  /** Six runs for one row are not the limit: from an empty installation, GitLab's release is run eleven times, six
      times for its own task and five for GitHub's, whose release was published before GitLab's was announced. */
  lemma ElevenRuns(c: Config, ex: string) returns (ts: seq<Step>)
    requires Retried(c, ex)
    ensures Initial(START)
    ensures var x := StateAfter(START, c, Until() + Intakes(ex)).intake;
      && x.releases.Keys == {0, 1} && x.releases[0].provider == GH && x.releases[1].provider == GL
      && x.releases[0].status == Published && RunsOfRow(x.log, 1) == 0
    ensures AttemptsFor(StateAfter(START, c, Until() + Intakes(ex)), c, ts, "7")
    ensures RunsOfRow(StateAfter(START, c, Until() + Intakes(ex) + ts).intake.log, 1) == 11
  {
    FreshRemote("1");
    FreshRemote("2");
    var a, b := BothReceived(c, ex);
    var s := StateAfter(START, c, Until() + Intakes(ex));
    assert s.intake.log[..0] == [];
    ElevenLeft();
    assert OnlyPending(s.intake, "7", 1);
    assert Again(c);
    ts := BoundAttained(s, c, "7", 1, 11);
    StateAfterAppend(START, c, Until() + Intakes(ex), ts);
  }
}
