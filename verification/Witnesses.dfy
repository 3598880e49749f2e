/** Concrete inputs on which a property that one might expect does not hold. The exact conditions are proved where
    the operations are. */
module Witnesses {
  import opened Domain
  import opened Tables
  import opened Provider
  import opened SyncSpec
  import opened EnableSpec
  import opened HookInvariants
  import opened Rounds
  import opened Disconnect
  import Handlers
  import Interplay
  import Releases
  import ReleaseInvariants
  import Migration
  import MigrationProofs

  const GH := "github"
  const KNOWN := Repo(GH, "1", "org/old", "main", None, None, None, None)
  const LISTED := GenericRepository("1", "org/new", "main", None, None)

  /** User 1 registered repository "1", and user 2 has just been given access to it, under its new name. */
  const TABLES := Db(map[0 := KNOWN], {(0, 1)}, map[(GH, "10") := 1, (GH, "20") := 2], map[], 1)
  const REMOTE := World("example.org", map[], map[2 := [LISTED]], map["1" := ["10", "20"]],
                        map[(1, "1") := Full, (2, "1") := Full], map[], 0)

  /** One round is not enough: user 2 gets the repository, but it still shows the old name. */
  lemma OneRoundShowsOldName()
    ensures Valid(TABLES) && Contract(TABLES, REMOTE, GH, 2, "20")
    ensures CoversMembers(REMOTE, 2, [MemberStep(2, "1")])
    ensures var after := Round(TABLES, REMOTE, GH, 2, 0, [MemberStep(2, "1")]);
      exists id :: Lookup(after, GH, "1") == Some(id) && !after.repos[id].Shows(LISTED)
  {
    var ts := [MemberStep(2, "1")];
    assert REMOTE.admins["1"][1] == "20";
    assert Ids(Listing(REMOTE, 2)) == ["1"];
    assert Find([LISTED], "1") == Some(LISTED);
    assert HasKey(TABLES, 0, GH, "1");
    var id := OneRoundMetadata(TABLES, REMOTE, GH, 2, "20", 0, ts, "1");
  }

  /** The same repository, enabled under hook 5, which user 1 can see and user 2 cannot. */
  const ENABLED := KNOWN.(hook := Some(Digits(5)), enabledBy := Some(1))
  const HOOKED := Db(map[0 := ENABLED], {(0, 1), (0, 2)}, map[], map[], 1)
  const SEEN := World("example.org", map[], map[], map[], map[(1, "1") := Full],
                      map["1" := map[5 := Some(Url("example.org", "token"))]], 6)

  /** A hook of ours can exist on a repository that is not enabled: user 2's hook sync disabled it. */
  lemma HookWithoutEnabledRow()
    ensures Valid(HOOKED) && OneHook(SEEN) && LiveHooks(HOOKED, SEEN, GH)
    ensures exists d :: HookSync(HOOKED, SEEN, 2, GH, "1") == Ok(d) && !d.repos[0].Enabled() && Ours(SEEN, "1", 5)
  {
    assert forall r, n :: n in HooksOf(SEEN, r) ==> r == "1" && n == 5;
    assert HasKey(HOOKED, 0, GH, "1") && Ours(SEEN, "1", 5);
    HiddenUserUnlinks(HOOKED, SEEN, GH, "1", 0, 5, 2, 1);
  }

  /** The remote after a disable by user 1 whose changes to the tables are lost. */
  const DELETED := AfterDelete(SEEN, "1", 5)

  lemma LostDisable()
    ensures Disable(HOOKED, SEEN, 1, GH, "1", None, true).world == DELETED
    ensures OneHook(DELETED) && (forall n :: !Ours(DELETED, "1", n)) && !LiveHooks(HOOKED, DELETED, GH)
  {
    HookWithoutEnabledRow();
    NeverMultiple(SEEN, 1, "1");
    assert HasKey(HOOKED, 0, GH, "1") && Ours(SEEN, "1", 5);
    DeleteOurs(SEEN, "1", 5);
    DisableKeeps(HOOKED, SEEN, 1, GH, "1", None, true);
    UncommittedDisable(HOOKED, SEEN, 1, GH, "1", None, true);
    assert Removes(SEEN, 1, "1", None, true, 5) && Named(HOOKED, GH, "1", 5);
  }

  lemma LostEnable()
    ensures var created := Enable(HOOKED, DELETED, 1, GH, "1", None, true).world;
      OneHook(created) && Ours(created, "1", 6) && ReachOf(created, 1, "1").Full?
  {
    LostDisable();
    HookWithoutEnabledRow();
    assert HasKey(HOOKED, 0, GH, "1");
    NeverMultiple(DELETED, 1, "1");
    CreateOurs(DELETED, 1, "1");
    EnableKeeps(HOOKED, DELETED, 1, GH, "1", None, true);
    assert Enable(HOOKED, DELETED, 1, GH, "1", None, true).world == AfterCreate(DELETED, 1, "1");
  }

  /** A disable whose changes to the tables are lost leaves an enabled row without its hook; a later enable that
      is lost too leaves it under a stale id, which a hook sync does not repair. */
  lemma StaleHookId()
    ensures var deleted := Disable(HOOKED, SEEN, 1, GH, "1", None, true).world;
      var created := Enable(HOOKED, deleted, 1, GH, "1", None, true).world;
      && !LiveHooks(HOOKED, deleted, GH)
      && Ours(created, "1", 6) && HookSync(HOOKED, created, 1, GH, "1") == Ok(HOOKED)
  {
    LostDisable();
    LostEnable();
    NeverMultiple(Enable(HOOKED, DELETED, 1, GH, "1", None, true).world, 1, "1");
    HookWithoutEnabledRow();
    assert HasKey(HOOKED, 0, GH, "1") && WithRow(HOOKED, 0, ENABLED) == HOOKED;
  }

  /** The token is revoked while the captured hook stays: when user 2 disconnects, whose token does not reach the
      hooks, and when user 1 does and the remote refuses to delete the hook. */
  lemma RevokedWithHookLeft()
    ensures LeavesHook(2, Weather({}, {})) && LeavesHook(1, Weather({}, {"1"}))
  {
    StillThere(2, Weather({}, {}));
    StillThere(1, Weather({}, {"1"}));
  }

  /** u's disconnect captures hook 5, and a cleanup straight after it revokes the token and leaves hook 5. */
  ghost predicate LeavesHook(u: nat, x: Weather) {
    var list := [("1", Digits(5))];
    var clean := Clean(AfterHandler(HOOKED, GH, u, None), SEEN, u, GH, list, x);
    Captures(HOOKED, GH, u, list) && clean.revoked && Ours(clean.world, "1", 5)
  }

  lemma StillThere(u: nat, x: Weather)
    requires u in {1, 2} && x.outage == {} && !Granted(SEEN, u, x, "1")
    ensures LeavesHook(u, x)
  {
    var list, d := [("1", Digits(5))], AfterHandler(HOOKED, GH, u, None);
    assert CapturedFrom(HOOKED, GH, u, list[0], 0);
    assert HasKey(d, 0, GH, "1") && Lookup(d, GH, "1") == Some(0);
    CleanExactly(d, SEEN, u, GH, list, x);
    assert Walkable(d, SEEN, u, GH, list[0], x) && list[1..] == [];
    assert Ours(SEEN, "1", 5) && !Deletes(SEEN, u, list[..1], x, "1", 5);
  }

  /** Two providers announced releases with one id; both rows and both tasks wait. */
  const SHARED := Releases.Intake(
    map[0 := Releases.Release(GH, "7", "v1", 0, Releases.Received),
        1 := Releases.Release("gitlab", "7", "v1", 1, Releases.Received)],
    2, [Releases.Task(GH, "7", 0), Releases.Task("gitlab", "7", 0)], [])

  /** Neither of the two releases is ever processed: both tasks end without a run. */
  lemma SharedReleaseIdStarves(c: Handlers.Config, end: Releases.PluginEnd, end': Releases.PluginEnd)
    ensures ReleaseInvariants.RowsOk(SHARED) && ReleaseInvariants.TasksOk(SHARED)
    ensures var first := Releases.AttemptTask(SHARED, c, 0, end);
      && |first.queue| == 1 && Releases.AttemptTask(first, c, 0, end') == SHARED.(queue := [])
  {
    assert SHARED.releases[0].provider == GH && SHARED.releases[1].provider == "gitlab";
    ReleaseInvariants.SharedIdIsStuck(SHARED, c, 0, end, 0, 1);
    var first := Releases.AttemptTask(SHARED, c, 0, end);
    ReleaseInvariants.SharedIdIsStuck(first, c, 0, end', 0, 1);
  }

  /** Two old rows without a github id: the first one's primary key is lost, and a release that refers to it would
      refer to nothing. */
  lemma NullGithubIdsLoseARow()
    ensures var a := Migration.OldRepo(0, None, "org/a", None, None);
      var b := Migration.OldRepo(1, None, "org/b", None, None);
      var os := [a, b];
      !MigrationProofs.HasId(Migration.AdoptAll(Migration.Table([], 2), os).rows, 0)
  {
    var os := [Migration.OldRepo(0, None, "org/a", None, None), Migration.OldRepo(1, None, "org/b", None, None)];
    MigrationProofs.OldIdSurvives(Migration.Table([], 2), os, 0);
    assert MigrationProofs.LastOld(os, "None") == Some(os[1]);
  }

  /** A disabled old repository that some account lists comes out enabled. */
  lemma NullHookComesOutEnabled()
    ensures var t := Migration.Table([], 1);
      var es := [("1", Migration.Meta("org/a", "main", None))];
      var os := [Migration.OldRepo(0, Some("1"), "org/a", None, None)];
      exists k :: 0 <= k < |Migration.AdoptAll(Migration.UpsertAll(t, es), os).rows|
        && Migration.AdoptAll(Migration.UpsertAll(t, es), os).rows[k].id == 0
        && Migration.AdoptAll(Migration.UpsertAll(t, es), os).rows[k].repo.Enabled()
  {
    var t := Migration.Table([], 1);
    var es := [("1", Migration.Meta("org/a", "main", None))];
    var os := [Migration.OldRepo(0, Some("1"), "org/a", None, None)];
    MigrationProofs.RepositoriesMigrated(t, es, os, {});
    assert MigrationProofs.LastMeta(es, "1").Some?;
    var rows := Migration.AdoptAll(Migration.UpsertAll(t, es), os).rows;
    var k :| 0 <= k < |rows| && MigrationProofs.Matches(t, es, os[0], rows[k]);
  }

  /** What the migration makes of an old row without hook and user whose repository some account listed, and the
      association that the first sync after it creates. */
  const MIGRATED := Db(map[0 := Repo(GH, "1", "org/a", "main", None, Some(Other("None")), None, None)],
                       {(0, 1)}, map[], map[], 1)

  /** Such tables are valid but not well-formed, and when the user disconnects, the cleanup never gets to revoke the
      token, as long as the user's token reaches the repository. */
  lemma MigratedDisconnectNeverEnds(w: World, x: Weather)
    requires ReachOf(w, 1, "1").Full?
    ensures Valid(MIGRATED) && !RowsWellFormed(MIGRATED)
    ensures var list := [("1", Other("None"))];
      Captures(MIGRATED, GH, 1, list) && !Clean(AfterHandler(MIGRATED, GH, 1, None), w, 1, GH, list, x).revoked
  {
    var list := [("1", Other("None"))];
    assert !MIGRATED.repos[0].WellFormed();
    assert CapturedFrom(MIGRATED, GH, 1, list[0], 0);
    var o := Migration.OldRepo(0, Some("1"), "org/a", None, None);
    Interplay.MigratedNullHookBlocksCleanup(MIGRATED, GH, 1, list, 0, o, Migration.Row(0, MIGRATED.repos[0]),
                                            AfterHandler(MIGRATED, GH, 1, None), w, x);
  }
}
