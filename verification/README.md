# A verified model of invenio-vcs: synchronisation, webhooks, releases and migration

The project models the state that the `invenio_vcs` package keeps on both sides of its integration with a version
control service, and proves what whole runs of its operations do to that state.

- **Local side** (`Tables.dfy`): repository rows, the user-repository association table, linked external identities,
  the time of each user's last sync. `Valid` is what the tables' constraints guarantee: (provider, provider id) is
  unique, primary keys are not reused, associations refer to existing rows. That a hook and an enabler come and go
  together, and that only enabled rows carry a community, is no constraint (`RowsWellFormed`): the service's operations
  make and keep rows like that, while the migration also writes others. No result about valid tables assumes it.
- **Remote side** (`Provider.dfy`): listings per user, admin lists per repository, what each user's token reaches, and
  the webhooks of every repository with the URL they call. The hook operations have GitHub's semantics.
- **Release queue** (`Releases.dfy`): release rows, queued tasks with their retry counts, and a log of the plugin's runs.

The operations are classes and methods with the loops of the source. Each is proved equal to a function on values
(`SyncSpec.dfy`, `EnableSpec.dfy`, `Releases.Deliver`, `Releases.AttemptTask`, `Disconnect.Clean`, `Migration.UpsertAll`,
`Migration.AdoptAll`). The theorems are about those functions: one call against a specification without loops, and then
runs of any length.

| file | content |
|---|---|
| `Domain`, `Tables`, `Provider` | the values, the tables, the remote, and their row and hook operations |
| `SyncSpec`, `Service`, `Batches` | `VCSService` and the two batch tasks; how a sync slices its work |
| `Convergence`, `Rounds`, `Confluence`, `Interplay` | one sync against a relation; rounds; order, repetition and retries of tasks; results that cross components |
| `EnableSpec`, `HookInvariants`, `HostHooks`, `Disconnect` | enabling, disabling, hook sync and disconnecting, one call at a time; all their answers and effects by columns and hosts |
| `TaskEffects` | what an attempt at a batch task does and where it ends, by columns |
| `Handlers`, `Releases`, `ReleaseInvariants` | error handlers, deliveries, attempts and retries |
| `System`, `SystemConvergence` | all of it as one state machine over any number of providers; what every run keeps; convergence inside runs |
| `OwnedHooks`, `Unlinked` | when every hook is on an enabled repository; what a disconnected user cannot get back |
| `Migration`, `MigrationProofs` | the two passes that fill the new repository table |
| `Refresh` | the periodic refresh of accounts |
| `ReleaseRuns` | the exact limit on the plugin runs of a release |
| `SharedIds`, `Witnesses` | concrete runs and inputs on which an expected property fails |

Main results, in words:

1. A sync refines a relation that mentions no loop. After a sync and its members tasks, a user's repositories are
   exactly the listed ones, with any other users' batch tasks in between (`Rounds.AssociationsConverge`), and with any
   steps of any users at any provider in between (`SystemConvergence.ConvergesInRuns`). The tasks that a sync
   dispatches do not block, right after it and in any later state of such runs (`Interplay.DispatchedNeverBlocks`).
2. One round does not always refresh names, branches and descriptions (the exact condition is
   `Rounds.OneRoundMetadata`); two rounds do, also inside runs (`SystemConvergence.RefreshedInRuns`), and a third
   changes only the time of the last sync.
3. Runs of batch tasks have a closed form that depends only on the set of executed steps, which gives confluence,
   repeatability and retry transparency; with hook steps of several users who see the same it holds up to the enabler
   of newly enabled rows (`Confluence.ConfluentButEnabler`). Whether a batch can ever complete is decided by the tables
   it starts from. What any attempt at a task leaves in the columns, and the repository at which it ends, is known
   exactly (`TaskEffects.HookTaskFollowsHooks`, `MembersTaskFollowsAdmins` and `AttemptEndsAt`).
4. In no run does a repository carry two hooks of this instance. Enabled rows name hooks that exist, in every state of
   a run, exactly when no step deletes a hook that a row goes on naming (`System.RunLive`); hooks of this instance are on
   enabled repositories only, in every state of a run, exactly when every step is tidy (`OwnedHooks.RunOwned`). When
   disabling undoes enabling is known exactly, and so is every answer of an enable, a disable and a hook sync by the
   hosts that the hooks call; a hook that calls another host goes away only when a disable names it
   (`HostHooks.EnableByHost`, `DisableByHost`, `DisableOthers` and `HookSyncByHost`).
5. One row and one queued task per (provider, release id) at any number of providers, and a plugin run only for a row
   that is RECEIVED or FAILED. How often a release can still be run, over any continuation, is known exactly in
   every state (`ReleaseRuns.RunsLeftExactly`), and at its acceptance (`ReleaseRuns.RunsExactly`): never, if another row
   with its id is pending; otherwise once for every attempt of its own task (six, or one if no exception is retried)
   and for every attempt that other providers' tasks have left for the id. From an empty installation that is at most
   five times for each row with the id and once (`ReleaseRuns.ReleasesInRuns`), and eleven times for two rows is
   reached (`SharedIds.ElevenRuns`).
6. The remote after any cleanup attempt is known exactly (`Disconnect.CleanExactly`): the token can be revoked with
   captured hooks left (`Disconnect.RevokedAndGone` has the condition), and a cleanup can delete the hook of a row that
   another user enabled again (`Disconnect.CleanupBreaksLink`). A hook whose deletion was granted is gone in every
   continuation, with anything in between (`System.DisconnectedForGood`).
7. The migration keeps every old primary key whose GitHub id is not repeated, so release references resolve; null
   columns are followed to where they end up. Migrated tables are valid (`Interplay.MigratedTablesAreValid`), so
   what is proved of valid tables holds from the first sync after a migration on; results that start from live hooks
   do not apply while a row has the hook "None". Both this and the exact condition for migrated tables to be
   well-formed (`MigrationProofs.MigratedWellFormed`) also cover GitHub ids that repeat or are null.

Where the code and its documentation or intention differ, the model follows the code:

- `delete_webhook` is documented to delete every matching hook (providers.py:427-438). GitHub's deletes at most one, and
  several matching hooks make it raise (github.py:337-350).
- `process_release` is called with a provider but selects by release id and status only (tasks.py:131-134), so it can
  run the plugin on another provider's row (`ReleaseInvariants.SharedIdRunsForeignRow`), and two rows with one id that
  are pending together are never run again (`System.StuckForever`).
- The migration's comment says that only enabled or formerly enabled rows are left for the second pass. It writes
  `str(hook)` over an existing row, so a disabled old repository that an account listed comes out enabled, under the
  hook "None" (migrate_github_to_vcs.py:231-241), and without an enabler if the old row had no user; a later
  disconnect by a user who has the repository then cannot finish (`Interplay.MigratedNullHookBlocksCleanup`). Its claim
  of referential integrity (lines 256-257) fails for old rows with one GitHub id, two nulls among them
  (`MigrationProofs.OldIdSurvives`).
- The sync note says that the remote's information overwrites the local one (service.py:192-196). Repositories that the
  database has through another user are not refreshed (service.py:203-216, 237), and a hook sync does not repair a
  stored hook id (service.py:356-359).
- The disconnect handler unlinks the account before the cleanup task runs. A members task of another user in between
  removes the association that the cleanup relies on, and the token is then never revoked
  (`Unlinked.UnlinkedUserLosesCleanup`). A hook sync of another user in between enables the row again, under the hook
  that the cleanup then deletes (`Interplay.ReenabledRowLosesHook`).
- The cleanup task says that the token is revoked after the clean-up finished successfully (tasks.py:73-74). The answer
  of each deletion is only logged (tasks.py:66-71), so it is revoked as well when a repository was hidden or a deletion
  refused (`Witnesses.RevokedWithHookLeft`).
- Enabling takes an existing hook for updated whatever the remote answers to the edit (github.py:363-364), so the hook
  may go on calling another user's receiver.

## Model

| member | source | states |
|---|---|---|
| Domain.FindsLast | invenio_vcs/service.py:211-216 | the look-up in a listing finds the last entry under the key, as in a dict |
| Tables.Lookup | invenio_vcs/models.py:201-211 | the row found has the key; if none is found, no row has it; under the unique constraint it is the only row with the key |
| Tables.Database.Get | invenio_vcs/models.py:201-211 | the search agrees with `Lookup` |
| Tables.Database.GetAvailable | invenio_vcs/service.py:78-83 | the row of the key, if it is associated with the user |
| Tables.Database.Create | invenio_vcs/models.py:158-178 | one new row under an unused key |
| Tables.Database.AddUser | invenio_vcs/models.py:180-186 | succeeds exactly when the pair was absent; a second insertion is an IntegrityError |
| Tables.Database.RemoveUser | invenio_vcs/models.py:188-193 | removes exactly that pair |
| Tables.Database.UpdateModel | invenio_vcs/generic_models.py:60-68 | the column-by-column comparison ends with name, branch and description of the remote and no other column changed |
| Provider.ConfiguredWebhook | invenio_vcs/providers.py:343-361 | a found hook is ours; none found means that none exists, for a user who sees the hooks; MultipleWebhooksError exactly when two of ours exist and can be seen (which hooks are ours: `HostHooks.ConfiguredByHost`) |
| Provider.Remote.ListWebhooks | invenio_vcs/contrib/github.py:245-261 | every hook exactly once in some order, None or an access error by reach |
| Provider.Remote.GetConfiguredWebhook | invenio_vcs/providers.py:301-361 | the scan, in whatever order the hooks come, gives the answer that is defined without a scan |
| Provider.Remote.CreateWebhook | invenio_vcs/contrib/github.py:318-327 | adds one hook that calls the user's receiver, or changes nothing |
| Provider.Remote.UpdateWebhook | invenio_vcs/contrib/github.py:352-364 | True for an existing hook whether or not the remote accepts the edit, and the URL rewritten only if it does; False for a hidden repository; an assertion fails when the hook is gone |
| Provider.Remote.DeleteWebhook | invenio_vcs/contrib/github.py:329-350 | all branches of a deletion: hidden, named hook, non-numeric hook, absent hook, configured hook, refused request |
| SyncSpec.CreateMissingValid | invenio_vcs/service.py:228-250 | creating the missing rows keeps keys unique, ids unused before and references intact |
| SyncSpec.RunValid | invenio_vcs/tasks.py:80-125 | every run of batch steps keeps the tables valid |
| Service.VCSService.Sync | invenio_vcs/service.py:187-267 | the tables after the transaction, and exactly the tasks queued: hook tasks first, if asked for, then members tasks, one per slice |
| Service.VCSService.RefreshAvailable | invenio_vcs/service.py:202-216 | the first loop refreshes the user's listed rows and no other |
| Service.VCSService.DropUnlisted | invenio_vcs/service.py:218-226 | the delete statement removes exactly the user's associations with unlisted repositories of the provider |
| Service.VCSService.CreateListed | invenio_vcs/service.py:228-250 | the second loop creates a row, and one association, for each listed repository that has none |
| Service.VCSService.DispatchBatches | invenio_vcs/service.py:269-277 | the loop over `range` queues one task per slice, in order |
| Service.VCSService.SyncRepoUsers | invenio_vcs/service.py:279-327 | members become the linked admins, or one of the errors, with the member list loaded once |
| Service.VCSService.LocalUsers | invenio_vcs/service.py:301-312 | the local users behind the external ids, in order |
| Service.VCSService.AddMissing | invenio_vcs/service.py:314-319 | fails exactly when a user outside the loaded members occurs twice; otherwise adds a row for each |
| Service.VCSService.RemoveOthers | invenio_vcs/service.py:321-327 | removes exactly the loaded members that are not remote members |
| Service.VCSService.SyncRepoHook | invenio_vcs/service.py:339-359 | the row after a hook sync, or the error and no change |
| Service.VCSService.MarkRepoDisabled | invenio_vcs/service.py:361-365 | the three columns become null, no other row changes |
| Service.VCSService.MarkRepoEnabled | invenio_vcs/service.py:367-374 | hook and enabler are set, the community only if one is given |
| Service.VCSService.EnableRepository | invenio_vcs/service.py:412-434 | tables, remote and result of all branches |
| Service.VCSService.DisableRepository | invenio_vcs/service.py:436-450 | tables, remote and result of all branches |
| Service.VCSService.RunOne | invenio_vcs/tasks.py:90-99 | a hook step or a members step by the task's kind; a raising iteration leaves the tables as they were |
| Service.VCSService.RunBatch | invenio_vcs/tasks.py:80-125 | the attempt commits exactly the task's steps before the first blocking one (what they do to the columns: `TaskEffects`) |
| Batches.SlicesPartition | invenio_vcs/service.py:264-277 | the slices concatenate to the listed ids, are non-empty, all but the last are a whole batch, and they are ceil(n / size) many |
| Batches.ExactlyOneTask | invenio_vcs/service.py:329-337 | every listed repository is in exactly one task of each kind, made out for the user at the provider, and no other repository is in any |
| Convergence.SyncRefines | invenio_vcs/service.py:198-262 | the transaction refines a relation: listed rows of the user refreshed, unlisted associations gone, unregistered ones created blank with the user, everything else untouched |
| Convergence.CreateMissingCreates | invenio_vcs/service.py:228-250 | every listed repository is registered; each new row is a listed one that was missing, with exactly the user associated |
| Confluence.RunSameRows | invenio_vcs/tasks.py:80-125 | batch steps of any users keep rows, keys, metadata and linked accounts |
| Confluence.RunSettlesMembers | invenio_vcs/tasks.py:105-125 | the members after a run of any users' steps are determined by the set of its steps |
| Confluence.RunSettles | invenio_vcs/tasks.py:80-125 | closed form of a run whose hook steps come from one user: rows and members are determined by the set of its steps |
| Confluence.Confluent | invenio_vcs/tasks.py:89-97 | runs with the same steps, in any order and with any repetitions, end in the same tables |
| Confluence.ConfluentButEnabler | invenio_vcs/service.py:344-359 | hook steps of several users who see the same: equal step sets give equal tables but for the enabler of newly enabled rows |
| Confluence.RetryTransparent | invenio_vcs/tasks.py:86-102 | any series of cut-short attempts followed by a complete one equals the complete one alone |
| Confluence.HookStepsDecideEnabled | invenio_vcs/service.py:339-359 | after any run with a hook step that saw the hooks, the row is enabled exactly when a configured hook exists; a newly enabled row carries that hook and user |
| Confluence.BlocksStable | invenio_vcs/tasks.py:116-125 | running batches does not change which steps raise |
| Confluence.BatchCompletes | invenio_vcs/tasks.py:86-102 | an attempt without outage completes exactly when no step blocks in the starting tables; nothing behind a blocking step is ever processed |
| Confluence.HookSyncsOfTwoUsers | invenio_vcs/service.py:356-359 | hook syncs of two users commute exactly when both see the same and, if a hook, the row is enabled or the users are one |
| Confluence.AttemptsAreARun | invenio_vcs/tasks.py:91-97 | a series of attempts, each committing a prefix, is one run of some of the steps |
| Rounds.ContractAdmins | invenio_vcs/providers.py:390-400 | under the documented listing and admin contract, a user is among the linked admins exactly when the repository is listed for that user, and no members step collides |
| SystemConvergence.OneAccountStep | invenio_vcs/service.py:405-408 | no step gives a user a second account at a provider |
| Rounds.RoundAssociates | invenio_vcs/service.py:187-327 | after a round every listed repository is registered and associated |
| Rounds.AssociationsConverge | invenio_vcs/service.py:187-327 | after a round the user's repositories are exactly the listed ones, whatever other users' hook and members tasks are interleaved |
| Rounds.SyncedIsListed | invenio_vcs/service.py:218-226 | right after a sync the user has no unlisted repository |
| Rounds.NoListingDropsAll | invenio_vcs/service.py:198-226 | a provider that answers no listing costs the user every repository there, and nobody else any; no row changes |
| Rounds.MembersDecided | invenio_vcs/service.py:314-327 | a members step by a user who reaches the repository decides its associations with everyone |
| Rounds.OneRoundMetadata | invenio_vcs/service.py:211-250 | after one round a listed row shows the remote's metadata exactly when it was new, or the user's already, or right already |
| Rounds.TwoRoundsRefresh | invenio_vcs/service.py:211-250 | after two rounds every listed row shows the remote's metadata |
| Rounds.ThirdRoundChangesNothing | invenio_vcs/service.py:187-267 | a third round that repeats steps of the second changes only the time of the last sync |
| Rounds.UpToDateSync | invenio_vcs/service.py:198-262 | a sync of tables that follow the listing changes only the time of the last sync |
| Rounds.RunsAgain | invenio_vcs/tasks.py:80-125 | repeating steps of a run on its result changes nothing |
| HookInvariants.NeverMultiple | invenio_vcs/providers.py:343-361 | with at most one hook of ours the scan never raises and finds exactly the hooks that exist |
| HookInvariants.EnableEstablishes | invenio_vcs/service.py:412-434 | success exactly for an available repository that the token reaches; then exactly one hook of ours, whose id is in the row, calling this user's receiver unless an edit was refused; other columns, rows and hooks unchanged; otherwise no change |
| HookInvariants.EnableKeeps | invenio_vcs/service.py:412-434 | enabling keeps both hook invariants, also when its table changes are lost |
| HookInvariants.DisableKeeps | invenio_vcs/service.py:436-450 | disabling keeps both invariants for any named hook and adds no hook |
| HookInvariants.DisableEstablishes | invenio_vcs/service.py:436-450 | when a disable succeeds, both directions; a success deletes exactly the hook of ours and blanks the row; anything else changes nothing |
| HookInvariants.DisableUndoesEnable | invenio_vcs/service.py:412-450 | what a disable after an enable leaves, and exactly when that is the table and the hooks as before both |
| HookInvariants.LiveUnlessNamed | invenio_vcs/service.py:361-374 | hooks that go away while the tables keep their ids break the link exactly when a row names one of them |
| HookInvariants.UncommittedDisable | invenio_vcs/service.py:446-449 | a disable whose table changes are lost breaks the link exactly when it removes the hook that the row names |
| HookInvariants.HookSyncKeeps | invenio_vcs/service.py:339-359 | a hook sync keeps every stored hook live |
| HookInvariants.HookSyncRepairs | invenio_vcs/service.py:344-359 | for a user who sees the hooks, the row ends enabled exactly when a hook of ours exists; its id is the stored one unless the row was enabled under another |
| HookInvariants.HiddenUserUnlinks | invenio_vcs/service.py:356-359 | a hook sync by a user who sees nothing disables the row; one by a user who sees it enables it again, without its community |
| HostHooks.ConfiguredByHost | invenio_vcs/providers.py:301-361 | a hook is found exactly when it is the only one of a visible repository whose URL has the configured host; two of them raise, none means none; an access error otherwise |
| HostHooks.EnableByHost | invenio_vcs/service.py:412-434 | every answer, both directions; a success takes the only hook that calls the host, or creates one under the next id for the user's token where there is none; hooks that call another host stay |
| HostHooks.DisableByHost | invenio_vcs/service.py:436-450 | every answer, both directions, for a named, a non-numeric and no hook; a success deletes the wanted hook if it exists and blanks the row |
| HostHooks.DisableOthers | invenio_vcs/contrib/github.py:329-350 | a disable takes away a hook that calls another host exactly when it succeeds for that hook's id |
| HostHooks.HookSyncByHost | invenio_vcs/service.py:339-359 | every answer, both directions; an enabled row without a visible hook of the host is blanked, a disabled row with one is enabled under it for the user, any other row stays |
| TaskEffects.HookTaskFollowsHooks | invenio_vcs/tasks.py:80-102 | any attempt at a hook task: exactly the rows of the repositories got through, where the hooks can be read, follow them, and nothing else changes |
| TaskEffects.MembersTaskFollowsAdmins | invenio_vcs/tasks.py:105-125 | any attempt at a members task: exactly the repositories got through that are visible and without colliding insertions have the linked admins as members, and nothing else changes |
| TaskEffects.MembersSyncAnswers | invenio_vcs/service.py:279-327 | every answer of a members sync, both directions; a hidden repository changes nothing |
| TaskEffects.AttemptEndsAt | invenio_vcs/tasks.py:86-125 | an attempt ends at the first repository whose calls fail, or that is unregistered, has two hooks of the host or colliding insertions; missing access ends none |
| Handlers.Dispatch | invenio_vcs/tasks.py:144-158 | the loop runs the first matching handler, and its class test decides the retry |
| Handlers.SomeHandlerRuns | invenio_vcs/tasks.py:45-48 | every exception runs a handler |
| Handlers.NoRetryRetried | invenio_vcs/tasks.py:150-158 | an error that asks for no retry is retried exactly when a configured entry for Exception comes before every matching one |
| Handlers.OtherRetried | invenio_vcs/tasks.py:150-158 | any other error is retried exactly when no configured entry for another class claims it first |
| Releases.ReleaseStore.HandleEvent | invenio_vcs/receivers.py:45-57 | irrelevant events change nothing, others are handled |
| Releases.ReleaseStore.HandleCreateRelease | invenio_vcs/receivers.py:59-109 | new row, task and response code of all branches |
| Releases.ReleaseStore.ProcessRelease | invenio_vcs/tasks.py:128-158 | new rows, queue and log of one attempt, for any plugin behaviour |
| ReleaseInvariants.DeliverAccepts | invenio_vcs/receivers.py:66-109 | a delivery adds one row and one task exactly when the action is published or released, it is no draft, its id is new for the provider and the repository is registered and enabled; otherwise nothing changes; when the response is 409, 404 and left alone, both directions |
| ReleaseInvariants.AttemptRunsAndRetries | invenio_vcs/tasks.py:131-158 | the plugin runs, and the run is logged, exactly when one row with the id is RECEIVED or FAILED, and that row alone takes the plugin's status; a retry is queued exactly when it threw a retried error, was handled, and fewer than five were made |
| ReleaseInvariants.NoRetryEndsTheTask | invenio_vcs/tasks.py:45-48 | without a configured Exception entry a no-retry error ends the task |
| ReleaseInvariants.AttemptKeeps | invenio_vcs/tasks.py:128-158 | an attempt keeps uniqueness of rows and tasks, the log of pending rows, and the payment of runs by rows |
| ReleaseInvariants.AttemptSkipsSettled | invenio_vcs/tasks.py:131-134 | an attempt neither runs nor changes a row in PROCESSING, PUBLISHED, DELETED or PUBLISH_PENDING |
| ReleaseInvariants.RunsBounded | invenio_vcs/tasks.py:128-158 | at most six runs per row that has the release id; at most six for a row whose id is not shared |
| ReleaseInvariants.SharedIdIsStuck | invenio_vcs/tasks.py:131-134 | two pending rows with one id: an attempt for it is dropped without a run and without a retry |
| ReleaseInvariants.SharedIdRunsForeignRow | invenio_vcs/tasks.py:131-134 | with one of them pending, either provider's task runs it |
| Disconnect.DisconnectHandler | invenio_vcs/oauth/handlers.py:44-92 | one account of the user is unlinked, the rows with hooks are blanked, those whose hook is not empty captured with it |
| Disconnect.ForgetHooks | invenio_vcs/oauth/handlers.py:69-75 | the loop captures exactly the enabled repositories and blanks exactly those with a hook |
| Disconnect.DisconnectProvider | invenio_vcs/tasks.py:51-77 | remote effects of one attempt, and whether the token was revoked |
| Disconnect.DisableAll | invenio_vcs/tasks.py:66-74 | the walk over the captured hooks, ended by the first exception |
| Disconnect.RevokedWhenWalked | invenio_vcs/tasks.py:66-74 | the token is revoked exactly when every entry is still available, reachable without an error, and, where visible, numeric |
| Disconnect.CleanExactly | invenio_vcs/tasks.py:66-74 | after any attempt, complete or not, exactly the captured hooks of the entries walked over, visible and not refused, are gone, and everything else is as it was |
| Disconnect.RevokedAndGone | invenio_vcs/tasks.py:66-74 | after a revocation all captured hooks are gone exactly if each that existed was visible and its deletion not refused |
| Disconnect.CleanupBreaksLink | invenio_vcs/tasks.py:63-74 | an attempt leaves an enabled row without its hook exactly when it deletes a hook that a row names |
| Disconnect.HandlerForgets | invenio_vcs/oauth/handlers.py:50-92 | exactly the user's rows with a hook lose hook, enabler and community, the account is unlinked and the user's last sync dropped, nothing else changes; stored hooks stay live |
| System.DisconnectUndoesConnect | invenio_vcs/service.py:376-410 | an account of nobody's is linked to a user without one, and can be disconnected again, which restores the tables exactly when the user had no last sync and no row with a hook there |
| System.RunInv | invenio_vcs/service.py:187-450 | the invariant of every run of all steps by all users at all providers |
| System.RunWellFormed | invenio_vcs/service.py:361-374 | in every run, new rows are well-formed and well-formed rows stay so, whatever the other rows are like |
| System.WellFormedInRuns | invenio_vcs/service.py:361-374 | from an empty installation a hook and an enabler come and go together and only enabled rows carry a community |
| System.NeverMultipleInRuns | invenio_vcs/providers.py:354-361 | in no run does anyone meet two hooks of ours |
| System.RunLive | invenio_vcs/service.py:339-450 | every state of a run has all its stored hooks live exactly when no step deletes a hook that a row goes on naming |
| OwnedHooks.ActOwned | invenio_vcs/service.py:339-450 | for every operation, hooks of ours stay on enabled repositories only exactly when it is tidy |
| OwnedHooks.RunOwned | invenio_vcs/service.py:339-450 | every state of a run has hooks of ours on enabled repositories only exactly when every step is tidy |
| System.GoneForever | invenio_vcs/contrib/github.py:318-350 | a deleted hook never comes back |
| System.CleanupIsItsCalls | invenio_vcs/tasks.py:66-71 | a cleanup attempt is the sequence of its calls, each an uncommitted disable; other steps may come between them |
| System.DisconnectedForGood | invenio_vcs/tasks.py:51-77 | capture, any steps, the call for one captured hook while the repository is the user's, visible and not refused, any steps: that hook does not exist |
| System.SettledForever | invenio_vcs/tasks.py:131-134 | a release in PROCESSING, PUBLISHED, DELETED or PUBLISH_PENDING is never run or changed again |
| System.StuckForever | invenio_vcs/tasks.py:131-134 | two rows with one id that are pending together are neither run nor changed in any continuation |
| SystemConvergence.ConvergesInRuns | invenio_vcs/service.py:187-327 | after a sync and the user's members steps, among any steps of anyone that keep the contract, the user's repositories are exactly the listed ones |
| SystemConvergence.RefreshedInRuns | invenio_vcs/service.py:211-250 | after two such rounds the user has every listed repository with the remote's metadata |
| ReleaseRuns.RunsTakenFromLeft | invenio_vcs/tasks.py:128-158 | over any steps, a row's runs are taken from what it had left: nothing if it is settled or pending together with another row of its id, else the attempts all tasks for the id have left |
| ReleaseRuns.BoundAttained | invenio_vcs/tasks.py:128-158 | whatever else is queued, the only pending row with an id can be run any number of times up to the attempts that all tasks for the id have left |
| ReleaseRuns.RunsLeftExactly | invenio_vcs/tasks.py:128-158 | for any row in any state, the exact limit on its runs over all continuations |
| ReleaseRuns.RunsExactly | invenio_vcs/tasks.py:128-158 | the exact limit on a release's runs over all continuations, decided at its acceptance, for any handler configuration |
| ReleaseRuns.SixExactly | invenio_vcs/tasks.py:128-158 | six runs (one, if no exception is retried) are the limit exactly when no task for the id is queued at its acceptance or another row with it is pending |
| ReleaseRuns.ReleasesInRuns | invenio_vcs/receivers.py:59-99 | in every run from the start at any number of providers: unique rows and tasks, runs of RECEIVED and FAILED rows only, each row in another status run, at most five runs per row with the id and one, and each release in a repository of its provider |
| SharedIds.ElevenRuns | invenio_vcs/tasks.py:131-134 | a run from an empty installation in which a release is run eleven times, five of them by another provider's task |
| Interplay.MembersFollowAdmins | invenio_vcs/service.py:297-327 | a members sync fails exactly when two admin entries are linked to one new member; otherwise the members are exactly the linked admins and nothing else changes |
| Interplay.SyncAndTasksConverge | invenio_vcs/service.py:264-277 | the tasks a sync queues are enough for convergence, in any interleaving |
| Interplay.DispatchedStepBlocks | invenio_vcs/service.py:264-267 | right after a sync no dispatched members step raises, and a hook step raises exactly where two hooks of ours exist |
| Interplay.DispatchedTaskCompletes | invenio_vcs/tasks.py:80-125 | after a sync and any batch steps of any users, an attempt at a dispatched task with an answering provider gets through all its repositories |
| Interplay.DispatchedNeverBlocks | invenio_vcs/tasks.py:80-125 | in every later state of a run that keeps the contract, no step of a dispatched task raises what would end it |
| Unlinked.AwayForGood | invenio_vcs/service.py:297-327 | no steps of anyone give a user without an account an existing row back, unless the user connects again |
| Unlinked.UnlinkedUserLosesCleanup | invenio_vcs/oauth/handlers.py:50-57 | in any run between handler and cleanup with a members task that reaches a captured repository, the user loses it and no attempt ever revokes the token |
| Interplay.ReenabledRowLosesHook | invenio_vcs/oauth/handlers.py:69-86 | a hook sync of another user between handler and cleanup enables the row again, and the cleanup deletes its hook |
| Interplay.MigratedTablesAreValid | invenio_vcs/upgrade_scripts/migrate_github_to_vcs.py:206-243 | tables that hold the migrated rows are valid, whatever GitHub ids repeat and whatever null columns the old rows had |
| Interplay.MigratedNullHookBlocksCleanup | invenio_vcs/upgrade_scripts/migrate_github_to_vcs.py:231-241 | a null hook written as text is captured and blocks every cleanup whose user sees the hooks, in whatever tables |
| Migration.MigrationDb.MigrateListings | invenio_vcs/upgrade_scripts/migrate_github_to_vcs.py:118-193 | the table is the fold of all listings; accounts with a listing keep only their last sync, others everything; a missing last sync undoes everything |
| Migration.MigrationDb.MigrateOne | invenio_vcs/upgrade_scripts/migrate_github_to_vcs.py:143-182 | the inner loop extends the fold by one account's listing |
| Migration.MigrationDb.UpsertOne | invenio_vcs/upgrade_scripts/migrate_github_to_vcs.py:146-182 | one listed repository is inserted, or refreshes the row it has |
| Migration.MigrationDb.MigrateOldRows | invenio_vcs/upgrade_scripts/migrate_github_to_vcs.py:196-243 | the table is the fold of all old rows |
| MigrationProofs.ListingsMigrated | invenio_vcs/upgrade_scripts/migrate_github_to_vcs.py:135-182 | existing rows keep id, provider, hook, user and community and take name, branch and description of the last entry for their key, if there is one; added rows are listed, new, under fresh ids and blank |
| MigrationProofs.LastAccountDecides | invenio_vcs/upgrade_scripts/migrate_github_to_vcs.py:135-182 | the last entry for a repository is the one in the listing of the last account that lists it |
| MigrationProofs.ListingsKeys | invenio_vcs/upgrade_scripts/migrate_github_to_vcs.py:143-171 | provider ids afterwards are those before and those listed |
| MigrationProofs.ListingsAgain | invenio_vcs/upgrade_scripts/migrate_github_to_vcs.py:135-182 | going over the listings again changes nothing |
| MigrationProofs.StrippedListNothing | invenio_vcs/upgrade_scripts/migrate_github_to_vcs.py:184-191 | stripped accounts contribute nothing to a second pass |
| MigrationProofs.OldRowsMigrated | invenio_vcs/upgrade_scripts/migrate_github_to_vcs.py:206-241 | each row carries the id and user of the last old row with its key, the hook that the writes leave, and the metadata it had or the defaults |
| MigrationProofs.OldIdSurvives | invenio_vcs/upgrade_scripts/migrate_github_to_vcs.py:206-241 | an old id survives exactly when no later old row has the same GitHub id |
| MigrationProofs.RepositoriesMigrated | invenio_vcs/upgrade_scripts/migrate_github_to_vcs.py:256-257 | with distinct GitHub ids every old id has its row, with the last listing's name, branch and description, keys are unique and every release reference resolves; a null hook comes out enabled exactly for listed or present repositories |
| MigrationProofs.MigratedKeys | invenio_vcs/upgrade_scripts/migrate_github_to_vcs.py:206-241 | provider ids and primary keys of the migrated table are distinct, whatever GitHub ids repeat or are null |
| MigrationProofs.MigratedWellFormed | invenio_vcs/upgrade_scripts/migrate_github_to_vcs.py:206-241 | the migrated table is well-formed exactly when, for every old row that survives, the hook column ends up non-null just if it has a user |
| MigrationProofs.MigratedWellFormedDistinct | invenio_vcs/upgrade_scripts/migrate_github_to_vcs.py:206-241 | with distinct GitHub ids: exactly when each old row has a user just if it had a hook, was listed, or was in the table |
| Refresh.RefreshAccounts | invenio_vcs/tasks.py:179-194 | dispatches distinct stale accounts, as many as the limit allows, and counts them |
| Refresh.StaleIsUnpicked | invenio_vcs/tasks.py:179-192 | within the window, stale means stale at the start and not picked yet |
| Refresh.StaleShrinks | invenio_vcs/tasks.py:186-192 | each round shrinks the stale accounts by the limit, whichever are picked |
| Refresh.NoneStaleLeft | invenio_vcs/jobs.py:39-46 | no stale account is left once rounds times limit reach their number; one round without a limit |
| Witnesses.OneRoundShowsOldName | invenio_vcs/service.py:211-250 | a repository known through another user shows its old name after one round |
| Witnesses.HookWithoutEnabledRow | invenio_vcs/service.py:356-359 | a hook of ours on a repository that is not enabled |
| Witnesses.StaleHookId | invenio_vcs/service.py:356-359 | a stale hook id that a hook sync leaves in place |
| Witnesses.RevokedWithHookLeft | invenio_vcs/tasks.py:66-74 | the token is revoked while a captured hook stays, for a hidden repository and for a refused deletion |
| Witnesses.SharedReleaseIdStarves | invenio_vcs/tasks.py:131-134 | two providers' releases with one id are never processed |
| Witnesses.NullGithubIdsLoseARow | invenio_vcs/upgrade_scripts/migrate_github_to_vcs.py:212-221 | two null GitHub ids: one old id is lost |
| Witnesses.NullHookComesOutEnabled | invenio_vcs/upgrade_scripts/migrate_github_to_vcs.py:231-241 | a disabled old repository that is listed comes out enabled |
| Witnesses.MigratedDisconnectNeverEnds | invenio_vcs/upgrade_scripts/migrate_github_to_vcs.py:231-241 | a migrated row with hook text None and no enabler: valid tables, and a disconnect that never revokes the token |

## Left out

- Service.VCSService.RunBatch: does not bound the attempts by the tasks' `max_retries`; retry transparency is proved for any number of attempts. Provider failures other than the modelled errors are a set of repositories whose calls raise.
- Service.VCSService.DispatchBatches: requires a positive batch size; `range` with a step of zero raises. `_sync_hooks` and `_sync_repo_users` are one method with the task kind as parameter.
- Service.VCSService.Sync: a listing is a sequence of entries whose ids are the dict's keys; that they are distinct is part of the contract that the convergence results name.
- Disconnect.DisconnectProvider: its table changes are always rolled back, because the task shows no commit outside its savepoint; only its remote effects count. The answer of a deletion, which is only logged, and the log are not part of the result.
- Disconnect.DisconnectHandler: the branches for an anonymous user and for a user without a token, the webhook token, and the redirect are not modelled; the remote account is its last-sync entry.
- Releases.ReleaseStore.ProcessRelease: the plugin's `process_release` is implemented by the host application; here it ends in any status, with or without an exception of any class. Exceptions outside `Exception` and failures before the call are not modelled.
- Migration.MigrationDb.MigrateListings: of the possible KeyErrors only the missing `last_sync` is modelled.
- Migration.MigrationDb.MigrateOldRows: an old id that collides with a generated one would be an IntegrityError; the results assume that it does not happen, and that the table's provider ids are distinct across providers, because both passes look rows up without the provider.
- Confluence.Confluent: the hook steps of a run come from one user, because two users' hook syncs do not commute in general; the exact condition for two is `Confluence.HookSyncsOfTwoUsers`, and what remains for users who see the same is `Confluence.ConfluentButEnabler`.
- SystemConvergence.ConvergesInRuns: listings, admin lists and reach of the provider stay as they are, the user stays connected, and a local user links one account per provider.
- SystemConvergence.RefreshedInRuns: the remote shows every user who lists a repository the same name, branch and description.
- Refresh.RefreshAccounts: the unregistered provider, and the job's passing of an unset limit or age, are not modelled; the syncs it dispatches are taken to complete.
- GitLab: same shape as GitHub, with library exceptions for absent hooks. Only GitHub's hook semantics are modelled.
- Identifiers: UUIDs are counters that never repeat; a hook column is a number or any other text, so leading zeros are not distinguished; the assertion that a repository id is numeric is not modelled.
- Webhook URLs: a URL is its host and the rest; every user has a receiver URL on one configured host, and a missing webhook token is not modelled.
- Concurrency within one operation: a sync, an enable, a disable, the disconnect handler, a delivery and an attempt at a release are atomic; a batch commits per iteration and other steps can come between its iterations, and a cleanup makes one call per entry and other steps can come between its calls. The transaction in which a cleanup reads its repositories is not isolated from them.
- Listings and admin lists are answered by the remote state, whatever paging the libraries do; licences are not stored by the source and play no role.
- OAuth, tokens, zipball URLs, views, templates, notifications, badges, menus, provider configuration, alembic: no state of the four components. Of the account setup, the link and the sync time are modelled; that linking is refused for a linked account and for a user who has one at the provider comes from the accounts tables, which are not part of this model.
- The column-by-column copy of releases in the migration, error texts of releases, and timestamps beyond the last sync: nothing else depends on them.
