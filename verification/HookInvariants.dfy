/** The link between the hook column and the webhooks that exist remotely, operation by operation. */
module HookInvariants {
  import opened Domain
  import opened Tables
  import opened Provider
  import opened SyncSpec
  import opened EnableSpec

  /** No repository carries two hooks of ours, and no hook id has been issued beyond the counter. */
  ghost predicate OneHook(w: World) {
    && w.host != ""
    && (forall r, a, b :: Ours(w, r, a) && Ours(w, r, b) ==> a == b)
    && (forall r, n :: n in HooksOf(w, r) ==> n < w.nextHook)
  }

  ghost predicate LiveRow(row: Repo, w: World) {
    row.hook.Some? ==> row.hook.value.Digits? && Ours(w, row.providerId, row.hook.value.n)
  }

  /** Every hook column of provider p names a hook of ours that exists on that repository. */
  ghost predicate LiveHooks(db: Db, w: World, p: string) {
    forall id :: id in db.repos && db.repos[id].provider == p ==> LiveRow(db.repos[id], w)
  }

  /** What other parties may do to the remote: anything, except adding hooks that call this instance. */
  ghost predicate NoNewHooks(w: World, w': World) {
    && w'.host == w.host && w.nextHook <= w'.nextHook
    && (forall r, n :: Ours(w', r, n) ==> Ours(w, r, n))
    && (forall r, n :: n in HooksOf(w', r) ==> n < w'.nextHook)
    && (forall r, n :: n in HooksOf(w', r) && n < w.nextHook ==> n in HooksOf(w, r))
  }

  ghost predicate KeepsOurHooks(w: World, w': World) {
    forall r, n :: Ours(w, r, n) ==> Ours(w', r, n)
  }

  // ---------- how the hook operations move `Ours` ----------

  lemma CreateOurs(w: World, u: nat, r: string)
    requires OneHook(w)
    ensures forall s, n :: Ours(AfterCreate(w, u, r), s, n) <==> Ours(w, s, n) || (s == r && n == w.nextHook)
    ensures forall s, n :: n in HooksOf(AfterCreate(w, u, r), s) <==> n in HooksOf(w, s) || (s == r && n == w.nextHook)
  {
  }

  lemma EditOurs(w: World, u: nat, r: string, n: nat, editOk: bool)
    requires Ours(w, r, n) && w.host != ""
    ensures forall s, m :: Ours(AfterEdit(w, u, r, n, editOk), s, m) <==> Ours(w, s, m)
    ensures forall s, m :: m in HooksOf(AfterEdit(w, u, r, n, editOk), s) <==> m in HooksOf(w, s)
  {
  }

  lemma DeleteOurs(w: World, r: string, n: nat)
    ensures forall s, m :: Ours(AfterDelete(w, r, n), s, m) <==> Ours(w, s, m) && !(s == r && m == n)
    ensures forall s, m :: m in HooksOf(AfterDelete(w, r, n), s) <==> m in HooksOf(w, s) && !(s == r && m == n)
  {
  }

  // ---------- MultipleWebhooksError ----------

  lemma NeverMultiple(w: World, u: nat, r: string)
    requires OneHook(w)
    ensures ConfiguredWebhook(w, u, r) != Raised(MultipleWebhooks)
    ensures ReachOf(w, u, r).Full? ==> ConfiguredWebhook(w, u, r).Ok?
    ensures ReachOf(w, u, r).Full? ==> forall n: nat :: Ours(w, r, n) <==> ConfiguredWebhook(w, u, r).value == Some(n)
  {
  }

  // ---------- enable ----------

  lemma EnableCases(db: Db, w: World, u: nat, p: string, r: string, c: Option<string>, editOk: bool) returns (n: nat)
    requires OneHook(w)
    ensures var e := Enable(db, w, u, p, r, c, editOk);
      && OneHook(e.world) && KeepsOurHooks(w, e.world)
      && if e.result == Ok(true) then
           && AvailableRow(db, p, u, r).Some? && Ours(e.world, r, n)
           && var id := AvailableRow(db, p, u, r).value;
              e.db == WithRow(db, id, db.repos[id].MarkedEnabled(Digits(n), u, c))
         else e.db == db && e.world == w
  {
    NeverMultiple(w, u, r);
    n := 0;
    if Enable(db, w, u, p, r, c, editOk).result == Ok(true) {
      match ConfiguredWebhook(w, u, r)
      case Ok(Some(k)) =>
        EditOurs(w, u, r, k, editOk);
        n := k;
      case Ok(None) =>
        CreateOurs(w, u, r);
        n := w.nextHook;
    }
  }

  lemma LiveHooksKept(db: Db, w: World, w': World, p: string)
    requires LiveHooks(db, w, p) && KeepsOurHooks(w, w')
    ensures LiveHooks(db, w', p)
  {
  }

  /** Rewriting one row without touching its key. */
  lemma RowRewritten(db: Db, w: World, p: string, id: nat, row: Repo)
    requires Valid(db) && id in db.repos
    requires row.provider == db.repos[id].provider && row.providerId == db.repos[id].providerId
    ensures Valid(WithRow(db, id, row))
    ensures LiveHooks(db, w, p) && LiveRow(row, w) ==> LiveHooks(WithRow(db, id, row), w, p)
  {
  }

  /** Enabling keeps both invariants, also when its changes to the tables are lost before they are committed. */
  lemma EnableKeeps(db: Db, w: World, u: nat, p: string, r: string, c: Option<string>, editOk: bool)
    requires Valid(db) && OneHook(w)
    ensures var e := Enable(db, w, u, p, r, c, editOk);
      && Valid(e.db) && OneHook(e.world)
      && (LiveHooks(db, w, p) ==> LiveHooks(e.db, e.world, p) && LiveHooks(db, e.world, p))
  {
    var n := EnableCases(db, w, u, p, r, c, editOk);
    if Enable(db, w, u, p, r, c, editOk).result == Ok(true) {
      var id := AvailableRow(db, p, u, r).value;
      assert HasKey(db, id, p, r);
      RowRewritten(db, Enable(db, w, u, p, r, c, editOk).world, p, id, db.repos[id].MarkedEnabled(Digits(n), u, c));
    }
    if LiveHooks(db, w, p) {
      LiveHooksKept(db, w, Enable(db, w, u, p, r, c, editOk).world, p);
    }
  }

  /** The hooks of w and w' are the same, except that hook n of repository r may be another. */
  ghost predicate SameHooksBut(w: World, w': World, r: string, n: nat) {
    forall s, m :: s != r || m != n ==>
      && (m in HooksOf(w', s) <==> m in HooksOf(w, s))
      && (m in HooksOf(w, s) ==> HooksOf(w', s)[m] == HooksOf(w, s)[m])
  }

  /** From a to b, a row got hook n, the enabler u, and the community c if there is one; nothing else changed. */
  predicate EnabledAs(a: Repo, b: Repo, u: nat, n: nat, c: Option<string>) {
    && b.hook == Some(Digits(n)) && b.enabledBy == Some(u) && b.community == (if c.Some? then c else a.community)
    && SameExceptEnabling(b, a)
  }

  /** From a to b, a row lost its hook, enabler and community; nothing else changed. */
  predicate Blanked(a: Repo, b: Repo) {
    b.hook.None? && b.enabledBy.None? && b.community.None? && SameExceptEnabling(b, a)
  }

  /** From db to d, at most row id changed. */
  ghost predicate OnlyRow(db: Db, d: Db, id: nat) {
    id in db.repos && id in d.repos && d == db.(repos := db.repos[id := d.repos[id]])
  }

  /** From db to d, row id was enabled like that, and nothing else changed. */
  ghost predicate EnabledRow(db: Db, d: Db, id: nat, u: nat, n: nat, c: Option<string>) {
    OnlyRow(db, d, id) && EnabledAs(db.repos[id], d.repos[id], u, n, c)
  }

  /** From w to w', hook n of repository r became or stayed the only hook of ours there; it calls u's receiver,
      unless the remote refused to edit a hook that existed. */
  ghost predicate OnlyHook(w: World, w': World, u: nat, r: string, n: nat, editOk: bool) {
    && (forall m :: Ours(w', r, m) <==> m == n)
    && n in HooksOf(w', r) && SameHooksBut(w, w', r, n)
    && (n in HooksOf(w, r) ==> Ours(w, r, n)) && w'.host == w.host && w'.reach == w.reach
    && HooksOf(w', r)[n] == if n in HooksOf(w, r) && !editOk then HooksOf(w, r)[n] else Some(WebhookUrl(w, u))
  }

  lemma CreatedHook(w: World, u: nat, r: string, editOk: bool)
    requires OneHook(w) && forall n :: !Ours(w, r, n)
    ensures OnlyHook(w, AfterCreate(w, u, r), u, r, w.nextHook, editOk)
  {
    CreateOurs(w, u, r);
    assert w.nextHook !in HooksOf(w, r);
  }

  lemma EditedHook(w: World, u: nat, r: string, n: nat, editOk: bool)
    requires OneHook(w) && Ours(w, r, n)
    ensures OnlyHook(w, AfterEdit(w, u, r, n, editOk), u, r, n, editOk)
  {
    EditOurs(w, u, r, n, editOk);
  }

  /** An enable succeeds exactly for a repository of the user's that the user's token reaches. It then leaves exactly
      one hook of ours, whose id is in the row; the row's other columns, the other rows and the other hooks are as
      they were. Anything else changes nothing. */
  lemma EnableEstablishes(db: Db, w: World, u: nat, p: string, r: string, c: Option<string>, editOk: bool)
    returns (id: nat, n: nat)
    requires Valid(db) && OneHook(w)
    ensures var e := Enable(db, w, u, p, r, c, editOk);
      && (e.result == Ok(true) <==> AvailableRow(db, p, u, r).Some? && ReachOf(w, u, r).Full?)
      && if e.result == Ok(true) then
           && AvailableRow(db, p, u, r) == Some(id) && EnabledRow(db, e.db, id, u, n, c)
           && OnlyHook(w, e.world, u, r, n, editOk)
         else e.db == db && e.world == w
  {
    NeverMultiple(w, u, r);
    id, n := 0, w.nextHook;
    if Enable(db, w, u, p, r, c, editOk).result == Ok(true) {
      id := AvailableRow(db, p, u, r).value;
      match ConfiguredWebhook(w, u, r)
      case Ok(Some(k)) =>
        n := k;
        EditedHook(w, u, r, k, editOk);
      case Ok(None) => CreatedHook(w, u, r, editOk);
    }
  }

  // ---------- disable ----------

  lemma DeletionCases(w: World, u: nat, r: string, hook: Option<HookText>, ok: bool)
    ensures var (w', res) := Deletion(w, u, r, hook, ok);
      w' == w || (res == Ok(true) && exists n :: n in HooksOf(w, r) && w' == AfterDelete(w, r, n)
                                               && (hook.Some? ==> hook.value == Digits(n)))
  {
  }

  /** What a disable does to the remote: nothing, or the deletion of one hook of r. */
  lemma DisableRemote(db: Db, w: World, u: nat, p: string, r: string, hook: Option<HookText>, ok: bool)
    requires OneHook(w)
    ensures var e := Disable(db, w, u, p, r, hook, ok); OneHook(e.world) && NoNewHooks(w, e.world)
    ensures forall s, n :: s != r ==> (Ours(Disable(db, w, u, p, r, hook, ok).world, s, n) <==> Ours(w, s, n))
    ensures var e := Disable(db, w, u, p, r, hook, ok); e.result != Ok(true) ==> e.world == w
  {
    DeletionCases(w, u, r, hook, ok);
    var w' := Disable(db, w, u, p, r, hook, ok).world;
    if w' != w {
      var n :| n in HooksOf(w, r) && w' == AfterDelete(w, r, n);
      DeleteOurs(w, r, n);
    }
  }

  /** What it does to the tables: nothing, or, on a success, it blanks the row of r. */
  lemma DisableTables(db: Db, w: World, u: nat, p: string, r: string, hook: Option<HookText>, ok: bool)
    requires Valid(db)
    ensures var e := Disable(db, w, u, p, r, hook, ok);
      && Valid(e.db) && SameExceptRow(db, e.db, p, r)
      && (if e.result == Ok(true) then forall id :: HasKey(db, id, p, r) ==> e.db.repos[id].hook.None? else e.db == db)
  {
    var id := AvailableRow(db, p, u, r);
    if id.Some? {
      assert HasKey(db, id.value, p, r);
    }
  }

  /** From db to d, at most the row of r changed, and only in the columns that enabling writes. */
  ghost predicate SameExceptRow(db: Db, d: Db, p: string, r: string) {
    && d == db.(repos := d.repos) && d.repos.Keys == db.repos.Keys
    && forall id :: id in db.repos ==>
         && SameExceptEnabling(d.repos[id], db.repos[id])
         && (!HasKey(db, id, p, r) ==> d.repos[id] == db.repos[id])
  }

  /** Disabling never adds a hook; it keeps the columns live when its changes are committed. */
  lemma DisableKeeps(db: Db, w: World, u: nat, p: string, r: string, hook: Option<HookText>, ok: bool)
    requires Valid(db) && OneHook(w)
    ensures var e := Disable(db, w, u, p, r, hook, ok);
      && Valid(e.db) && OneHook(e.world) && NoNewHooks(w, e.world)
      && (LiveHooks(db, w, p) ==> LiveHooks(e.db, e.world, p))
  {
    DisableRemote(db, w, u, p, r, hook, ok);
    DisableTables(db, w, u, p, r, hook, ok);
    if LiveHooks(db, w, p) {
      BlankedStaysLive(db, w, Disable(db, w, u, p, r, hook, ok), p, r);
    }
  }

  lemma BlankedStaysLive(db: Db, w: World, e: Effect, p: string, r: string)
    requires LiveHooks(db, w, p) && SameExceptRow(db, e.db, p, r)
    requires forall s, n :: s != r ==> (Ours(e.world, s, n) <==> Ours(w, s, n))
    requires e.result != Ok(true) ==> e.world == w && e.db == db
    requires e.result == Ok(true) ==> forall id :: HasKey(db, id, p, r) ==> e.db.repos[id].hook.None?
    ensures LiveHooks(e.db, e.world, p)
  {
    forall id | id in e.db.repos && e.db.repos[id].provider == p
      ensures LiveRow(e.db.repos[id], e.world)
    {
      assert LiveRow(db.repos[id], w);
      assert HasKey(db, id, p, db.repos[id].providerId);
    }
  }

  /** From w to w', the hooks of ours on repository r were deleted, and nothing else. */
  ghost predicate OursDeleted(w: World, w': World, r: string) {
    forall s, n :: OursDeletedAt(w, w', r, s, n)
  }

  ghost predicate OursDeletedAt(w: World, w': World, r: string, s: string, n: nat) {
    && (n in HooksOf(w', s) <==> n in HooksOf(w, s) && !(s == r && Ours(w, r, n)))
    && (n in HooksOf(w', s) ==> HooksOf(w', s)[n] == HooksOf(w, s)[n])
  }

  lemma DeletedHook(w: World, r: string, n: nat)
    requires OneHook(w) && Ours(w, r, n)
    ensures OursDeleted(w, AfterDelete(w, r, n), r)
  {
    DeleteOurs(w, r, n);
  }

  /** Disabling without naming a hook succeeds exactly for a repository of the user's that the user's token reaches,
      unless the remote refuses to delete the hook of ours that is there. It then deletes that hook and nothing else,
      and blanks the row. Anything else changes nothing. */
  lemma DisableEstablishes(db: Db, w: World, u: nat, p: string, r: string, ok: bool)
    requires Valid(db) && OneHook(w)
    ensures var e, row := Disable(db, w, u, p, r, None, ok), AvailableRow(db, p, u, r);
      && (e.result == Ok(true) <==> row.Some? && ReachOf(w, u, r).Full? && (ok || forall n :: !Ours(w, r, n)))
      && if e.result == Ok(true) then
           && OursDeleted(w, e.world, r)
           && e.db == WithRow(db, row.value, db.repos[row.value].MarkedDisabled())
         else e.db == db && e.world == w
  {
    NeverMultiple(w, u, r);
    if ReachOf(w, u, r).Full? {
      match ConfiguredWebhook(w, u, r)
      case Ok(Some(n)) => DeletedHook(w, r, n);
      case Ok(None) =>
    }
  }

  lemma OnlyHookDeleted(w: World, w1: World, w2: World, u: nat, r: string, n: nat, editOk: bool)
    requires OnlyHook(w, w1, u, r, n, editOk) && OursDeleted(w1, w2, r)
    ensures OursDeleted(w, w2, r)
  {
    forall s: string, m: nat
      ensures OursDeletedAt(w, w2, r, s, m)
    {
      assert OursDeletedAt(w1, w2, r, s, m);
      if s == r && m == n {
        assert Ours(w1, r, n);
      } else {
        assert m in HooksOf(w1, s) <==> m in HooksOf(w, s);
        assert m in HooksOf(w1, s) ==> HooksOf(w1, s)[m] == HooksOf(w, s)[m];
      }
    }
  }

  lemma NothingOfOurs(w: World, w': World, r: string)
    requires OursDeleted(w, w', r)
    ensures (forall s :: HooksOf(w', s) == HooksOf(w, s)) <==> forall n :: !Ours(w, r, n)
  {
    if forall n :: !Ours(w, r, n) {
      forall s: string
        ensures HooksOf(w', s) == HooksOf(w, s)
      {
        forall m: nat
          ensures m in HooksOf(w', s) <==> m in HooksOf(w, s)
          ensures m in HooksOf(w', s) ==> HooksOf(w', s)[m] == HooksOf(w, s)[m]
        {
          assert OursDeletedAt(w, w', r, s, m);
        }
      }
    }
    if n: nat :| Ours(w, r, n) {
      assert OursDeletedAt(w, w', r, r, n);
    }
  }

  lemma DisabledAfter(db: Db, e: Effect, u: nat, p: string, r: string, id: nat, n: nat, c: Option<string>)
    requires Valid(db) && Valid(e.db) && OneHook(e.world) && EnabledRow(db, e.db, id, u, n, c)
    requires AvailableRow(db, p, u, r) == Some(id) && ReachOf(e.world, u, r).Full?
    ensures var d := Disable(e.db, e.world, u, p, r, None, true);
      && d.result == Ok(true) && OursDeleted(e.world, d.world, r)
      && d.db == WithRow(db, id, db.repos[id].MarkedDisabled())
  {
    assert HasKey(e.db, id, p, r);
    DisableEstablishes(e.db, e.world, u, p, r, true);
    assert WithRow(e.db, id, db.repos[id].MarkedDisabled()) == WithRow(db, id, db.repos[id].MarkedDisabled());
  }

  /** What a disable after a successful enable leaves: the row blank and no hook of ours, everything else as it was
      before the two calls. So the two undo each other exactly on a blank row, as far as the tables go, and on a
      repository without a hook of ours, as far as the remote goes. */
  lemma DisableUndoesEnable(db: Db, w: World, u: nat, p: string, r: string, c: Option<string>, editOk: bool)
    requires Valid(db) && OneHook(w) && Enable(db, w, u, p, r, c, editOk).result == Ok(true)
    ensures var id := AvailableRow(db, p, u, r).value;
      var e := Enable(db, w, u, p, r, c, editOk);
      var d := Disable(e.db, e.world, u, p, r, None, true);
      && d.result == Ok(true)
      && d.db == WithRow(db, id, db.repos[id].MarkedDisabled()) && OursDeleted(w, d.world, r)
      && (d.db == db <==> db.repos[id] == db.repos[id].MarkedDisabled())
      && ((forall s :: HooksOf(d.world, s) == HooksOf(w, s)) <==> forall n :: !Ours(w, r, n))
  {
    var e := Enable(db, w, u, p, r, c, editOk);
    EnableKeeps(db, w, u, p, r, c, editOk);
    var id, n := EnableEstablishes(db, w, u, p, r, c, editOk);
    DisabledAfter(db, e, u, p, r, id, n, c);
    var d := Disable(e.db, e.world, u, p, r, None, true);
    OnlyHookDeleted(w, e.world, d.world, u, r, n, editOk);
    NothingOfOurs(w, d.world, r);
    BlankRow(db, id);
  }

  lemma BlankRow(db: Db, id: nat)
    requires id in db.repos
    ensures WithRow(db, id, db.repos[id].MarkedDisabled()) == db <==> db.repos[id] == db.repos[id].MarkedDisabled()
  {
    assert WithRow(db, id, db.repos[id].MarkedDisabled()).repos[id] == db.repos[id].MarkedDisabled();
    assert db.repos[id := db.repos[id]] == db.repos;
  }

  /** The row of repository r names hook n. */
  ghost predicate Named(db: Db, p: string, r: string, n: nat) {
    exists id :: HasKey(db, id, p, r) && db.repos[id].hook == Some(Digits(n))
  }

  /** Hooks that go away while the tables keep their ids break the link exactly when a row names one of them. */
  lemma LiveUnlessNamed(db: Db, w: World, w': World, p: string)
    requires LiveHooks(db, w, p)
    ensures LiveHooks(db, w', p) <==> forall r, n :: Ours(w, r, n) && !Ours(w', r, n) ==> !Named(db, p, r, n)
  {
    if LiveHooks(db, w', p) {
      forall r, n | Named(db, p, r, n)
        ensures Ours(w', r, n)
      {
        var id :| HasKey(db, id, p, r) && db.repos[id].hook == Some(Digits(n));
        assert LiveRow(db.repos[id], w');
      }
    }
    if forall r, n :: Ours(w, r, n) && !Ours(w', r, n) ==> !Named(db, p, r, n) {
      forall id | id in db.repos && db.repos[id].provider == p && db.repos[id].hook.Some?
        ensures LiveRow(db.repos[id], w')
      {
        assert LiveRow(db.repos[id], w);
        assert HasKey(db, id, p, db.repos[id].providerId);
        assert Named(db, p, db.repos[id].providerId, db.repos[id].hook.value.n);
      }
    }
  }

  /** The request to delete hook n of r is made by this call, and granted. */
  ghost predicate Removes(w: World, u: nat, r: string, hook: Option<HookText>, ok: bool, n: nat) {
    && ReachOf(w, u, r).Full? && ok
    && match hook
       case Some(h) => h == Digits(n)
       case None => ConfiguredWebhook(w, u, r) == Ok(Some(n))
  }

  /** A disable whose changes to the tables are lost, as those of a disconnect are, breaks the link exactly when it
      removes the hook that the repository's row names. */
  lemma UncommittedDisable(db: Db, w: World, u: nat, p: string, r: string, hook: Option<HookText>, ok: bool)
    requires Valid(db) && OneHook(w) && LiveHooks(db, w, p)
    ensures LiveHooks(db, Disable(db, w, u, p, r, hook, ok).world, p) <==>
      forall n :: AvailableRow(db, p, u, r).Some? && Removes(w, u, r, hook, ok, n) ==> !Named(db, p, r, n)
  {
    var w' := Disable(db, w, u, p, r, hook, ok).world;
    LiveUnlessNamed(db, w, w', p);
    forall s, n
      ensures Ours(w, s, n) && !Ours(w', s, n) <==>
        Ours(w, s, n) && s == r && AvailableRow(db, p, u, r).Some? && Removes(w, u, r, hook, ok, n)
    {
      if n in HooksOf(w, r) {
        DeleteOurs(w, r, n);
      }
    }
    forall n | Named(db, p, r, n)
      ensures Ours(w, r, n)
    {
      var id :| HasKey(db, id, p, r) && db.repos[id].hook == Some(Digits(n));
      assert LiveRow(db.repos[id], w);
    }
  }

  // ---------- hook sync ----------

  lemma HookSyncKeeps(db: Db, w: World, u: nat, p: string, r: string)
    requires Valid(db) && LiveHooks(db, w, p) && HookSync(db, w, u, p, r).Ok?
    ensures LiveHooks(HookSync(db, w, u, p, r).value, w, p)
  {
    var id := Lookup(db, p, r).value;
    var seen := ConfiguredWebhook(w, u, r).value;
    assert HasKey(db, id, p, r);
    var row := HookedRow(db.repos[id], u, seen);
    assert row.hook.Some? ==> row.hook.value.Digits? && Ours(w, r, row.hook.value.n);
  }

  /** A hook sync by a user who reaches the repository restores agreement between column and remote: the row is
      enabled exactly when a hook of ours exists. The stored id is that hook's, unless the row was already
      enabled under another id, which a hook sync does not repair. */
  lemma HookSyncRepairs(db: Db, w: World, u: nat, p: string, r: string, id: nat)
    requires Valid(db) && OneHook(w) && HasKey(db, id, p, r) && ReachOf(w, u, r).Full?
    ensures HookSync(db, w, u, p, r).Ok?
    ensures var row := HookSync(db, w, u, p, r).value.repos[id];
      && (row.Enabled() <==> exists n :: Ours(w, r, n))
      && (forall n :: Ours(w, r, n) ==>
            (row.hook == Some(Digits(n)) <==> !db.repos[id].Enabled() || db.repos[id].hook == Some(Digits(n))))
  {
    NeverMultiple(w, u, r);
    assert Lookup(db, p, r) == Some(id);
  }

  /** A hook sync by a user who cannot see the repository disables an enabled row and leaves its hook in place;
      one by a user who can then enables the row again, under that user's name. */
  lemma HiddenUserUnlinks(db: Db, w: World, p: string, r: string, id: nat, n: nat, hidden: nat, full: nat)
    requires Valid(db) && OneHook(w) && HasKey(db, id, p, r)
    requires db.repos[id].hook == Some(Digits(n)) && Ours(w, r, n)
    requires ReachOf(w, hidden, r).Hidden? && ReachOf(w, full, r).Full?
    ensures HookSync(db, w, hidden, p, r) == Ok(WithRow(db, id, db.repos[id].MarkedDisabled()))
    ensures HookSync(WithRow(db, id, db.repos[id].MarkedDisabled()), w, full, p, r)
      == Ok(WithRow(db, id, db.repos[id].(enabledBy := Some(full), community := None)))
  {
    NeverMultiple(w, full, r);
    assert Lookup(db, p, r) == Some(id);
    var d := WithRow(db, id, db.repos[id].MarkedDisabled());
    HookSyncValid(db, w, hidden, p, r);
    assert HasKey(d, id, p, r) && Lookup(d, p, r) == Some(id);
    assert WithRow(d, id, d.repos[id].MarkedEnabled(Digits(n), full, None))
      == WithRow(db, id, db.repos[id].(enabledBy := Some(full), community := None));
  }
}
