/** What the hook operations answer and do, by the columns of the rows and the hosts that the hooks call. */
module HostHooks {
  import opened Domain
  import opened Tables
  import opened Provider
  import opened SyncSpec
  import opened EnableSpec
  import opened HookInvariants

  /** Hook n of repository r calls the configured host. */
  ghost predicate CallsHost(w: World, r: string, n: nat) {
    r in w.hooks && n in w.hooks[r] && w.hooks[r][n].Some? && w.hooks[r][n].value.netloc == w.host
  }

  /** It is the only one of r that does. */
  ghost predicate OnlyCaller(w: World, r: string, n: nat) {
    CallsHost(w, r, n) && forall m :: CallsHost(w, r, m) ==> m == n
  }

  ghost predicate TwoCallers(w: World, r: string) {
    exists a, b :: a != b && CallsHost(w, r, a) && CallsHost(w, r, b)
  }

  /** The token of u reaches r. */
  ghost predicate Sees(w: World, u: nat, r: string) {
    (u, r) in w.reach && w.reach[(u, r)] == Full
  }

  /** The provider answers requests about r that are made with the token of u with an access error. */
  ghost predicate NoAccess(w: World, u: nat, r: string) {
    (u, r) in w.reach && w.reach[(u, r)] == Denied
  }

  /** Row id is the row of r, and r is one of the user's repositories. */
  ghost predicate OwnRow(db: Db, p: string, u: nat, r: string, id: nat) {
    && id in db.repos && db.repos[id].provider == p && db.repos[id].providerId == r
    && (id, u) in db.assoc
  }

  /** The hook column of the row is neither null nor empty. */
  predicate On(row: Repo) {
    row.hook.Some? && row.hook.value != Other("")
  }

  lemma OursCall(w: World, r: string, n: nat)
    ensures Ours(w, r, n) <==> w.host != "" && CallsHost(w, r, n)
  {
  }

  lemma OwnRows(db: Db, p: string, u: nat, r: string)
    requires Valid(db)
    ensures forall id: nat :: OwnRow(db, p, u, r, id) <==> AvailableRow(db, p, u, r) == Some(id)
    ensures (exists id :: OwnRow(db, p, u, r, id)) <==> AvailableRow(db, p, u, r).Some?
  {
    forall id: nat
      ensures OwnRow(db, p, u, r, id) <==> AvailableRow(db, p, u, r) == Some(id)
    {
      assert HasKey(db, id, p, r) ==> Lookup(db, p, r) == Some(id);
    }
    assert AvailableRow(db, p, u, r).Some? ==> OwnRow(db, p, u, r, AvailableRow(db, p, u, r).value);
  }

  /** get_configured_webhook finds the only hook that calls the configured host, and no hook that calls another. */
  lemma ConfiguredByHost(w: World, u: nat, r: string)
    ensures var found := ConfiguredWebhook(w, u, r);
      && (found == Raised(RepositoryAccess) <==> NoAccess(w, u, r))
      && (found == Raised(MultipleWebhooks) <==> Sees(w, u, r) && w.host != "" && TwoCallers(w, r))
      && (forall n: nat :: found == Ok(Some(n)) <==> Sees(w, u, r) && w.host != "" && OnlyCaller(w, r, n))
      && (found == Ok(None) <==>
            !NoAccess(w, u, r) && (Sees(w, u, r) && w.host != "" ==> forall n :: !CallsHost(w, r, n)))
  {
    forall n: nat
      ensures Ours(w, r, n) <==> w.host != "" && CallsHost(w, r, n)
    {
      OursCall(w, r, n);
    }
    if Sees(w, u, r) && w.host != "" && TwoCallers(w, r) {
      var a, b :| a != b && CallsHost(w, r, a) && CallsHost(w, r, b);
      assert Ours(w, r, a) && Ours(w, r, b);
    }
  }

  // ---------- enable ----------

  /** Every hook that calls another host, or no host at all, is as it was. */
  ghost predicate OthersKept(w: World, w': World) {
    forall r, n :: r in w.hooks && n in w.hooks[r] && !CallsHost(w, r, n) ==>
      r in w'.hooks && n in w'.hooks[r] && w'.hooks[r][n] == w.hooks[r][n]
  }

  /** No hook carries an id that the remote has not issued yet. */
  ghost predicate FreshIds(w: World) {
    forall r, n :: r in w.hooks && n in w.hooks[r] ==> n < w.nextHook
  }

  /** w with hook n of r calling the receiver of u. */
  function CallingUser(w: World, u: nat, r: string, n: nat): World {
    var token := if u in w.tokens then w.tokens[u] else "";
    w.(hooks := w.hooks[r := (if r in w.hooks then w.hooks[r] else map[])[n := Some(Url(w.host, token))]])
  }

  /** enable_repository takes the only hook that calls the configured host, or creates one where there is none. */
  ghost predicate TakesHook(db: Db, w: World, u: nat, r: string, c: Option<string>, editOk: bool, id: nat, e: Effect) {
    && (w.host == "" || (forall n :: !CallsHost(w, r, n)) ==>
          && EnabledRow(db, e.db, id, u, w.nextHook, c)
          && e.world == CallingUser(w, u, r, w.nextHook).(nextHook := w.nextHook + 1))
    && (forall n: nat :: w.host != "" && OnlyCaller(w, r, n) ==>
          && EnabledRow(db, e.db, id, u, n, c)
          && e.world == if editOk then CallingUser(w, u, r, n) else w)
  }

  lemma EnableTakes(db: Db, w: World, u: nat, p: string, r: string, c: Option<string>, editOk: bool, id: nat)
    requires Valid(db) && AvailableRow(db, p, u, r) == Some(id) && Sees(w, u, r) && !(w.host != "" && TwoCallers(w, r))
    ensures TakesHook(db, w, u, r, c, editOk, id, Enable(db, w, u, p, r, c, editOk))
    ensures Enable(db, w, u, p, r, c, editOk).result == Ok(true)
  {
    ConfiguredByHost(w, u, r);
    if n: nat :| w.host != "" && OnlyCaller(w, r, n) {
      assert ConfiguredWebhook(w, u, r) == Ok(Some(n));
    } else {
      assert ConfiguredWebhook(w, u, r) == Ok(None);
    }
  }

  lemma TakenKeepsOthers(db: Db, w: World, u: nat, r: string, c: Option<string>, editOk: bool, id: nat, e: Effect)
    requires FreshIds(w) && TakesHook(db, w, u, r, c, editOk, id, e) && !(w.host != "" && TwoCallers(w, r))
    ensures OthersKept(w, e.world)
  {
    if w.host != "" && exists n :: CallsHost(w, r, n) {
      var n :| CallsHost(w, r, n);
      assert OnlyCaller(w, r, n);
    } else {
      assert !(r in w.hooks && w.nextHook in w.hooks[r]);
    }
  }

  /** All answers and effects of an enable. Whatever it does, hooks that call another host stay as they were. */
  lemma EnableByHost(db: Db, w: World, u: nat, p: string, r: string, c: Option<string>, editOk: bool)
    requires Valid(db)
    ensures var e := Enable(db, w, u, p, r, c, editOk);
      var own, two := exists id :: OwnRow(db, p, u, r, id), w.host != "" && TwoCallers(w, r);
      && (e.result == Raised(RepositoryNotFound) <==> !own)
      && (e.result == Raised(RepositoryAccess) <==> own && NoAccess(w, u, r))
      && (e.result == Raised(MultipleWebhooks) <==> own && Sees(w, u, r) && two)
      && (e.result == Ok(false) <==> own && !NoAccess(w, u, r) && !Sees(w, u, r))
      && (e.result == Ok(true) <==> own && Sees(w, u, r) && !two)
      && (e.result != Ok(true) ==> e.db == db && e.world == w)
      && (forall id :: e.result == Ok(true) && OwnRow(db, p, u, r, id) ==> TakesHook(db, w, u, r, c, editOk, id, e))
      && (FreshIds(w) ==> OthersKept(w, e.world))
  {
    var e := Enable(db, w, u, p, r, c, editOk);
    OwnRows(db, p, u, r);
    ConfiguredByHost(w, u, r);
    if AvailableRow(db, p, u, r).Some? && Sees(w, u, r) && !(w.host != "" && TwoCallers(w, r)) {
      EnableTakes(db, w, u, p, r, c, editOk, AvailableRow(db, p, u, r).value);
      if FreshIds(w) {
        TakenKeepsOthers(db, w, u, r, c, editOk, AvailableRow(db, p, u, r).value, e);
      }
    }
  }

  // ---------- disable ----------

  ghost predicate Exists(w: World, r: string, n: nat) {
    r in w.hooks && n in w.hooks[r]
  }

  /** Hook n of r is the one to delete: the one that is named or, where none is, the one that calls the host. */
  ghost predicate Wanted(w: World, r: string, hook: Option<HookText>, n: nat) {
    match hook
    case Some(Digits(k)) => n == k
    case Some(Other(_)) => false
    case None => w.host != "" && OnlyCaller(w, r, n)
  }

  /** w without hook n of r. */
  function WithoutHook(w: World, r: string, n: nat): World
    requires r in w.hooks
  {
    w.(hooks := w.hooks[r := w.hooks[r] - {n}])
  }

  /** Of the hooks of r, at most the wanted one goes away, if it exists. */
  ghost predicate HookDropped(w: World, r: string, hook: Option<HookText>, w': World) {
    && (forall n: nat :: Wanted(w, r, hook, n) && Exists(w, r, n) ==> w' == WithoutHook(w, r, n))
    && ((forall n: nat :: Wanted(w, r, hook, n) ==> !Exists(w, r, n)) ==> w' == w)
  }

  /** The remote refuses to delete the wanted hook. */
  ghost predicate Refuses(w: World, r: string, hook: Option<HookText>, ok: bool) {
    !ok && exists n: nat :: Wanted(w, r, hook, n) && Exists(w, r, n)
  }

  /** All answers of a deletion, and what it leaves. */
  ghost predicate Answers(w: World, u: nat, r: string, hook: Option<HookText>, ok: bool, w': World, res: Result<bool>) {
    var two := w.host != "" && TwoCallers(w, r);
    && (res == Raised(RepositoryAccess) <==> NoAccess(w, u, r))
    && (res == Raised(AssertionFailed) <==> Sees(w, u, r) && hook.Some? && hook.value.Other?)
    && (res == Raised(MultipleWebhooks) <==> Sees(w, u, r) && hook.None? && two)
    && (res == Ok(false) <==> !NoAccess(w, u, r) && (!Sees(w, u, r) || Refuses(w, r, hook, ok)))
    && (res.Raised? ==> res.error != RepositoryNotFound && res.error != IntegrityError && res.error != ProviderDown)
    && (if res == Ok(true) then HookDropped(w, r, hook, w') else w' == w)
  }

  lemma HasHooks(w: World, r: string)
    ensures forall n: nat :: n in HooksOf(w, r) <==> Exists(w, r, n)
  {
  }

  lemma DeletionByHost(w: World, u: nat, r: string, hook: Option<HookText>, ok: bool)
    ensures Answers(w, u, r, hook, ok, Deletion(w, u, r, hook, ok).0, Deletion(w, u, r, hook, ok).1)
  {
    HasHooks(w, r);
    ConfiguredByHost(w, u, r);
    if Sees(w, u, r) {
      match hook
      case Some(Digits(k)) => assert Wanted(w, r, hook, k);
      case Some(Other(_)) =>
      case None =>
        match ConfiguredWebhook(w, u, r)
        case Ok(Some(n)) => assert Wanted(w, r, hook, n);
        case _ =>
    }
  }

  /** All answers and effects of a disable. */
  lemma DisableByHost(db: Db, w: World, u: nat, p: string, r: string, hook: Option<HookText>, ok: bool)
    requires Valid(db)
    ensures var e := Disable(db, w, u, p, r, hook, ok);
      var own := exists id :: OwnRow(db, p, u, r, id);
      && (e.result == Raised(RepositoryNotFound) <==> !own)
      && (if own then Answers(w, u, r, hook, ok, e.world, e.result) else e.world == w)
      && (e.result != Ok(true) ==> e.db == db)
      && (forall id :: e.result == Ok(true) && OwnRow(db, p, u, r, id) ==>
            OnlyRow(db, e.db, id) && Blanked(db.repos[id], e.db.repos[id]))
  {
    DeletionByHost(w, u, r, hook, ok);
    OwnRows(db, p, u, r);
  }

  /** The hook that is named exists on r and calls another host, or none. */
  ghost predicate NamesOther(w: World, r: string, hook: Option<HookText>) {
    hook.Some? && hook.value.Digits? && Exists(w, r, hook.value.n) && !CallsHost(w, r, hook.value.n)
  }

  lemma DroppedOthers(w: World, r: string, hook: Option<HookText>, w': World)
    requires HookDropped(w, r, hook, w') && (hook.Some? ==> hook.value.Digits?)
    ensures OthersKept(w, w') <==> !NamesOther(w, r, hook)
  {
    if n: nat :| Wanted(w, r, hook, n) && Exists(w, r, n) {
      assert w' == WithoutHook(w, r, n) && n !in w'.hooks[r];
      if OthersKept(w, w') {
        assert CallsHost(w, r, n);
      }
    } else if hook.Some? {
      assert Wanted(w, r, hook, hook.value.n);
    }
  }

  /** A disable takes away a hook that calls another host exactly when it succeeds for a hook named by its id. */
  lemma DisableOthers(db: Db, w: World, u: nat, p: string, r: string, hook: Option<HookText>, ok: bool)
    requires Valid(db)
    ensures var e := Disable(db, w, u, p, r, hook, ok);
      OthersKept(w, e.world) <==> !(e.result == Ok(true) && NamesOther(w, r, hook))
  {
    DeletionByHost(w, u, r, hook, ok);
    var e := Disable(db, w, u, p, r, hook, ok);
    if e.result == Ok(true) {
      DroppedOthers(w, r, hook, e.world);
    }
  }

  // ---------- hook sync ----------

  /** Hook n is what a hook sync of r by user u sees. */
  ghost predicate SeenBy(w: World, u: nat, r: string, n: nat) {
    Sees(w, u, r) && w.host != "" && OnlyCaller(w, r, n)
  }

  /** The row b after a hook sync by u of the row a of r. */
  ghost predicate FollowsHooks(w: World, u: nat, r: string, a: Repo, b: Repo) {
    if On(a) == exists n: nat :: SeenBy(w, u, r, n) then b == a
    else if On(a) then Blanked(a, b)
    else forall n: nat :: SeenBy(w, u, r, n) ==> EnabledAs(a, b, u, n, None)
  }

  lemma HookedFollows(w: World, u: nat, r: string, a: Repo)
    requires ConfiguredWebhook(w, u, r).Ok?
    ensures FollowsHooks(w, u, r, a, HookedRow(a, u, ConfiguredWebhook(w, u, r).value))
  {
    ConfiguredByHost(w, u, r);
    var seen := ConfiguredWebhook(w, u, r).value;
    if seen.Some? {
      assert SeenBy(w, u, r, seen.value);
    }
  }

  /** All answers and effects of a hook sync. */
  lemma HookSyncByHost(db: Db, w: World, u: nat, p: string, r: string)
    requires Valid(db)
    ensures var res := HookSync(db, w, u, p, r);
      var known, two := exists id :: HasKey(db, id, p, r), Sees(w, u, r) && w.host != "" && TwoCallers(w, r);
      && (res == Raised(RepositoryAccess) <==> NoAccess(w, u, r))
      && (res == Raised(MultipleWebhooks) <==> two)
      && (res == Raised(RepositoryNotFound) <==> !NoAccess(w, u, r) && !two && !known)
      && (res.Ok? <==> !NoAccess(w, u, r) && !two && known)
      && forall id :: HasKey(db, id, p, r) && res.Ok? ==>
           OnlyRow(db, res.value, id) && FollowsHooks(w, u, r, db.repos[id], res.value.repos[id])
  {
    ConfiguredByHost(w, u, r);
    forall id: nat
      ensures HasKey(db, id, p, r) <==> Lookup(db, p, r) == Some(id)
    {
    }
    if HookSync(db, w, u, p, r).Ok? {
      HookedFollows(w, u, r, db.repos[Lookup(db, p, r).value]);
    }
  }
}
