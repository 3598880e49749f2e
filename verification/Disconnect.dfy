/** Disconnecting an account: the handler forgets the user's hooks locally and hands them to a cleanup task, which
    deletes them remotely and then revokes the token. */
module Disconnect {
  import opened Domain
  import opened Tables
  import opened Provider
  import opened EnableSpec
  import opened Service
  import opened HookInvariants

  /** A repository and the hook it had when the account was disconnected. */
  type Captured = (string, HookText)

  function CaptureOf(row: Repo): Captured
    requires row.hook.Some?
  {
    (row.providerId, row.hook.value)
  }

  ghost predicate HasHook(db: Db, p: string, u: nat, id: nat) {
    id in db.repos && db.repos[id].provider == p && (id, u) in db.assoc && db.repos[id].hook.Some?
  }

  /** The tables after the handler, in which the external account `ext` (if any) was unlinked. */
  ghost function AfterHandler(db: Db, p: string, u: nat, ext: Option<string>): Db {
    db.(identities := if ext.Some? then db.identities - {(p, ext.value)} else db.identities,
        repos := map id | id in db.repos ::
          if HasHook(db, p, u, id) then db.repos[id].MarkedDisabled() else db.repos[id],
        lastSync := db.lastSync - {(p, u)})
  }

  ghost predicate Captures(db: Db, p: string, u: nat, captured: seq<Captured>) {
    forall e :: e in captured <==> exists id :: CapturedFrom(db, p, u, e, id)
  }

  /** The entry e is the provider id and the hook, neither null nor empty, of row id, one of the user's. */
  ghost predicate CapturedFrom(db: Db, p: string, u: nat, e: Captured, id: nat) {
    && id in db.repos && db.repos[id].provider == p && (id, u) in db.assoc
    && db.repos[id].hook == Some(e.1) && e.1 != Other("") && db.repos[id].providerId == e.0
  }

  /** ext is the account that the handler unlinks: one of the user's, if there is one. */
  ghost predicate Unlinks(db: Db, p: string, u: nat, ext: Option<string>) {
    match ext
    case Some(e) => (p, e) in db.identities && db.identities[(p, e)] == u
    case None => forall e :: (p, e) in db.identities ==> db.identities[(p, e)] != u
  }

  /** OAuthHandlers.disconnect_handler for a user with a token. */
  method DisconnectHandler(svc: VCSService) returns (captured: seq<Captured>, ghost ext: Option<string>)
    requires Valid(svc.db.Snap())
    modifies svc.db
    ensures Unlinks(old(svc.db.Snap()), svc.provider, svc.user, ext)
    ensures svc.db.Snap() == AfterHandler(old(svc.db.Snap()), svc.provider, svc.user, ext)
    ensures Captures(old(svc.db.Snap()), svc.provider, svc.user, captured)
  {
    ghost var was := svc.db.Snap();
    var p, u := svc.provider, svc.user;
    if x :| x in svc.db.identities && x.0 == p && svc.db.identities[x] == u {
      ext := Some(x.1);
      assert x == (p, x.1);
      svc.db.identities := svc.db.identities - {x};
    } else {
      ext := None;
    }
    assert forall e, id :: CapturedFrom(svc.db.Snap(), p, u, e, id) <==> CapturedFrom(was, p, u, e, id);
    captured := ForgetHooks(svc);
    svc.db.lastSync := svc.db.lastSync - {(p, u)};
  }

  /** The loop over the user's enabled repositories: note the hook, then clear the row. */
  method ForgetHooks(svc: VCSService) returns (captured: seq<Captured>)
    modifies svc.db`repos
    ensures Captures(old(svc.db.Snap()), svc.provider, svc.user, captured)
    ensures svc.db.repos == (map id | id in old(svc.db.repos) ::
      if HasHook(old(svc.db.Snap()), svc.provider, svc.user, id) then old(svc.db.repos)[id].MarkedDisabled()
      else old(svc.db.repos)[id])
  {
    ghost var was := svc.db.Snap();
    var db, p, u := svc.db, svc.provider, svc.user;
    var rest := set id | id in db.repos && (id, u) in db.assoc && db.repos[id].provider == p && db.repos[id].hook.Some?;
    captured := [];
    while rest != {}
      invariant forall id :: id in rest ==> HasHook(was, p, u, id)
      invariant db.repos.Keys == was.repos.Keys
      invariant forall id :: id in was.repos ==>
        db.repos[id] == if HasHook(was, p, u, id) && id !in rest then was.repos[id].MarkedDisabled() else was.repos[id]
      invariant forall e :: e in captured <==>
        exists id :: CapturedFrom(was, p, u, e, id) && id !in rest
      decreases rest
    {
      var id :| id in rest;
      if db.repos[id].Enabled() {
        captured := captured + [CaptureOf(db.repos[id])];
      }
      ghost var now := CaptureOf(db.repos[id]);
      assert forall e :: CapturedFrom(was, p, u, e, id) <==> e == now && db.repos[id].Enabled();
      svc.MarkRepoDisabled(id);
      rest := rest - {id};
    }
  }

  /** How one attempt of the cleanup ended: the remote it left, and whether it reached the revocation of the token. */
  datatype Cleanup = Cleanup(world: World, revoked: bool)

  /** What an attempt meets: the repositories whose calls raise, and those whose delete request is refused. */
  datatype Weather = Weather(outage: set<string>, refused: set<string>)

  /** One attempt at tasks.disconnect_provider. Only its remote effects count: its savepoint is never committed. */
  ghost function Clean(db: Db, w: World, u: nat, p: string, list: seq<Captured>, x: Weather): Cleanup
    decreases |list|
  {
    if list == [] then Cleanup(w, true)
    else
      var (r, h) := list[0];
      if r in x.outage then Cleanup(w, false)
      else
        var e := Disable(db, w, u, p, r, Some(h), r !in x.refused);
        if e.result.Raised? then Cleanup(w, false) else Clean(e.db, e.world, u, p, list[1..], x)
  }

  /** The captured entry can be walked over: its repository is still the user's, the provider answers, and, where
      the hooks can be seen, the hook column was a number. */
  ghost predicate Walkable(db: Db, w: World, u: nat, p: string, e: Captured, x: Weather) {
    && e.0 !in x.outage && AvailableRow(db, p, u, e.0).Some?
    && !ReachOf(w, u, e.0).Denied? && (ReachOf(w, u, e.0).Full? ==> e.1.Digits?)
  }

  method DisconnectProvider(svc: VCSService, list: seq<Captured>, x: Weather) returns (revoked: bool)
    requires Valid(svc.db.Snap())
    modifies svc.db`repos, svc.vcs`hooks
    ensures svc.db.Snap() == old(svc.db.Snap())
    ensures Cleanup(svc.vcs.Snap(), revoked)
      == Clean(old(svc.db.Snap()), old(svc.vcs.Snap()), svc.user, svc.provider, list, x)
  {
    var savepoint := svc.db.repos;
    revoked := DisableAll(svc, list, x);
    svc.db.repos := savepoint;
  }

  /** The body of the savepoint; true when the walk got through to the revocation of the token. */
  method DisableAll(svc: VCSService, list: seq<Captured>, x: Weather) returns (walked: bool)
    requires Valid(svc.db.Snap())
    modifies svc.db`repos, svc.vcs`hooks
    ensures Cleanup(svc.vcs.Snap(), walked)
      == Clean(old(svc.db.Snap()), old(svc.vcs.Snap()), svc.user, svc.provider, list, x)
  {
    ghost var p, u := svc.provider, svc.user;
    ghost var whole := Clean(svc.db.Snap(), svc.vcs.Snap(), u, p, list, x);
    assert list[0..] == list;
    for i := 0 to |list|
      invariant Valid(svc.db.Snap())
      invariant Clean(svc.db.Snap(), svc.vcs.Snap(), u, p, list[i..], x) == whole
    {
      ghost var d, w := svc.db.Snap(), svc.vcs.Snap();
      var (r, h) := list[i];
      FirstOfRest(d, w, u, p, list, i, x);
      if r in x.outage {
        return false;
      }
      DisableValid(d, w, u, p, r, Some(h), r !in x.refused);
      // the answer is only logged
      var res := svc.DisableRepository(r, Some(h), r !in x.refused);
      if res.Raised? {
        return false;
      }
    }
    return true;
  }

  /** One entry of the walk. */
  lemma {:induction false} FirstOfRest(db: Db, w: World, u: nat, p: string, list: seq<Captured>, i: nat, x: Weather)
    requires i < |list|
    ensures var r, e := list[i].0, Disable(db, w, u, p, list[i].0, Some(list[i].1), list[i].0 !in x.refused);
      Clean(db, w, u, p, list[i..], x)
      == if r in x.outage || e.result.Raised? then Cleanup(w, false)
         else Clean(e.db, e.world, u, p, list[i + 1..], x)
  {
    assert list[i..][0] == list[i] && list[i..][1..] == list[i + 1..];
  }

  /** Disabling moves no key and no association. */
  lemma DisableValid(db: Db, w: World, u: nat, p: string, r: string, hook: Option<HookText>, ok: bool)
    requires Valid(db)
    ensures var d := Disable(db, w, u, p, r, hook, ok).db;
      && Valid(d) && d.assoc == db.assoc
      && (forall s :: AvailableRow(d, p, u, s) == AvailableRow(db, p, u, s))
  {
    var d := Disable(db, w, u, p, r, hook, ok).db;
    forall s: string
      ensures AvailableRow(d, p, u, s) == AvailableRow(db, p, u, s)
    {
      assert forall id: nat :: HasKey(d, id, p, s) <==> HasKey(db, id, p, s);
    }
  }

  // ---------- what the cleanup achieves ----------

  /** The number of entries that an attempt walks over before one stops it. */
  ghost function Walked(db: Db, w: World, u: nat, p: string, list: seq<Captured>, x: Weather): (k: nat)
    ensures k <= |list| && forall i :: 0 <= i < k ==> Walkable(db, w, u, p, list[i], x)
    ensures k < |list| ==> !Walkable(db, w, u, p, list[k], x)
    decreases |list|
  {
    if list == [] || !Walkable(db, w, u, p, list[0], x) then 0 else 1 + Walked(db, w, u, p, list[1..], x)
  }

  /** The user sees the hooks of r, and the remote agrees to delete them. */
  predicate Granted(w: World, u: nat, x: Weather, r: string) {
    ReachOf(w, u, r).Full? && r !in x.refused
  }

  /** The attempt asks for the deletion of hook n of r, and is granted it. */
  predicate Deletes(w: World, u: nat, walked: seq<Captured>, x: Weather, r: string, n: nat) {
    (r, Digits(n)) in walked && Granted(w, u, x, r)
  }

  /** From w to w', exactly the hooks whose deletion was granted are gone; everything else is as it was. */
  ghost predicate CleanedTo(w: World, w': World, u: nat, walked: seq<Captured>, x: Weather) {
    && w' == w.(hooks := w'.hooks)
    && forall r, n ::
         && (n in HooksOf(w', r) <==> n in HooksOf(w, r) && !Deletes(w, u, walked, x, r, n))
         && (n in HooksOf(w', r) ==> HooksOf(w', r)[n] == HooksOf(w, r)[n])
  }

  lemma {:induction false} EntryCleaned(db: Db, w: World, u: nat, p: string, e: Captured, x: Weather)
    requires e.0 !in x.outage
    ensures var d := Disable(db, w, u, p, e.0, Some(e.1), e.0 !in x.refused);
      && (d.result.Raised? <==> !Walkable(db, w, u, p, e, x))
      && (!d.result.Raised? ==> CleanedTo(w, d.world, u, [e], x))
  {
    if e.1.Digits? {
      DeleteOurs(w, e.0, e.1.n);
      assert (e.0, Digits(e.1.n)) in [e];
    }
  }

  lemma {:induction false} ChainCleaned(w: World, w1: World, w2: World, u: nat, e: Captured, walked: seq<Captured>,
                                        x: Weather)
    requires CleanedTo(w, w1, u, [e], x) && CleanedTo(w1, w2, u, walked, x)
    ensures CleanedTo(w, w2, u, [e] + walked, x)
  {
  }

  /** An attempt whose first entry can be walked over does so and goes on; any other stops at once. */
  lemma {:induction false} FirstWalked(db: Db, w: World, u: nat, p: string, list: seq<Captured>, x: Weather)
    returns (d: Effect)
    requires Valid(db) && list != [] && Walkable(db, w, u, p, list[0], x)
    ensures d == Disable(db, w, u, p, list[0].0, Some(list[0].1), list[0].0 !in x.refused)
    ensures Clean(db, w, u, p, list, x) == Clean(d.db, d.world, u, p, list[1..], x)
    ensures Valid(d.db) && CleanedTo(w, d.world, u, [list[0]], x)
    ensures forall s :: AvailableRow(d.db, p, u, s) == AvailableRow(db, p, u, s)
  {
    var e := list[0];
    d := Disable(db, w, u, p, e.0, Some(e.1), e.0 !in x.refused);
    EntryCleaned(db, w, u, p, e, x);
    DisableValid(db, w, u, p, e.0, Some(e.1), e.0 !in x.refused);
  }

  lemma {:induction false} StoppedAtOnce(db: Db, w: World, u: nat, p: string, list: seq<Captured>, x: Weather)
    requires list != [] && !Walkable(db, w, u, p, list[0], x)
    ensures Clean(db, w, u, p, list, x) == Cleanup(w, false)
  {
    var e := list[0];
    if e.0 !in x.outage {
      EntryCleaned(db, w, u, p, e, x);
      DeletionCases(w, u, e.0, Some(e.1), e.0 !in x.refused);
    }
  }

  /** The remote after any attempt, complete or not: what is gone is what was gone, and the captured hooks of the
      entries walked over that the user sees and the remote agrees to delete. The token is revoked exactly when
      every entry was walked over. */
  lemma {:induction false} CleanExactly(db: Db, w: World, u: nat, p: string, list: seq<Captured>, x: Weather)
    requires Valid(db)
    ensures var c, k := Clean(db, w, u, p, list, x), Walked(db, w, u, p, list, x);
      CleanedTo(w, c.world, u, list[..k], x) && (c.revoked <==> k == |list|)
    decreases |list|
  {
    if list != [] {
      if Walkable(db, w, u, p, list[0], x) {
        var d := FirstWalked(db, w, u, p, list, x);
        CleanExactly(d.db, d.world, u, p, list[1..], x);
        CleanedFurther(db, w, d, u, p, list, x);
      } else {
        StoppedAtOnce(db, w, u, p, list, x);
      }
    }
  }

  lemma {:induction false} CleanedFurther(db: Db, w: World, d: Effect, u: nat, p: string, list: seq<Captured>,
                                          x: Weather)
    requires list != [] && Walkable(db, w, u, p, list[0], x) && CleanedTo(w, d.world, u, [list[0]], x)
    requires forall s :: AvailableRow(d.db, p, u, s) == AvailableRow(db, p, u, s)
    requires CleanedTo(d.world, Clean(d.db, d.world, u, p, list[1..], x).world, u,
                       list[1..][..Walked(d.db, d.world, u, p, list[1..], x)], x)
    ensures CleanedTo(w, Clean(d.db, d.world, u, p, list[1..], x).world, u, list[..Walked(db, w, u, p, list, x)], x)
    ensures Walked(db, w, u, p, list, x) == 1 + Walked(d.db, d.world, u, p, list[1..], x)
  {
    var rest := list[1..];
    SameWalk(db, w, d.db, d.world, u, p, rest, x);
    var k := Walked(db, w, u, p, rest, x);
    ChainCleaned(w, d.world, Clean(d.db, d.world, u, p, rest, x).world, u, list[0], rest[..k], x);
    assert list[..k + 1] == [list[0]] + rest[..k];
  }

  /** The walk depends on the user's repositories and reach only. */
  lemma {:induction false} SameWalk(db: Db, w: World, d: Db, w': World, u: nat, p: string, list: seq<Captured>,
                                    x: Weather)
    requires w'.reach == w.reach && forall s :: AvailableRow(d, p, u, s) == AvailableRow(db, p, u, s)
    ensures Walked(d, w', u, p, list, x) == Walked(db, w, u, p, list, x)
    decreases |list|
  {
    if list != [] {
      assert Walkable(d, w', u, p, list[0], x) <==> Walkable(db, w, u, p, list[0], x);
      SameWalk(db, w, d, w', u, p, list[1..], x);
    }
  }

  /** The token is revoked exactly when every captured entry can be walked over. */
  lemma {:induction false} RevokedWhenWalked(db: Db, w: World, u: nat, p: string, list: seq<Captured>, x: Weather)
    requires Valid(db)
    ensures Clean(db, w, u, p, list, x).revoked <==> forall e :: e in list ==> Walkable(db, w, u, p, e, x)
  {
    CleanExactly(db, w, u, p, list, x);
    var k := Walked(db, w, u, p, list, x);
    if k < |list| {
      assert list[k] in list;
    }
  }

  predicate Gone(w: World, e: Captured) {
    e.1.Digits? ==> e.1.n !in HooksOf(w, e.0)
  }

  /** A revoked token does not mean that the hooks are gone: after an attempt that got through, all captured hooks are
      gone exactly if those that existed were on repositories the user sees and the remote agreed to delete them. */
  lemma {:induction false} RevokedAndGone(db: Db, w: World, u: nat, p: string, list: seq<Captured>, x: Weather)
    requires Valid(db) && Clean(db, w, u, p, list, x).revoked
    ensures (forall e :: e in list ==> Gone(Clean(db, w, u, p, list, x).world, e)) <==>
      forall e :: e in list && !Gone(w, e) ==> Granted(w, u, x, e.0)
  {
    CleanExactly(db, w, u, p, list, x);
    var w' := Clean(db, w, u, p, list, x).world;
    assert list[..|list|] == list;
    forall e | e in list
      ensures Gone(w', e) <==> Gone(w, e) || Granted(w, u, x, e.0)
    {
      if e.1.Digits? {
        assert e == (e.0, Digits(e.1.n));
        assert e.1.n in HooksOf(w', e.0) <==> e.1.n in HooksOf(w, e.0) && !Deletes(w, u, list, x, e.0, e.1.n);
      }
    }
  }

  /** An attempt leaves an enabled row without its hook exactly when it deletes a hook that a row names, as one that
      another user's hook sync enabled again does. */
  lemma {:induction false} CleanupBreaksLink(db: Db, w: World, u: nat, p: string, list: seq<Captured>, x: Weather)
    requires Valid(db) && LiveHooks(db, w, p)
    ensures LiveHooks(db, Clean(db, w, u, p, list, x).world, p) <==>
      forall r, n :: Deletes(w, u, list[..Walked(db, w, u, p, list, x)], x, r, n) ==> !Named(db, p, r, n)
  {
    var w', done := Clean(db, w, u, p, list, x).world, list[..Walked(db, w, u, p, list, x)];
    CleanExactly(db, w, u, p, list, x);
    LiveUnlessNamed(db, w, w', p);
    forall r, n | Named(db, p, r, n)
      ensures Ours(w, r, n) && (Ours(w', r, n) <==> !Deletes(w, u, done, x, r, n))
    {
      var id :| HasKey(db, id, p, r) && db.repos[id].hook == Some(Digits(n));
      assert LiveRow(db.repos[id], w);
    }
  }

  /** b is a without the entry for k. */
  ghost predicate Dropped<K(!new), V>(a: map<K, V>, b: map<K, V>, k: K) {
    (forall x :: x in b <==> x in a && x != k) && forall x :: x in b ==> b[x] == a[x]
  }

  /** The handler blanks exactly the user's rows of the provider with a hook, unlinks the account, drops the user's last
      sync there, and changes nothing else. So nothing the user has carries a hook, and, where the rows were
      well-formed, no enabler or community either; and the tables still fit the remote. */
  lemma HandlerForgets(db: Db, w: World, p: string, u: nat, ext: Option<string>)
    requires Valid(db)
    ensures var d := AfterHandler(db, p, u, ext);
      && Valid(d) && (LiveHooks(db, w, p) ==> LiveHooks(d, w, p))
      && d.repos.Keys == db.repos.Keys && d.assoc == db.assoc && d.nextId == db.nextId
      && (forall id :: id in db.repos ==>
            if db.repos[id].provider == p && (id, u) in db.assoc && db.repos[id].hook.Some?
            then Blanked(db.repos[id], d.repos[id]) else d.repos[id] == db.repos[id])
      && (if ext.Some? then Dropped(db.identities, d.identities, (p, ext.value)) else d.identities == db.identities)
      && Dropped(db.lastSync, d.lastSync, (p, u))
      && (forall id :: id in db.repos && db.repos[id].provider == p && (id, u) in db.assoc ==>
            && d.repos[id].hook.None?
            && (db.repos[id].WellFormed() ==> d.repos[id].enabledBy.None? && d.repos[id].community.None?))
  {
  }
}
