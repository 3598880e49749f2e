/** Whole synchronisation rounds of one user: a sync, then the batch tasks it dispatched, in any order. */
module Rounds {
  import opened Domain
  import opened Tables
  import opened Provider
  import opened SyncSpec
  import opened Confluence
  import opened Convergence

  /** The documented contract between list_repositories and list_repository_user_ids, for a user u who
      linked the external account `ext`: a repository is in u's listing exactly when its admin list, which u
      can read, names `ext`. Admin lists do not repeat, and a local user links one account per provider. */
  ghost predicate Contract(db: Db, w: World, p: string, u: nat, ext: string) {
    && Distinct(Ids(Listing(w, u)))
    && (p, ext) in db.identities && db.identities[(p, ext)] == u
    && OneAccountEach(db.identities, p)
    && (forall r :: r in w.admins ==> Distinct(w.admins[r]))
    && (forall r :: r in Ids(Listing(w, u)) <==> r in w.admins && ext in w.admins[r])
    && (forall r :: r in Ids(Listing(w, u)) ==> ReachOf(w, u, r).Full?)
  }

  ghost predicate OneAccountEach(identities: map<(string, string), nat>, p: string) {
    forall a, b :: (p, a) in identities && (p, b) in identities && identities[(p, a)] == identities[(p, b)] ==> a == b
  }

  predicate CoversMembers(w: World, u: nat, ts: seq<TaskStep>) {
    forall r :: r in Ids(Listing(w, u)) ==> MemberStep(u, r) in ts
  }

  ghost function Round(db: Db, w: World, p: string, u: nat, now: nat, ts: seq<TaskStep>): Db {
    Run(Sync(db, p, u, Listing(w, u), now), w, p, ts)
  }

  lemma {:induction false} ResolveMembers(identities: map<(string, string), nat>, p: string, ids: seq<string>, v: nat)
    ensures v in Resolve(identities, p, ids) <==>
      exists k :: 0 <= k < |ids| && (p, ids[k]) in identities && identities[(p, ids[k])] == v
  {
    if ids != [] {
      var rest := ids[..|ids| - 1];
      ResolveMembers(identities, p, rest, v);
      assert forall k :: 0 <= k < |rest| ==> rest[k] == ids[k];
    }
  }

  lemma {:induction false} ResolveDistinct(identities: map<(string, string), nat>, p: string, ids: seq<string>)
    requires Distinct(ids) && OneAccountEach(identities, p)
    ensures Distinct(Resolve(identities, p, ids))
  {
    if ids != [] {
      var rest, last := ids[..|ids| - 1], ids[|ids| - 1];
      ResolveDistinct(identities, p, rest);
      if (p, last) in identities {
        ResolveMembers(identities, p, rest, identities[(p, last)]);
      }
    }
  }

  /** Under the contract no members step collides, and u is among a repository's admins exactly when it is listed. */
  lemma ContractAdmins(db: Db, w: World, p: string, u: nat, ext: string, r: string)
    requires Contract(db, w, p, u, ext)
    ensures Distinct(Admins(db, w, p, r))
    ensures u in Admins(db, w, p, r) <==> r in Ids(Listing(w, u))
  {
    var ids := if r in w.admins then w.admins[r] else [];
    ResolveDistinct(db.identities, p, ids);
    ResolveMembers(db.identities, p, ids, u);
    if r in Ids(Listing(w, u)) {
      var k :| 0 <= k < |ids| && ids[k] == ext;
      assert (p, ids[k]) in db.identities && db.identities[(p, ids[k])] == u;
    }
  }

  lemma SyncKeepsContract(db: Db, w: World, p: string, u: nat, ext: string, now: nat)
    requires Valid(db) && Contract(db, w, p, u, ext)
    ensures Valid(Sync(db, p, u, Listing(w, u), now)) && Contract(Sync(db, p, u, Listing(w, u), now), w, p, u, ext)
  {
    SyncRefines(db, p, u, Listing(w, u), now);
  }

  lemma RoundKeepsContract(db: Db, w: World, p: string, u: nat, ext: string, now: nat, ts: seq<TaskStep>)
    requires Valid(db) && Contract(db, w, p, u, ext)
    ensures Valid(Round(db, w, p, u, now, ts)) && Contract(Round(db, w, p, u, now, ts), w, p, u, ext)
  {
    SyncKeepsContract(db, w, p, u, ext, now);
    RunValid(Sync(db, p, u, Listing(w, u), now), w, p, ts);
    RunSameRows(Sync(db, p, u, Listing(w, u), now), w, p, ts);
  }

  /** A members step by a user who reaches the repository decides the row's association with anyone. */
  lemma MembersDecided(d: Db, w: World, p: string, u: nat, ts: seq<TaskStep>, id: nat, v: nat)
    requires Valid(d) && id in d.repos && d.repos[id].provider == p
    requires Distinct(Admins(d, w, p, d.repos[id].providerId))
    requires MemberStep(u, d.repos[id].providerId) in ts && ReachOf(w, u, d.repos[id].providerId).Full?
    ensures (id, v) in Run(d, w, p, ts).assoc <==> v in Admins(d, w, p, d.repos[id].providerId)
  {
    RunSettlesMembers(d, w, p, ts);
    assert MembersReplaced(d, w, p, StepSet(ts), id);
    assert AssocAfter(d, w, p, StepSet(ts), id, v) <==> v in Admins(d, w, p, d.repos[id].providerId);
  }

  /** Any run leaves each association as it was, or as the admin list says. */
  lemma MembersDecidedOrKept(d: Db, w: World, p: string, ts: seq<TaskStep>, id: nat, v: nat)
    requires Valid(d) && id in d.repos && (id, v) in Run(d, w, p, ts).assoc
    ensures (id, v) in d.assoc || (d.repos[id].provider == p && v in Admins(d, w, p, d.repos[id].providerId))
  {
    RunSettlesMembers(d, w, p, ts);
    assert AssocAfter(d, w, p, StepSet(ts), id, v);
  }

  lemma RunKeepsRows(d: Db, w: World, p: string, ts: seq<TaskStep>)
    requires Valid(d)
    ensures SameRows(d, Run(d, w, p, ts))
    ensures forall r :: Lookup(Run(d, w, p, ts), p, r) == Lookup(d, p, r)
  {
    RunSameRows(d, w, p, ts);
    forall r: string
      ensures Lookup(Run(d, w, p, ts), p, r) == Lookup(d, p, r)
    {
      SameLookup(d, Run(d, w, p, ts), p, r);
    }
  }

  lemma ListedEntry(xs: seq<GenericRepository>, r: string)
    requires r in Ids(xs)
    ensures exists g :: g in xs && g.id == r
  {
    var k :| 0 <= k < |xs| && Ids(xs)[k] == r;
    assert xs[k] in xs && xs[k].id == r;
  }

  lemma EntryListed(xs: seq<GenericRepository>, g: GenericRepository)
    requires g in xs
    ensures g.id in Ids(xs)
  {
    var k :| 0 <= k < |xs| && xs[k] == g;
    assert Ids(xs)[k] == g.id;
  }

  /** After a round, every listed repository is registered and associated with the user. */
  lemma RoundAssociates(db: Db, w: World, p: string, u: nat, ext: string, now: nat, ts: seq<TaskStep>, r: string)
    returns (id: nat)
    requires Valid(db) && Contract(db, w, p, u, ext) && CoversMembers(w, u, ts)
    requires r in Ids(Listing(w, u))
    ensures Lookup(Sync(db, p, u, Listing(w, u), now), p, r) == Some(id)
    ensures Lookup(Round(db, w, p, u, now, ts), p, r) == Some(id)
    ensures (id, u) in Round(db, w, p, u, now, ts).assoc
  {
    var d := Sync(db, p, u, Listing(w, u), now);
    SyncRefines(db, p, u, Listing(w, u), now);
    SyncKeepsContract(db, w, p, u, ext, now);
    ListedEntry(Listing(w, u), r);
    id := Lookup(d, p, r).value;
    assert HasKey(d, id, p, r);
    ContractAdmins(d, w, p, u, ext, r);
    MembersDecided(d, w, p, u, ts, id, u);
    RunKeepsRows(d, w, p, ts);
  }

  /** The association cache agrees with the remote: once the sync and all its members tasks went through, in any
      order and among any other users' members tasks, the user's repositories are exactly the listed ones. */
  lemma AssociationsConverge(db: Db, w: World, p: string, u: nat, ext: string, now: nat, ts: seq<TaskStep>)
    requires Valid(db) && Contract(db, w, p, u, ext) && CoversMembers(w, u, ts)
    ensures Available(Round(db, w, p, u, now, ts), p, u) == set r | r in Ids(Listing(w, u))
  {
    var d, e := Sync(db, p, u, Listing(w, u), now), Round(db, w, p, u, now, ts);
    forall r | r in Ids(Listing(w, u))
      ensures r in Available(e, p, u)
    {
      var id := RoundAssociates(db, w, p, u, ext, now, ts, r);
      assert (id, u) in e.assoc && HasKey(e, id, p, r);
    }
    forall r | r in Available(e, p, u)
      ensures r in Ids(Listing(w, u))
    {
      var x :| x in e.assoc && x.1 == u && x.0 in e.repos && e.repos[x.0].provider == p && e.repos[x.0].providerId == r;
      AvailableIsListed(db, w, p, u, ext, now, ts, x.0);
    }
  }

  /** Straight after a sync, the user has no repository that is not listed. */
  lemma SyncedIsListed(db: Db, p: string, u: nat, xs: seq<GenericRepository>, now: nat, id: nat)
    requires Valid(db)
    requires var d := Sync(db, p, u, xs, now); (id, u) in d.assoc && id in d.repos && d.repos[id].provider == p
    ensures Sync(db, p, u, xs, now).repos[id].providerId in Ids(xs)
  {
    SyncRefines(db, p, u, xs, now);
    var d := Sync(db, p, u, xs, now);
    if id in db.repos {
      assert !Stale(db, (id, u), p, u, Ids(xs));
    } else {
      var g :| g in xs && NewFor(d.repos[id], p, g);
      EntryListed(xs, g);
    }
  }

  lemma NewRowListed(db: Db, p: string, u: nat, xs: seq<GenericRepository>, now: nat, id: nat)
    returns (g: GenericRepository)
    requires Valid(db) && id in Sync(db, p, u, xs, now).repos && id !in db.repos
    ensures g in xs && NewFor(Sync(db, p, u, xs, now).repos[id], p, g)
  {
    SyncRefines(db, p, u, xs, now);
    g :| g in xs && NewFor(Sync(db, p, u, xs, now).repos[id], p, g);
  }

  /** A provider that answers no listing counts as one that lists nothing: the user loses every repository there. No row
      changes, and nobody else loses any. */
  lemma NoListingDropsAll(db: Db, w: World, p: string, u: nat, now: nat)
    requires Valid(db) && u !in w.listings
    ensures var d := Sync(db, p, u, Listing(w, u), now);
      && Available(d, p, u) == {} && d.repos == db.repos
      && forall id: nat, v: nat :: v != u ==> ((id, v) in d.assoc <==> (id, v) in db.assoc)
  {
    var d := Sync(db, p, u, Listing(w, u), now);
    SyncRefines(db, p, u, Listing(w, u), now);
    if id :| id in d.repos && id !in db.repos {
      var g := NewRowListed(db, p, u, Listing(w, u), now, id);
      assert false;
    }
    forall x | x in d.assoc && x.1 == u && x.0 in d.repos
      ensures d.repos[x.0].provider != p
    {
      assert x == (x.0, u);
    }
  }

  lemma AvailableIsListed(db: Db, w: World, p: string, u: nat, ext: string, now: nat, ts: seq<TaskStep>, id: nat)
    requires Valid(db) && Contract(db, w, p, u, ext)
    requires var e := Round(db, w, p, u, now, ts); (id, u) in e.assoc && id in e.repos && e.repos[id].provider == p
    ensures Round(db, w, p, u, now, ts).repos[id].providerId in Ids(Listing(w, u))
  {
    var d := Sync(db, p, u, Listing(w, u), now);
    SyncKeepsContract(db, w, p, u, ext, now);
    RunKeepsRows(d, w, p, ts);
    MembersDecidedOrKept(d, w, p, ts, id, u);
    if (id, u) in d.assoc {
      SyncedIsListed(db, p, u, Listing(w, u), now, id);
    } else {
      ContractAdmins(d, w, p, u, ext, d.repos[id].providerId);
    }
  }

  /** How far one round brings the metadata: a listed repository shows the remote's name, branch and description
      exactly when it was new to the database, or the user already had it, or it showed them before. */
  lemma OneRoundMetadata(db: Db, w: World, p: string, u: nat, ext: string, now: nat, ts: seq<TaskStep>, r: string)
    returns (id: nat)
    requires Valid(db) && Contract(db, w, p, u, ext) && CoversMembers(w, u, ts)
    requires r in Ids(Listing(w, u))
    ensures Lookup(Round(db, w, p, u, now, ts), p, r) == Some(id)
    ensures var g := Find(Listing(w, u), r).value;
      Round(db, w, p, u, now, ts).repos[id].Shows(g) <==>
        match Lookup(db, p, r)
        case None => true
        case Some(k) => (k, u) in db.assoc || db.repos[k].Shows(g)
  {
    id := RoundAssociates(db, w, p, u, ext, now, ts, r);
    var d := Sync(db, p, u, Listing(w, u), now);
    SyncRefines(db, p, u, Listing(w, u), now);
    RunKeepsRows(d, w, p, ts);
    SyncMetadata(db, p, u, Listing(w, u), now, r, id);
  }

  lemma SyncMetadata(db: Db, p: string, u: nat, xs: seq<GenericRepository>, now: nat, r: string, id: nat)
    requires Valid(db) && Distinct(Ids(xs)) && r in Ids(xs) && Lookup(Sync(db, p, u, xs, now), p, r) == Some(id)
    ensures Sync(db, p, u, xs, now).repos[id].Shows(Find(xs, r).value) <==>
      match Lookup(db, p, r)
      case None => true
      case Some(k) => (k, u) in db.assoc || db.repos[k].Shows(Find(xs, r).value)
  {
    SyncRefines(db, p, u, xs, now);
    var d := Sync(db, p, u, xs, now);
    assert HasKey(d, id, p, r);
    if Lookup(db, p, r).Some? {
      assert HasKey(d, Lookup(db, p, r).value, p, r);
    }
    if id in db.repos {
      assert HasKey(db, id, p, r);
    } else {
      var g :| g in xs && NewFor(d.repos[id], p, g) && Lookup(db, p, g.id).None?;
      SameEntry(xs, g, Find(xs, r).value);
    }
  }

  lemma SameEntry(xs: seq<GenericRepository>, g: GenericRepository, h: GenericRepository)
    requires Distinct(Ids(xs)) && g in xs && h in xs && g.id == h.id
    ensures g == h
  {
    var i :| 0 <= i < |xs| && xs[i] == g;
    var j :| 0 <= j < |xs| && xs[j] == h;
    assert Ids(xs)[i] == Ids(xs)[j];
  }

  /** Two rounds are enough: every listed repository then shows what the remote says. */
  lemma TwoRoundsRefresh(db: Db, w: World, p: string, u: nat, ext: string, n1: nat, t1: seq<TaskStep>,
                         n2: nat, t2: seq<TaskStep>, r: string) returns (id: nat)
    requires Valid(db) && Contract(db, w, p, u, ext) && r in Ids(Listing(w, u))
    requires CoversMembers(w, u, t1) && CoversMembers(w, u, t2)
    ensures var r2 := Round(Round(db, w, p, u, n1, t1), w, p, u, n2, t2);
      && Lookup(r2, p, r) == Some(id) && (id, u) in r2.assoc
      && r2.repos[id].Shows(Find(Listing(w, u), r).value)
  {
    var r1 := Round(db, w, p, u, n1, t1);
    RoundKeepsContract(db, w, p, u, ext, n1, t1);
    var k := RoundAssociates(db, w, p, u, ext, n1, t1, r);
    var i := RoundAssociates(r1, w, p, u, ext, n2, t2, r);
    id := OneRoundMetadata(r1, w, p, u, ext, n2, t2, r);
  }

  /** And a third round changes nothing but the time of the last sync. */
  lemma ThirdRoundChangesNothing(db: Db, w: World, p: string, u: nat, ext: string, n1: nat, t1: seq<TaskStep>,
                                 n2: nat, t2: seq<TaskStep>, n3: nat, t3: seq<TaskStep>)
    requires Valid(db) && Contract(db, w, p, u, ext) && StepSet(t3) <= StepSet(t2)
    requires CoversMembers(w, u, t1) && CoversMembers(w, u, t2) && HookStepsOf(u, StepSet(t2))
    ensures var r2 := Round(Round(db, w, p, u, n1, t1), w, p, u, n2, t2);
      Round(r2, w, p, u, n3, t3) == r2.(lastSync := r2.lastSync[(p, u) := n3])
  {
    var r1 := Round(db, w, p, u, n1, t1);
    RoundKeepsContract(db, w, p, u, ext, n1, t1);
    var r2 := Round(r1, w, p, u, n2, t2);
    RoundKeepsContract(r1, w, p, u, ext, n2, t2);
    forall g | g in Listing(w, u)
      ensures exists id :: Lookup(r2, p, g.id) == Some(id) && r2.repos[id].Shows(g)
    {
      var k :| 0 <= k < |Listing(w, u)| && Listing(w, u)[k] == g;
      assert Ids(Listing(w, u))[k] == g.id;
      var id := TwoRoundsRefresh(db, w, p, u, ext, n1, t1, n2, t2, g.id);
      SameEntry(Listing(w, u), g, Find(Listing(w, u), g.id).value);
    }
    forall id | id in r2.repos && r2.repos[id].provider == p && (id, u) in r2.assoc
      ensures r2.repos[id].providerId in Ids(Listing(w, u))
    {
      AvailableIsListed(r1, w, p, u, ext, n2, t2, id);
    }
    UpToDateSync(r2, p, u, Listing(w, u), n3);
    var s3 := Sync(r2, p, u, Listing(w, u), n3);
    SyncKeepsContract(r1, w, p, u, ext, n2);
    RunsAgain(Sync(r1, p, u, Listing(w, u), n2), w, p, u, ext, t2, s3, t3);
  }

  /** Tables that already follow the listing are not changed by a sync. */
  lemma UpToDateSync(db: Db, p: string, u: nat, xs: seq<GenericRepository>, now: nat)
    requires Valid(db)
    requires forall g :: g in xs ==> exists id :: Lookup(db, p, g.id) == Some(id) && db.repos[id].Shows(g)
    requires forall id :: id in db.repos && db.repos[id].provider == p && (id, u) in db.assoc ==>
      db.repos[id].providerId in Ids(xs)
    ensures Sync(db, p, u, xs, now) == db.(lastSync := db.lastSync[(p, u) := now])
  {
    forall id | id in db.repos
      ensures RefreshedRow(db, id, p, u, xs) == db.repos[id]
    {
      var g := Find(xs, db.repos[id].providerId);
      if g.Some? && db.repos[id].provider == p {
        assert HasKey(db, id, p, g.value.id);
      }
    }
    assert Refresh(db, p, u, xs) == db;
    assert Prune(db, p, u, xs) == db;
    NothingMissing(db, p, u, xs);
  }

  lemma {:induction false} NothingMissing(db: Db, p: string, u: nat, xs: seq<GenericRepository>)
    requires Registered(db, p, xs)
    ensures CreateMissing(db, p, u, xs) == db
  {
    if xs != [] {
      NothingMissing(db, p, u, xs[..|xs| - 1]);
    }
  }

  /** Steps of a run, executed again on its result (with a newer sync time), change nothing. */
  lemma RunsAgain(d: Db, w: World, p: string, u: nat, ext: string, ts: seq<TaskStep>, s: Db, again: seq<TaskStep>)
    requires Valid(d) && Contract(d, w, p, u, ext) && HookStepsOf(u, StepSet(ts)) && StepSet(again) <= StepSet(ts)
    requires Valid(s) && s == Run(d, w, p, ts).(lastSync := s.lastSync)
    ensures Run(s, w, p, again) == s
  {
    var a := StepSet(again);
    RunSettles(d, w, p, u, ts);
    RunSettles(s, w, p, u, again);
    RowsAgain(d, w, p, u, StepSet(ts), s, a);
    forall id | id in d.repos
      ensures Distinct(Admins(d, w, p, d.repos[id].providerId))
    {
      ContractAdmins(d, w, p, u, ext, d.repos[id].providerId);
    }
    MembersAgain(d, w, p, u, StepSet(ts), s, a);
    SettledUnique(s, w, p, u, a, s, Run(s, w, p, again));
  }

  lemma RowsAgain(d: Db, w: World, p: string, u: nat, done: set<TaskStep>, s: Db, again: set<TaskStep>)
    requires SettledRows(d, w, p, u, done, s.(lastSync := d.lastSync)) && again <= done
    ensures SettledRows(s, w, p, u, again, s)
  {
    forall id | id in s.repos
      ensures RowAfter(s, w, p, u, again, id) == s.repos[id]
    {
      assert s.repos[id] == RowAfter(d, w, p, u, done, id);
      var seen := ConfiguredWebhook(w, u, d.repos[id].providerId);
      if seen.Ok? {
        HookedTwice(d.repos[id], u, seen.value);
      }
    }
  }

  lemma ReplacedBefore(d: Db, w: World, p: string, u: nat, done: set<TaskStep>, s: Db, again: set<TaskStep>, id: nat)
    requires SettledRows(d, w, p, u, done, s.(lastSync := d.lastSync)) && again <= done
    requires MembersReplaced(s, w, p, again, id)
    requires id in d.repos ==> Distinct(Admins(d, w, p, d.repos[id].providerId))
    ensures MembersReplaced(d, w, p, done, id) && s.repos[id].providerId == d.repos[id].providerId
  {
    assert s.repos[id] == RowAfter(d, w, p, u, done, id);
    var r := s.repos[id].providerId;
    var a: nat :| MemberStep(a, r) in again && ReachOf(w, a, r).Full?;
    assert MemberStep(a, r) in done;
  }

  lemma MembersAgain(d: Db, w: World, p: string, u: nat, done: set<TaskStep>, s: Db, again: set<TaskStep>)
    requires SettledRows(d, w, p, u, done, s.(lastSync := d.lastSync)) && SettledMembers(d, w, p, done, s)
    requires again <= done && forall id :: id in d.repos ==> Distinct(Admins(d, w, p, d.repos[id].providerId))
    ensures SettledMembers(s, w, p, again, s)
  {
    forall id: nat, v: nat
      ensures AssocAfter(s, w, p, again, id, v) <==> (id, v) in s.assoc
    {
      if MembersReplaced(s, w, p, again, id) {
        ReplacedBefore(d, w, p, u, done, s, again, id);
      }
      assert (id, v) in s.assoc <==> AssocAfter(d, w, p, done, id, v);
    }
  }
}
