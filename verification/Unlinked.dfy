/** What a disconnected user cannot get back, whatever anyone does, short of connecting again. */
module Unlinked {
  import opened Domain
  import opened Tables
  import opened Provider
  import opened SyncSpec
  import opened Convergence
  import opened Confluence
  import opened Rounds
  import opened HookInvariants
  import opened Disconnect
  import opened Handlers
  import opened System
  import opened SystemConvergence

  /** u does not connect an account at p. */
  predicate NoConnect(p: string, u: nat, ts: seq<Step>) {
    forall i :: 0 <= i < |ts| ==> !Connects(p, u, ts[i])
  }

  predicate Connects(p: string, u: nat, t: Step) {
    t.On? && t.provider == p && t.op.ConnectOp? && t.op.user == u
  }

  lemma NotResolved(db: Db, p: string, u: nat, ids: seq<string>)
    requires !HasAccount(db, p, u)
    ensures u !in Resolve(db.identities, p, ids)
  {
    ResolveMembers(db.identities, p, ids, u);
  }

  /** Without an account at p, no operation at p gives u an existing row. */
  lemma ActGivesNothing(db: Db, w: World, p: string, u: nat, op: Operation, id: nat)
    requires Valid(db) && OneHook(w) && !HasAccount(db, p, u) && id in db.repos && (id, u) !in db.assoc
    ensures (id, u) !in Act(db, w, p, op).0.assoc
  {
    match op
    case SyncOp(v, now) => SyncRefines(db, p, v, Listing(w, v), now);
    case BatchOp(MemberStep(a, r)) =>
      MemberStepAssoc(db, w, p, a, r, id, u);
      NotResolved(db, p, u, if r in w.admins then w.admins[r] else []);
    case BatchOp(HookStep(a, r)) => HookStepRow(db, w, p, a, r);
    case EnableOp(v, r, com, edited, _) => EnableMembership(db, w, v, p, r, com, edited);
    case DisableOp(v, r, hook, answered, _) => DisableValid(db, w, v, p, r, hook, answered);
    case _ =>
  }

  lemma StillNoAccount(s: State, c: Config, p: string, u: nat, t: Step)
    requires Valid(s.db) && !HasAccount(s.db, p, u) && !Connects(p, u, t)
    ensures !HasAccount(Next(s, c, t).db, p, u)
  {
    if t.On? && t.provider in s.worlds {
      ActIdentities(s.db, s.worlds[t.provider], t.provider, t.op);
    }
  }

  /** u has no account at p, and not the row id of p. */
  ghost predicate Away(db: Db, p: string, u: nat, id: nat) {
    !HasAccount(db, p, u) && id in db.repos && db.repos[id].provider == p && (id, u) !in db.assoc
  }

  lemma AwayStep(s: State, c: Config, p: string, u: nat, id: nat, t: Step)
    requires Inv(s) && Away(s.db, p, u, id) && !Connects(p, u, t)
    ensures Away(Next(s, c, t).db, p, u, id)
  {
    StillNoAccount(s, c, p, u, t);
    StepKeeps(s, c, t);
    if t.On? && t.provider in s.worlds {
      var q := t.provider;
      if q == p {
        ActGivesNothing(s.db, s.worlds[p], p, u, t.op, id);
      } else {
        ActKeeps(s.db, s.worlds[q], q, t.op);
      }
    }
  }

  /** No steps of anyone give a user without an account an existing row back, unless the user connects again. */
  lemma {:induction false} AwayForGood(s: State, c: Config, p: string, u: nat, id: nat, ts: seq<Step>)
    requires Inv(s) && Away(s.db, p, u, id) && NoConnect(p, u, ts)
    ensures Away(StateAfter(s, c, ts).db, p, u, id)
  {
    if ts != [] {
      assert NoConnect(p, u, ts[..|ts| - 1]);
      AwayForGood(s, c, p, u, id, ts[..|ts| - 1]);
      RunInv(s, c, ts[..|ts| - 1]);
      AwayStep(StateAfter(s, c, ts[..|ts| - 1]), c, p, u, id, ts[|ts| - 1]);
    }
  }

  lemma {:induction false} AccountsInRuns(s: State, c: Config, p: string, u: nat, ts: seq<Step>)
    requires Inv(s) && !HasAccount(s.db, p, u) && OneAccountEach(s.db.identities, p) && NoConnect(p, u, ts)
    ensures var d := StateAfter(s, c, ts).db; !HasAccount(d, p, u) && OneAccountEach(d.identities, p)
  {
    if ts != [] {
      assert NoConnect(p, u, ts[..|ts| - 1]);
      AccountsInRuns(s, c, p, u, ts[..|ts| - 1]);
      RunInv(s, c, ts[..|ts| - 1]);
      StillNoAccount(StateAfter(s, c, ts[..|ts| - 1]), c, p, u, ts[|ts| - 1]);
      OneAccountStep(StateAfter(s, c, ts[..|ts| - 1]), c, p, ts[|ts| - 1]);
    }
  }

  /** A members step that reaches the row takes it from a user without an account. */
  lemma MemberStepTakes(db: Db, w: World, p: string, u: nat, id: nat, v: nat, r: string)
    requires Valid(db) && HasKey(db, id, p, r) && !HasAccount(db, p, u) && OneAccountEach(db.identities, p)
    requires ReachOf(w, v, r).Full? && (r in w.admins ==> Distinct(w.admins[r]))
    ensures Away(Apply(db, w, p, MemberStep(v, r)), p, u, id)
  {
    var ids := if r in w.admins then w.admins[r] else [];
    NotResolved(db, p, u, ids);
    ResolveDistinct(db.identities, p, ids);
    MemberStepAssoc(db, w, p, v, r, id, u);
    assert Lookup(db, p, r) == Some(id);
    StepSameRows(db, w, p, MemberStep(v, r));
  }

  /** Without the row of a captured entry, no attempt at the cleanup revokes the token. */
  lemma AwayBlocksCleanup(db: Db, w: World, p: string, u: nat, id: nat, list: seq<Captured>, e: Captured, x: Weather)
    requires Valid(db) && Away(db, p, u, id) && e in list && e.0 == db.repos[id].providerId
    ensures !Clean(db, w, u, p, list, x).revoked
  {
    assert HasKey(db, id, p, e.0) && Lookup(db, p, e.0) == Some(id);
    RevokedWhenWalked(db, w, u, p, list, x);
    assert !Walkable(db, w, u, p, e, x);
  }

  lemma DisconnectedHasNone(s: State, c: Config, p: string, u: nat, ext: string)
    requires p in s.worlds && OneAccountEach(s.db.identities, p) && Unlinks(s.db, p, u, Some(ext))
    ensures var d := Next(s, c, On(p, DisconnectOp(u, Some(ext)))).db;
      !HasAccount(d, p, u) && OneAccountEach(d.identities, p)
  {
    OneFewer(s.db.identities, p, (p, ext));
  }

  /** After the members step and any further steps, the row is there and u does not have it. */
  lemma TakenForGood(s: State, c: Config, p: string, u: nat, id: nat, r: string, v: nat, after: seq<Step>)
    requires Inv(s) && p in s.worlds && HasKey(s.db, id, p, r) && NoConnect(p, u, after)
    requires !HasAccount(s.db, p, u) && OneAccountEach(s.db.identities, p)
    requires ReachOf(s.worlds[p], v, r).Full? && (r in s.worlds[p].admins ==> Distinct(s.worlds[p].admins[r]))
    ensures var z := StateAfter(s, c, [On(p, BatchOp(MemberStep(v, r)))] + after);
      Valid(z.db) && Away(z.db, p, u, id) && HasKey(z.db, id, p, r)
  {
    var taken := On(p, BatchOp(MemberStep(v, r)));
    var z := Next(s, c, taken);
    StepKeeps(s, c, taken);
    MemberStepTakes(s.db, s.worlds[p], p, u, id, v, r);
    AwayForGood(z, c, p, u, id, after);
    RunInv(z, c, after);
    StateAfterCons(s, c, taken, after);
  }

  /** After the disconnect and any further steps, u has no account, and the row is still there. */
  lemma DisconnectedRun(s: State, c: Config, p: string, u: nat, ext: string, id: nat, r: string, before: seq<Step>)
    requires Inv(s) && p in s.worlds && OneAccountEach(s.db.identities, p) && Unlinks(s.db, p, u, Some(ext))
    requires HasKey(s.db, id, p, r) && NoConnect(p, u, before)
    ensures var mid := StateAfter(s, c, [On(p, DisconnectOp(u, Some(ext)))] + before);
      && Inv(mid) && p in mid.worlds && HasKey(mid.db, id, p, r)
      && !HasAccount(mid.db, p, u) && OneAccountEach(mid.db.identities, p)
  {
    var gone := On(p, DisconnectOp(u, Some(ext)));
    var z := Next(s, c, gone);
    StepKeeps(s, c, gone);
    DisconnectedHasNone(s, c, p, u, ext);
    AccountsInRuns(z, c, p, u, before);
    RunInv(z, c, before);
    StateAfterCons(s, c, gone, before);
  }

  /** Disconnecting unlinks the account first. If then, after any steps of anyone, some user's members task reaches a
      captured repository before the cleanup does, the disconnected user loses that repository, and after any further
      steps no attempt at the cleanup, whatever the remote does, gets to revoke the token, unless the user connects
      again. */
  lemma UnlinkedUserLosesCleanup(s: State, c: Config, p: string, u: nat, ext: string, list: seq<Captured>, id: nat,
                                 before: seq<Step>, v: nat, after: seq<Step>, later: World, x: Weather)
    requires Inv(s) && p in s.worlds && OneAccountEach(s.db.identities, p) && Unlinks(s.db, p, u, Some(ext))
    requires Captures(s.db, p, u, list) && HasHook(s.db, p, u, id) && s.db.repos[id].Enabled()
    requires NoConnect(p, u, before) && NoConnect(p, u, after)
    requires var r, mid := s.db.repos[id].providerId, StateAfter(s, c, [On(p, DisconnectOp(u, Some(ext)))] + before);
      && p in mid.worlds && ReachOf(mid.worlds[p], v, r).Full?
      && (r in mid.worlds[p].admins ==> Distinct(mid.worlds[p].admins[r]))
    ensures var taken := On(p, BatchOp(MemberStep(v, s.db.repos[id].providerId)));
      var z := StateAfter(s, c, ([On(p, DisconnectOp(u, Some(ext)))] + before) + ([taken] + after));
      (id, u) !in z.db.assoc && !Clean(z.db, later, u, p, list, x).revoked
  {
    var r, first := s.db.repos[id].providerId, [On(p, DisconnectOp(u, Some(ext)))] + before;
    var second := [On(p, BatchOp(MemberStep(v, r)))] + after;
    DisconnectedRun(s, c, p, u, ext, id, r, before);
    TakenForGood(StateAfter(s, c, first), c, p, u, id, r, v, after);
    StateAfterAppend(s, c, first, second);
    assert CapturedFrom(s.db, p, u, CaptureOf(s.db.repos[id]), id);
    AwayBlocksCleanup(StateAfter(s, c, first + second).db, later, p, u, id, list, CaptureOf(s.db.repos[id]), x);
  }
}
