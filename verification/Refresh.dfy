/** The periodic refresh of accounts that were not synchronised for a while. */
module Refresh {
  import opened Domain

  /** The accounts of the provider that were last updated before `now - minAge`. */
  function StaleAccounts(updated: map<nat, int>, now: int, minAge: int): set<nat> {
    set a | a in updated && updated[a] < now - minAge
  }

  function Min(a: nat, b: nat): nat {
    if a < b then a else b
  }

  /** `picked` is what the query may return: stale accounts, `limit` of them if there are that many, all of them
      when the limit is zero. */
  predicate Picks(updated: map<nat, int>, now: int, minAge: int, limit: nat, picked: set<nat>) {
    && picked <= StaleAccounts(updated, now, minAge)
    && (limit == 0 ==> picked == StaleAccounts(updated, now, minAge))
    && (limit > 0 ==> |picked| == Min(|StaleAccounts(updated, now, minAge)|, limit))
  }

  function Elements(xs: seq<nat>): set<nat> {
    set a | a in xs
  }

  /** tasks.refresh_accounts: the users whose sync is dispatched, and the logged count. */
  method RefreshAccounts(updated: map<nat, int>, now: int, minAge: int, limit: nat)
    returns (dispatched: seq<nat>, tasks: nat)
    ensures Distinct(dispatched) && tasks == |dispatched|
    ensures Picks(updated, now, minAge, limit, Elements(dispatched))
  {
    ghost var stale := StaleAccounts(updated, now, minAge);
    var rest := StaleAccounts(updated, now, minAge);
    dispatched, tasks := [], 0;
    while rest != {} && (limit == 0 || tasks < limit)
      invariant tasks == |dispatched| == |Elements(dispatched)| && (limit > 0 ==> tasks <= limit)
      invariant Distinct(dispatched)
      invariant Elements(dispatched) <= stale && rest == stale - Elements(dispatched)
      decreases rest
    {
      var a :| a in rest;
      assert Elements(dispatched + [a]) == Elements(dispatched) + {a};
      dispatched := dispatched + [a];
      tasks := tasks + 1;
      rest := rest - {a};
    }
    Remaining(stale, Elements(dispatched));
    assert rest == {} ==> Elements(dispatched) == stale;
  }

  lemma Remaining(s: set<nat>, picked: set<nat>)
    requires picked <= s
    ensures |s - picked| == |s| - |picked|
  {
    assert s == (s - picked) + picked;
  }

  /** One run of the job at time `now`, whose syncs of the picked accounts all complete. */
  datatype JobRun = JobRun(now: int, picked: set<nat>)

  ghost function AfterRounds(updated: map<nat, int>, rounds: seq<JobRun>): map<nat, int> {
    if rounds == [] then updated
    else
      var before, last := AfterRounds(updated, rounds[..|rounds| - 1]), rounds[|rounds| - 1];
      map a | a in before :: if a in last.picked then last.now else before[a]
  }

  ghost predicate Proper(updated: map<nat, int>, rounds: seq<JobRun>, minAge: int, limit: nat) {
    forall i :: 0 <= i < |rounds| ==>
      Picks(AfterRounds(updated, rounds[..i]), rounds[i].now, minAge, limit, rounds[i].picked)
  }

  /** All rounds happen within minAge of `start`, and no account that is fresh at `start` turns stale by `end`. */
  ghost predicate Window(updated: map<nat, int>, rounds: seq<JobRun>, minAge: int, start: int, end: int) {
    && end - start <= minAge
    && (forall i :: 0 <= i < |rounds| ==> start <= rounds[i].now <= end)
    && (forall a :: a in updated ==> updated[a] < start - minAge || end - minAge <= updated[a])
  }

  predicate Unpicked(rounds: seq<JobRun>, a: nat) {
    forall i :: 0 <= i < |rounds| ==> a !in rounds[i].picked
  }

  /** In the window, an account is stale at any time exactly if it was stale at the start and was not picked yet. */
  lemma {:induction false} StaleIsUnpicked(updated: map<nat, int>, rounds: seq<JobRun>, minAge: int,
                                           start: int, end: int, now: int)
    requires Window(updated, rounds, minAge, start, end) && start <= now <= end
    ensures AfterRounds(updated, rounds).Keys == updated.Keys
    ensures forall a :: a in StaleAccounts(AfterRounds(updated, rounds), now, minAge) <==>
      a in StaleAccounts(updated, start, minAge) && Unpicked(rounds, a)
  {
    if rounds != [] {
      var prefix, last := rounds[..|rounds| - 1], rounds[|rounds| - 1];
      StaleIsUnpicked(updated, prefix, minAge, start, end, now);
      forall a
        ensures a in StaleAccounts(AfterRounds(updated, rounds), now, minAge)
          <==> a in StaleAccounts(AfterRounds(updated, prefix), now, minAge) && a !in last.picked
      {
      }
      assert forall a :: Unpicked(rounds, a) <==> Unpicked(prefix, a) && a !in last.picked;
    }
  }

  lemma OneMoreRound(updated: map<nat, int>, rounds: seq<JobRun>, minAge: int, start: int, end: int, now: int)
    requires Window(updated, rounds, minAge, start, end) && start <= now <= end && rounds != []
    ensures var prefix, last := rounds[..|rounds| - 1], rounds[|rounds| - 1];
      StaleAccounts(AfterRounds(updated, rounds), now, minAge)
      == StaleAccounts(AfterRounds(updated, prefix), last.now, minAge) - last.picked
  {
    var prefix, last := rounds[..|rounds| - 1], rounds[|rounds| - 1];
    assert forall i :: 0 <= i < |prefix| ==> prefix[i] == rounds[i];
    StaleIsUnpicked(updated, rounds, minAge, start, end, now);
    StaleIsUnpicked(updated, prefix, minAge, start, end, last.now);
    assert forall a :: Unpicked(rounds, a) <==> Unpicked(prefix, a) && a !in last.picked;
  }

  lemma Shrunk(before: nat, picked: nat, rounds: nat, limit: nat, total: nat)
    requires limit > 0 ==> (before == 0 || before + rounds * limit == total) && picked == Min(before, limit)
    ensures limit > 0 ==> before - picked == 0 || before - picked + (rounds + 1) * limit == total
  {
    assert (rounds + 1) * limit == rounds * limit + limit;
  }

  /** Each round shrinks the stale accounts by the limit, whichever of them are picked. */
  lemma {:induction false} StaleShrinks(updated: map<nat, int>, rounds: seq<JobRun>, minAge: int, limit: nat,
                                        start: int, end: int, now: int)
    requires Window(updated, rounds, minAge, start, end) && Proper(updated, rounds, minAge, limit)
    requires start <= now <= end
    ensures var left := |StaleAccounts(AfterRounds(updated, rounds), now, minAge)|;
      && (limit > 0 ==> left == 0 || left + |rounds| * limit == |StaleAccounts(updated, start, minAge)|)
      && (limit == 0 && |rounds| > 0 ==> left == 0)
  {
    if rounds == [] {
      StaleIsUnpicked(updated, rounds, minAge, start, end, now);
      assert StaleAccounts(AfterRounds(updated, rounds), now, minAge) == StaleAccounts(updated, start, minAge);
    } else {
      var prefix, last := rounds[..|rounds| - 1], rounds[|rounds| - 1];
      ProperPrefix(updated, rounds, minAge, limit);
      StaleShrinks(updated, prefix, minAge, limit, start, end, last.now);
      OneMoreRound(updated, rounds, minAge, start, end, now);
      var before := StaleAccounts(AfterRounds(updated, prefix), last.now, minAge);
      Remaining(before, last.picked);
      Shrunk(|before|, |last.picked|, |prefix|, limit, |StaleAccounts(updated, start, minAge)|);
    }
  }

  lemma ProperPrefix(updated: map<nat, int>, rounds: seq<JobRun>, minAge: int, limit: nat)
    requires rounds != [] && Proper(updated, rounds, minAge, limit)
    ensures Proper(updated, rounds[..|rounds| - 1], minAge, limit)
    ensures var last := rounds[|rounds| - 1];
      Picks(AfterRounds(updated, rounds[..|rounds| - 1]), last.now, minAge, limit, last.picked)
  {
    var prefix := rounds[..|rounds| - 1];
    assert forall i :: 0 <= i < |prefix| ==> prefix[i] == rounds[i] && prefix[..i] == rounds[..i];
  }

  /** Progress: once the rounds times the limit reach the number of stale accounts, none is left; without a limit,
      one round is enough. */
  lemma NoneStaleLeft(updated: map<nat, int>, rounds: seq<JobRun>, minAge: int, limit: nat, start: int, end: int)
    requires Window(updated, rounds, minAge, start, end) && Proper(updated, rounds, minAge, limit) && start <= end
    requires if limit == 0 then |rounds| > 0 else |StaleAccounts(updated, start, minAge)| <= |rounds| * limit
    ensures StaleAccounts(AfterRounds(updated, rounds), end, minAge) == {}
  {
    StaleShrinks(updated, rounds, minAge, limit, start, end, end);
  }
}
