/** Which error handler a failed release runs, and whether the release is tried again. */
module Handlers {

  const EXCEPTION := "Exception"
  const NO_RETRY := "CustomVCSReleaseNoRetryError"
  const DEFAULTS: seq<string> := [NO_RETRY, EXCEPTION]

  /** `isa` holds the pairs (c, d) for which an instance of class c is an instance of class d;
      `configured` lists the classes of the configured handlers. */
  datatype Config = Config(isa: set<(string, string)>, configured: seq<string>) {
    predicate Matches(ex: string, cls: string) {
      (ex, cls) in isa
    }

    function Chain(): seq<string> {
      configured + DEFAULTS
    }
  }

  /** ex is an exception class: an instance of itself and of Exception. */
  predicate IsException(c: Config, ex: string) {
    c.Matches(ex, ex) && c.Matches(ex, EXCEPTION)
  }

  /** The position of the only handler that runs: the first of the chain whose class matches. */
  ghost predicate Runs(c: Config, ex: string, k: nat) {
    && k < |c.Chain()| && c.Matches(ex, c.Chain()[k])
    && forall j :: 0 <= j < k ==> !c.Matches(ex, c.Chain()[j])
  }

  ghost predicate Retried(c: Config, ex: string) {
    exists k: nat :: Runs(c, ex, k) && c.Chain()[k] == EXCEPTION
  }

  /** The loop over the handlers; `retry` is `matched_error_cls is Exception`. */
  method Dispatch(c: Config, ex: string) returns (k: nat, retry: bool)
    requires IsException(c, ex)
    ensures Runs(c, ex, k)
    ensures retry <==> Retried(c, ex)
  {
    var chain := c.Chain();
    k := 0;
    assert chain[|chain| - 1] == EXCEPTION;
    while k < |chain|
      invariant k <= |chain|
      invariant forall j :: 0 <= j < k ==> !c.Matches(ex, chain[j])
    {
      if c.Matches(ex, chain[k]) {
        break;
      }
      k := k + 1;
    }
    retry := chain[k] == EXCEPTION;
    RunsUnique(c, ex);
  }

  lemma RunsUnique(c: Config, ex: string)
    ensures forall j, k :: Runs(c, ex, j) && Runs(c, ex, k) ==> j == k
  {
  }

  /** Every exception runs exactly one handler. */
  lemma {:induction false} SomeHandlerRuns(c: Config, ex: string, from: nat) returns (k: nat)
    requires IsException(c, ex) && from < |c.Chain()|
    requires forall j :: 0 <= j < from ==> !c.Matches(ex, c.Chain()[j])
    ensures Runs(c, ex, k)
    decreases |c.Chain()| - from
  {
    assert c.Chain()[|c.Chain()| - 1] == EXCEPTION;
    if c.Matches(ex, c.Chain()[from]) {
      k := from;
    } else {
      k := SomeHandlerRuns(c, ex, from + 1);
    }
  }

  /** An exception that asks for no retry is retried exactly when a configured entry for Exception itself comes
      before every configured entry that matches it. */
  lemma NoRetryRetried(c: Config, ex: string)
    requires IsException(c, ex) && c.Matches(ex, NO_RETRY)
    ensures Retried(c, ex) <==>
      exists k: nat :: k < |c.configured| && c.configured[k] == EXCEPTION
        && forall j :: 0 <= j < k ==> !c.Matches(ex, c.configured[j])
  {
    var n := |c.configured|;
    assert c.Chain()[n] == NO_RETRY != EXCEPTION;
    if k: nat :| Runs(c, ex, k) && c.Chain()[k] == EXCEPTION {
      assert k < n && c.configured[k] == EXCEPTION;
      assert forall j :: 0 <= j < k ==> c.configured[j] == c.Chain()[j];
    }
    if k: nat :| k < n && c.configured[k] == EXCEPTION && forall j :: 0 <= j < k ==> !c.Matches(ex, c.configured[j]) {
      assert Runs(c, ex, k);
    }
  }

  /** Any other exception is retried exactly when no configured entry for another class claims it first. */
  lemma OtherRetried(c: Config, ex: string)
    requires IsException(c, ex) && !c.Matches(ex, NO_RETRY)
    ensures Retried(c, ex) <==>
      forall k: nat :: k < |c.configured| && c.Matches(ex, c.configured[k]) && c.configured[k] != EXCEPTION ==>
        exists j :: 0 <= j < k && c.configured[j] == EXCEPTION
  {
    var n, chain := |c.configured|, c.Chain();
    assert chain[n] == NO_RETRY && chain[n + 1] == EXCEPTION;
    var k := SomeHandlerRuns(c, ex, 0);
    RunsUnique(c, ex);
    if chain[k] == EXCEPTION {
      forall i: nat | i < n && c.Matches(ex, c.configured[i]) && c.configured[i] != EXCEPTION
        ensures exists j :: 0 <= j < i && c.configured[j] == EXCEPTION
      {
        assert chain[i] == c.configured[i];
        assert k < i && c.configured[k] == EXCEPTION;
      }
    } else {
      assert k < n && c.configured[k] == chain[k];
      forall j | 0 <= j < k
        ensures c.configured[j] != EXCEPTION
      {
        assert chain[j] == c.configured[j];
      }
    }
  }
}
