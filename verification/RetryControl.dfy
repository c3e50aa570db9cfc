/**
 The control flow of createBlockWithRetry (cmd/block_poster/main.go), for arbitrary error
 chains: what the loop does after each failed call, and what a whole run of it amounts to.
 */
module RetryControl {
  import opened Powers
  import opened Wrappers
  import opened Errors

  const TOTAL_RETRY_ATTEMPTS: nat := 3

  type Outcome = Result<string, Err>

  // The four branches a failed call can take.
  datatype Decision = Again(delay: nat) | Skip | Fatal | Unknown

  function Decide(e: Err, attempts: nat): Decision {
    if IsRetryable(e) && attempts < TOTAL_RETRY_ATTEMPTS then Again(RetryDelay(e, attempts))
    else if IsDataError(e) || attempts >= TOTAL_RETRY_ATTEMPTS then Skip
    else if IsCritical(e) then Fatal
    else Unknown
  }

  datatype Verdict = Pending | Created(docId: string) | Skipped(error: Err) | Died(error: Err) | GaveUp(error: Err)

  // Calls made, delays slept in order, and how the loop ended (Pending: it has not).
  datatype Run = Run(calls: nat, sleeps: seq<nat>, verdict: Verdict)

  // The effect of one more call on a loop that has not ended.
  function Turn(r: Run, o: Outcome): Run {
    match o
    case Ok(docId) => Run(r.calls + 1, r.sleeps, Created(docId))
    case Err(e) =>
      match Decide(e, r.calls)
      case Again(delay) => Run(r.calls + 1, r.sleeps + [delay], Pending)
      case Skip => Run(r.calls + 1, r.sleeps, Skipped(e))
      case Fatal => Run(r.calls + 1, r.sleeps, Died(e))
      case Unknown => Run(r.calls + 1, r.sleeps, GaveUp(e))
  }

  // The loop fed with these call outcomes; outcomes past its end are never asked for.
  function RunOf(outcomes: seq<Outcome>): Run {
    if outcomes == [] then Run(0, [], Pending)
    else
      var r := RunOf(outcomes[..|outcomes| - 1]);
      if r.verdict != Pending then r else Turn(r, outcomes[|outcomes| - 1])
  }

  function Total(sleeps: seq<nat>): nat {
    if sleeps == [] then 0 else Total(sleeps[..|sleeps| - 1]) + sleeps[|sleeps| - 1]
  }

  // A failure that the loop answers with another call.
  predicate Retried(outcomes: seq<Outcome>, i: nat)
    requires i < |outcomes|
  {
    outcomes[i].Err? && IsRetryable(outcomes[i].error) && i < TOTAL_RETRY_ATTEMPTS
  }

  // What a run has to do with the outcomes it was fed; the theorems below are read off it.
  predicate Explains(r: Run, outcomes: seq<Outcome>) {
    && r.calls <= |outcomes| && r.calls <= 4
    && (r.verdict == Pending ==> r.calls == |outcomes| == |r.sleeps| <= 3)
    && (r.verdict != Pending ==> r.calls >= 1 && |r.sleeps| == r.calls - 1)
    && (forall i | 0 <= i < |r.sleeps| :: Retried(outcomes, i) && r.sleeps[i] == RetryDelay(outcomes[i].error, i))
    && (r.verdict.Created? ==> outcomes[r.calls - 1] == Ok(r.verdict.docId))
    && (r.verdict.Skipped? || r.verdict.Died? || r.verdict.GaveUp? ==>
          && outcomes[r.calls - 1] == Err(r.verdict.error)
          && !Retried(outcomes, r.calls - 1)
          && Decide(r.verdict.error, r.calls - 1) ==
               (if r.verdict.Skipped? then Skip else if r.verdict.Died? then Fatal else Unknown))
  }

  lemma ExplainsTurn(r: Run, outcomes: seq<Outcome>, o: Outcome)
    requires Explains(r, outcomes) && r.verdict == Pending
    ensures Explains(Turn(r, o), outcomes + [o])
  {
    var all := outcomes + [o];
    assert all[|outcomes|] == o;
    forall i | 0 <= i < |r.sleeps| ensures Retried(all, i) && all[i] == outcomes[i] {
      assert Retried(outcomes, i);
    }
    if o.Err? {
      match Decide(o.error, r.calls)
      case Again(delay) => assert Retried(all, |outcomes|);
      case Skip =>
      case Fatal =>
      case Unknown =>
    }
  }

  lemma {:induction false} RunShape(outcomes: seq<Outcome>)
    ensures Explains(RunOf(outcomes), outcomes)
  {
    if outcomes != [] {
      var init, o := outcomes[..|outcomes| - 1], outcomes[|outcomes| - 1];
      RunShape(init);
      assert init + [o] == outcomes;
      var r := RunOf(init);
      if r.verdict == Pending {
        ExplainsTurn(r, init, o);
      } else {
        assert forall i | 0 <= i < |init| :: init[i] == outcomes[i];
        assert forall i | 0 <= i < |init| :: Retried(init, i) == Retried(outcomes, i);
      }
    }
  }

  /**
   Retry bound: whatever errors the calls return, the loop ends after at most 4 of them, sleeps
   exactly once between consecutive calls for the delay of the error before it, and for at most
   7 seconds in all.
   */
  lemma RetryBound(outcomes: seq<Outcome>)
    ensures var r := RunOf(outcomes);
            && r.calls <= 4
            && (|outcomes| >= 4 ==> r.verdict != Pending)
            && (r.verdict != Pending ==> |r.sleeps| == r.calls - 1)
            && (forall i | 0 <= i < |r.sleeps| ::
                  i < |outcomes| && outcomes[i].Err? && r.sleeps[i] == RetryDelay(outcomes[i].error, i))
            && Total(r.sleeps) <= 7 * SECOND
  {
    hide RunOf, RetryDelay, Decide;
    RunShape(outcomes);
    var sleeps := RunOf(outcomes).sleeps;
    forall i | 0 <= i < |sleeps| ensures sleeps[i] <= Pow2(i) * SECOND {
      assert Retried(outcomes, i);
      DelayBound(outcomes[i].error, i);
    }
    TotalBound(sleeps);
    if |sleeps| > 0 { Pow2Monotone(|sleeps|, 3); }
    assert Pow2(3) == 8;
  }

  lemma DelayBound(e: Err, attempts: nat)
    ensures RetryDelay(e, attempts) <= Pow2(attempts) * SECOND
  {
    if attempts >= 5 { Pow2Monotone(5, attempts); }
  }

  lemma {:induction false} TotalBound(sleeps: seq<nat>)
    requires forall i | 0 <= i < |sleeps| :: sleeps[i] <= Pow2(i) * SECOND
    ensures Total(sleeps) <= (Pow2(|sleeps|) - 1) * SECOND
  {
    if sleeps != [] {
      TotalBound(sleeps[..|sleeps| - 1]);
    }
  }

  /**
   The loop returns a document id exactly when some call succeeds with every earlier failure
   retried, and then it is that first success.
   */
  lemma RetryReturnsFirstSuccess(outcomes: seq<Outcome>, k: nat)
    requires k < |outcomes| && outcomes[k].Ok? && forall i | 0 <= i < k :: outcomes[i].Err?
    ensures RunOf(outcomes).verdict.Created? <==> forall i | 0 <= i < k :: Retried(outcomes, i)
    ensures RunOf(outcomes).verdict.Created? ==>
              RunOf(outcomes).verdict.docId == outcomes[k].value && RunOf(outcomes).calls == k + 1
  {
    RunShape(outcomes);
    assert !Retried(outcomes, k);
  }

  // A run with no success at all never returns a document id.
  lemma {:induction false} NoSuccessNoDocument(outcomes: seq<Outcome>)
    requires forall i | 0 <= i < |outcomes| :: outcomes[i].Err?
    ensures !RunOf(outcomes).verdict.Created?
  {
    RunShape(outcomes);
  }

  // The outermost IndexerError of the chain is critical and not to be retried.
  ghost predicate DeadlyHead(e: Err) {
    exists d: nat :: HeadAt(e, d) && Inside(e, d).value.severity == Critical && Inside(e, d).value.retryable == NonRetryable
  }

  ghost predicate DataErrorInside(e: Err) {
    exists d: nat :: KindAt(e, d, Data)
  }

  lemma DeadlyHeadExactly(e: Err)
    ensures DeadlyHead(e) <==> IsCritical(e) && !IsRetryable(e)
  {
    FirstExactly(e, 0);
    forall d: nat | HeadAt(e, d) ensures First(e) == Inside(e, d) {
      FirstExactly(e, d);
    }
  }

  /**
   How the k-th call ends the loop, when all earlier failures were retried. The process dies exactly if
   the head of the chain is critical and not to be retried, no DataError is anywhere inside, and the
   retry budget is not used up. It skips the block exactly if the call failed, was not to be retried and
   a DataError is inside or the budget is used up. What is left is the unknown error.
   */
  lemma FatalExactly(outcomes: seq<Outcome>, k: nat)
    requires k < |outcomes|
    ensures
      var r := RunOf(outcomes[..k + 1]);
      var reached := forall i | 0 <= i < k :: Retried(outcomes, i);
      && (r.verdict.Died? && r.calls == k + 1 <==>
            reached && k < 3 && outcomes[k].Err? && DeadlyHead(outcomes[k].error) && !DataErrorInside(outcomes[k].error))
      && (r.verdict.Skipped? && r.calls == k + 1 <==>
            && reached && k <= 3 && outcomes[k].Err?
            && (k == 3 || (!IsRetryable(outcomes[k].error) && DataErrorInside(outcomes[k].error))))
      && (r.verdict.GaveUp? && r.calls == k + 1 <==>
            && reached && k < 3 && outcomes[k].Err?
            && !IsRetryable(outcomes[k].error) && !IsCritical(outcomes[k].error) && !DataErrorInside(outcomes[k].error))
  {
    hide DeadlyHead, DataErrorInside, IsCritical, IsRetryable, IsDataError, RunOf, RetryDelay;
    var heard := outcomes[..k + 1];
    assert heard[..k] == outcomes[..k];
    RunShape(heard);
    RunShape(heard[..k]);
    if outcomes[k].Err? {
      DeadlyHeadExactly(outcomes[k].error);
      DataErrorExactly(outcomes[k].error);
    }
    if forall i | 0 <= i < k :: Retried(outcomes, i) {
      AllRetriedPending(outcomes, k);
      LastTurn(heard);
    }
    assert forall i | 0 <= i < k :: Retried(heard, i) == Retried(outcomes, i);
  }

  lemma DataErrorExactly(e: Err)
    ensures DataErrorInside(e) <==> IsDataError(e)
  {
    HasExactly(e, Data);
  }

  lemma LastTurn(outcomes: seq<Outcome>)
    requires outcomes != [] && RunOf(outcomes[..|outcomes| - 1]).verdict == Pending
    ensures RunOf(outcomes) == Turn(RunOf(outcomes[..|outcomes| - 1]), outcomes[|outcomes| - 1])
  {
    hide Turn;
  }

  lemma {:induction false} AllRetriedPending(outcomes: seq<Outcome>, k: nat)
    requires k <= |outcomes| && forall i | 0 <= i < k :: Retried(outcomes, i)
    ensures RunOf(outcomes[..k]).verdict == Pending && RunOf(outcomes[..k]).calls == k
  {
    if k > 0 {
      assert outcomes[..k][..k - 1] == outcomes[..k - 1];
      AllRetriedPending(outcomes, k - 1);
      assert Retried(outcomes, k - 1);
    }
  }

  // Among chains built by the constructors, only a configuration error can kill the process.
  lemma {:induction false} OnlyConfigurationErrorsKill(e: Err, attempts: nat)
    requires Constructed(e)
    ensures Decide(e, attempts).Fatal? <==>
              && attempts < TOTAL_RETRY_ATTEMPTS
              && First(e).Some? && First(e).value.code == ConfigurationError
              && !IsDataError(e)
  {
    ConstructedFirst(e);
  }
}
