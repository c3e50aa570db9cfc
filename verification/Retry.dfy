/** The generic retry helper of pkg/utils/retry.go. */
module Retry {
  import opened Wrappers
  import opened Errors
  import opened Strconv

  // MaxRetries and Delay of a RetryConfig; its logger is not part of the model.
  datatype RetryConfig = RetryConfig(maxRetries: int, delay: nat)

  const DEFAULT_RETRY_CONFIG := RetryConfig(3, SECOND)

  /**
   A stateful operation: its n-th call returns outcomes(n), and it remembers how often it has
   been called. A failing call may still hand back a value.
   */
  class Operation<T> {
    const outcomes: nat -> (T, Option<Err>)
    var calls: nat

    constructor (outcomes: nat -> (T, Option<Err>))
      ensures this.outcomes == outcomes && calls == 0
    {
      this.outcomes := outcomes;
      calls := 0;
    }

    method Call() returns (value: T, error: Option<Err>)
      modifies this
      ensures calls == old(calls) + 1
      ensures (value, error) == outcomes(old(calls))
    {
      var r := outcomes(calls);
      value, error := r.0, r.1;
      calls := calls + 1;
    }
  }

  // Index of the first success among the calls numbered from, ..., to - 1; to if there is none.
  ghost function FirstSuccess<T>(outcomes: nat -> (T, Option<Err>), from: nat, to: nat): (k: nat)
    requires from <= to
    ensures from <= k <= to
    ensures k < to ==> outcomes(k).1.None?
    ensures forall i | from <= i < k :: outcomes(i).1.Some?
  {
    if from == to then to
    else
      var k := FirstSuccess(outcomes, from, to - 1);
      if k == to - 1 && outcomes(k).1.Some? then to else k
  }

  function GiveUp(operationName: string, maxRetries: int, lastErr: Option<Err>): Err {
    var prefix := "failed " + operationName + " after " + FormatInt(maxRetries + 1, 10) + " attempts: ";
    match lastErr
    case Some(e) => Wrapped(prefix, e)
    case None => Plain(prefix + "%!w(<nil>)")
  }

  /**
   RequestResourceWithRetries. The result is the first success among the first maxRetries + 1
   calls; failing that, the value of the last call and an error that wraps the last failure. It
   sleeps between calls and nowhere else. A negative maxRetries makes no call at all and fails
   with the zero value.
   */
  method RequestResourceWithRetries<T>(operation: Operation<T>, operationName: string, zero: T,
                                       configs: seq<RetryConfig>)
    returns (result: T, error: Option<Err>, slept: nat)
    modifies operation
    ensures
      var config := if configs == [] then RetryConfig(3, 1_000_000_000) else configs[0];
      var budget := if config.maxRetries < 0 then 0 else config.maxRetries + 1;
      var start := old(operation.calls);
      var end := start + budget;
      var k := FirstSuccess(operation.outcomes, start, end);
      var calls := operation.calls - start;
      && operation.calls == (if k < end then k + 1 else end)
      && slept == (if calls == 0 then 0 else (calls - 1) * config.delay)
      && (k < end ==> error == None && result == operation.outcomes(k).0)
      && (k == end ==>
            error == Some(GiveUp(operationName, config.maxRetries,
                                 if calls == 0 then None else operation.outcomes(start + calls - 1).1)))
      && (k == end && calls > 0 ==> result == operation.outcomes(start + calls - 1).0)
      && (calls == 0 ==> result == zero)
  {
    var config := if configs == [] then DEFAULT_RETRY_CONFIG else configs[0];
    result, slept := zero, 0;
    var lastErr: Option<Err> := None;
    ghost var start := operation.calls;
    ghost var budget: nat := if config.maxRetries < 0 then 0 else config.maxRetries + 1;
    var retries := 0;
    while retries <= config.maxRetries
      invariant 0 <= retries <= budget
      invariant operation.calls == start + retries
      invariant slept == (if retries == 0 then 0 else (retries - 1) * config.delay)
      invariant forall i | start <= i < start + retries :: operation.outcomes(i).1.Some?
      invariant retries == 0 ==> lastErr == None && result == zero
      invariant retries > 0 ==> (result, lastErr) == operation.outcomes(start + retries - 1)
    {
      if retries > 0 {
        slept := slept + config.delay;
      }
      result, lastErr := operation.Call();
      if lastErr == None {
        assert slept == retries * config.delay;
        return result, None, slept;
      }
      retries := retries + 1;
    }
    return result, Some(GiveUp(operationName, config.maxRetries, lastErr)), slept;
  }

  // The error that gives up keeps the last failure in its chain, with its kind and retry behaviour.
  lemma GiveUpKeepsTheLastFailure(operationName: string, maxRetries: int, last: Err, kind: Kind)
    ensures var e := GiveUp(operationName, maxRetries, Some(last));
            && e == Wrapped("failed " + operationName + " after " + FormatInt(maxRetries + 1, 10) + " attempts: ", last)
            && First(e) == First(last)
            && (Has(e, kind) <==> Has(last, kind))
            && (IsRetryable(e) <==> IsRetryable(last))
  {
  }
}
