/** createBlockWithRetry composed with the errors that CreateBlock can really return. */
module BlockRetry {
  import opened Wrappers
  import opened Errors
  import opened Hex
  import opened Types
  import opened BlockHandler
  import opened RetryControl

  // The outcomes of calling CreateBlock over and over, each exchange with the server ending its own way.
  function Outcomes(block: Option<Block>, wires: seq<Wire>): (outcomes: seq<Outcome>)
    ensures |outcomes| == |wires|
  {
    seq(|wires|, i requires 0 <= i < |wires| => CreateBlock(block, wires[i]))
  }

  // CreateBlock returns before any request goes out.
  predicate Unsendable(block: Option<Block>) {
    block.None? || HexToInt(block.value.number).Err?
  }

  // Every delay of the loop is one second.
  predicate OneSecondEach(sleeps: seq<nat>) {
    forall i | 0 <= i < |sleeps| :: sleeps[i] == SECOND
  }

  lemma TotalOfThree(sleeps: seq<nat>)
    requires |sleeps| == 3 && OneSecondEach(sleeps)
    ensures Total(sleeps) == 3 * SECOND
  {
    assert Total(sleeps[..0]) == 0;
    assert sleeps[..1][..0] == sleeps[..0] && Total(sleeps[..1]) == SECOND;
    assert sleeps[..2][..1] == sleeps[..1] && Total(sleeps[..2]) == 2 * SECOND;
  }

  lemma OutcomeClass(block: Option<Block>, wires: seq<Wire>, i: nat)
    requires i < |wires| && CreateBlock(block, wires[i]).Err?
    ensures var e := CreateBlock(block, wires[i]).error;
            if Unsendable(block) then IsDataError(e) && !IsRetryable(e)
            else
              && !IsDataError(e) && IsRetryable(e) && RetryDelay(e, i) == SECOND
              && (Retried(Outcomes(block, wires), i) <==> i < 3)
  {
    CreateBlockErrors(block, wires[i]);
  }

  /**
   Composed retry outcome. Whatever the server does, the loop reaches neither its Fatal branch nor
   its "unknown error" branch. On failure it either stopped after one call with a DataError, and no
   reply could have changed that, or it made exactly 4 calls and slept exactly 3 seconds, once
   between consecutive calls. On success the document id is that of the last exchange.
   */
  lemma ComposedRetry(block: Option<Block>, wires: seq<Wire>)
    ensures
      var r := RunOf(Outcomes(block, wires));
      && !r.verdict.Died? && !r.verdict.GaveUp?
      && OneSecondEach(r.sleeps)
      && (|wires| >= 4 ==> r.verdict != Pending)
      && (r.verdict.Skipped? ==>
            if Unsendable(block) then r.calls == 1 && r.sleeps == [] && IsDataError(r.verdict.error)
            else r.calls == 4 && |r.sleeps| == 3 && Total(r.sleeps) == 3 * SECOND && !IsDataError(r.verdict.error))
      && (r.verdict.Created? ==>
            !Unsendable(block) && r.calls <= |wires| && |r.sleeps| == r.calls - 1
            && PostReply(BLOCK, wires[r.calls - 1]) == Ok(r.verdict.docId))
  {
    hide CreateBlock, PostReply, HexToInt, RunOf;
    var outcomes := Outcomes(block, wires);
    RunShape(outcomes);
    var r := RunOf(outcomes);
    forall i | 0 <= i < |r.sleeps| ensures r.sleeps[i] == SECOND {
      assert Retried(outcomes, i);
      OutcomeClass(block, wires, i);
    }
    if r.verdict.Skipped? || r.verdict.Died? || r.verdict.GaveUp? {
      OutcomeClass(block, wires, r.calls - 1);
      if |r.sleeps| > 0 {
        assert Retried(outcomes, 0);
        OutcomeClass(block, wires, 0);
      }
      if |r.sleeps| == 3 {
        TotalOfThree(r.sleeps);
      }
    }
    if r.verdict.Created? {
      CreateBlockReplies(block, wires[r.calls - 1]);
    }
  }

  lemma CreateBlockReplies(block: Option<Block>, wire: Wire)
    requires CreateBlock(block, wire).Ok?
    ensures !Unsendable(block) && PostReply(BLOCK, wire) == CreateBlock(block, wire)
  {
    hide PostReply;
  }
}
