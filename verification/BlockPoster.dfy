/**
 The poller's own code (cmd/block_poster/main.go), call by call, against a store that other pollers
 use at the same time. Every method moves the poller through the ingest state machine.
 */
module BlockPoster {
  import opened Wrappers
  import opened Errors
  import opened Types
  import opened Geth
  import opened BlockHandler
  import opened Requests
  import opened RetryControl
  import opened BlockRetry
  import opened Ingest
  import opened IngestInvariant
  import opened IngestSteps
  import opened IngestSafety
  import EthereumClient

  // What poller p did and got back, in order; commits of its requests after the call are not its doing.
  function Own(steps: seq<Step>, p: nat): seq<Event> {
    if steps == [] then []
    else
      var last := steps[|steps| - 1];
      Own(steps[..|steps| - 1], p) + (if last.p == p && !last.event.Land? then [last.event] else [])
  }

  lemma OwnSnoc(steps: seq<Step>, step: Step, p: nat)
    ensures Own(steps + [step], p) == Own(steps, p) + (if step.p == p && !step.event.Land? then [step.event] else [])
  {
    assert (steps + [step])[..|steps|] == steps;
  }

  predicate AllExchanges(events: seq<Event>) {
    forall i | 0 <= i < |events| :: events[i].Exchange?
  }

  function Wires(tries: seq<Event>): (wires: seq<Wire>)
    requires AllExchanges(tries)
    ensures |wires| == |tries|
  {
    seq(|tries|, i requires 0 <= i < |tries| => tries[i].wire)
  }

  // An error reply always fits, so a poller is never blocked.
  lemma RefusalEnabled(s: State, p: nat)
    requires p < |s.pollers| && InRange(s.pollers[p]) && Posting(s.pollers[p])
    ensures Enabled(s, Step(p, Exchange(None, Failed("refused"))))
  {
  }

  /** The store with everything around it: n pollers, their run so far, and the state it led to. */
  class World {
    const n: nat
    var state: State
    ghost var steps: seq<Step>

    ghost predicate Valid()
      reads this
    {
      ValidRun(n, steps) && state == Final(n, steps) && |state.pollers| == n
    }

    // Poller p is where its next call is the one of this phase.
    ghost predicate At(p: nat, phase: Phase)
      reads this
    {
      Valid() && p < n && state.pollers[p] == phase
    }

    constructor (n: nat)
      ensures Valid() && this.n == n && steps == []
    {
      this.n, state, steps := n, Initial(n), [];
    }

    // One step of one poller.
    method Take(step: Step)
      requires Valid() && Enabled(state, step)
      modifies this
      ensures Valid() && steps == old(steps) + [step] && state == Apply(old(state), step)
    {
      hide Enabled, Apply;
      RunSnoc(n, steps, step);
      PollersKept(state, step);
      steps := steps + [step];
      state := Apply(state, step);
    }

    // Any number of steps of the other pollers, and of late commits.
    method Interfere(p: nat)
      requires Valid() && p < n
      modifies this
      ensures Valid() && old(steps) <= steps && state.pollers[p] == old(state.pollers[p])
      ensures Own(steps, p) == old(Own(steps, p))
    {
      hide Enabled, Apply, Own, ValidRun, Final;
      var budget: int := *;
      while budget > 0
        invariant Valid() && old(steps) <= steps && state.pollers[p] == old(state.pollers[p])
        invariant Own(steps, p) == old(Own(steps, p))
      {
        budget := budget - 1;
        var step: Step := *;
        if (step.p != p || step.event.Land?) && Enabled(state, step) {
          OwnSnoc(steps, step, p);
          PollersKept(state, step);
          Take(step);
        }
      }
    }

    /**
     The create call that poller p is about to make: others get in between, then the store commits or
     not and the exchange ends somehow. tried is that exchange, and before the store it found.
     */
    method Call(p: nat) returns (outcome: Result<DocId, Err>, ghost tried: Event, ghost before: Store)
      requires Valid() && p < n && Posting(state.pollers[p])
      modifies this
      ensures Valid() && old(steps) <= steps && tried.Exchange? && Own(steps, p) == old(Own(steps, p)) + [tried]
      ensures var phase := old(state.pollers[p]);
              && PhaseTrue(before, p, phase) && ExchangeEnabled(before, phase, tried.committed, outcome)
              && outcome == Returned(phase, tried.wire)
              && state.store == Exchanged(before, p, phase, tried.committed, outcome)
              && state.pollers[p] == Next(phase, outcome)
    {
      hide Own, ValidRun, Final, StoreTrue, Numbered, PendingTrue, Returned, Next, Exchanged, Fresh, Unique, PostReply, PhaseTrue;
      Interfere(p);
      RunKeeps(n, steps);
      before := state.store;
      assert PhaseTrue(before, p, state.pollers[p]);
      PhaseInRange(before, p, state.pollers[p]);
      var reply: Wire, id: Option<DocId> := *, *;
      if !Enabled(state, Step(p, Exchange(id, reply))) {
        RefusalEnabled(state, p);
        reply, id := Failed("refused"), None;
      }
      tried := Exchange(id, reply);
      outcome := Returned(state.pollers[p], reply);
      OwnSnoc(steps, Step(p, Exchange(id, reply)), p);
      Take(Step(p, Exchange(id, reply)));
    }
  }

  // ------------------------------------------------------ createBlockWithRetry

  lemma OutcomesSnoc(block: Option<Block>, wires: seq<Wire>, wire: Wire)
    ensures var run := RunOf(Outcomes(block, wires));
            RunOf(Outcomes(block, wires + [wire])) == if run.verdict == Pending then Turn(run, CreateBlock(block, wire)) else run
  {
    hide CreateBlock, Turn;
    var longer := Outcomes(block, wires + [wire]);
    assert longer[..|wires|] == Outcomes(block, wires);
  }

  lemma TotalSnoc(sleeps: seq<nat>, delay: nat)
    ensures Total(sleeps + [delay]) == Total(sleeps) + delay
  {
    assert (sleeps + [delay])[..|sleeps|] == sleeps;
  }

  lemma WiresSnoc(tries: seq<Event>, tried: Event)
    requires AllExchanges(tries) && tried.Exchange?
    ensures AllExchanges(tries + [tried]) && Wires(tries + [tried]) == Wires(tries) + [tried.wire]
  {
  }

  // The create call for the block, as the blockRetryAttempts-th retry.
  method PostBlockOnce(world: World, p: nat, g: Block, attempts: nat)
    returns (outcome: Result<DocId, Err>, ghost tried: Event)
    requires world.At(p, PostBlock(g, attempts))
    modifies world
    ensures world.At(p, Next(PostBlock(g, attempts), outcome))
    ensures old(world.steps) <= world.steps
    ensures tried.Exchange? && Own(world.steps, p) == old(Own(world.steps, p)) + [tried]
    ensures outcome == CreateBlock(Some(BuildBlock(g)), tried.wire)
    ensures outcome.Ok? ==> tried.committed == Some(outcome.value)
  {
    hide CreateBlock, Own, ValidRun, Final, PhaseTrue, Fresh, Unique, Exchanged, Next;
    ghost var before;
    outcome, tried, before := world.Call(p);
  }

  /**
   createBlockWithRetry. Its own events are exactly the create calls in tries. It makes as many as the
   retry control says for the way these exchanges ended, sleeps as long as it says, and ends the same
   way; if that is a document id, the poller goes on to the block's transactions, and otherwise it is
   done with the block.
   */
  method CreateBlockWithRetry(world: World, p: nat, g: Block) returns (verdict: Verdict, slept: nat, ghost tries: seq<Event>)
    requires world.At(p, PostBlock(g, 0))
    modifies world
    ensures world.At(p, if verdict.Created? then EnterTx(g, verdict.docId, 0) else Idle)
    ensures old(world.steps) <= world.steps
    ensures AllExchanges(tries) && Own(world.steps, p) == old(Own(world.steps, p)) + tries
    ensures var run := RunOf(Outcomes(Some(BuildBlock(g)), Wires(tries)));
            verdict == run.verdict != Pending && slept == Total(run.sleeps) && run.calls == |tries|
    ensures verdict.Created? ==> tries != [] && tries[|tries| - 1].committed == Some(verdict.docId)
  {
    hide World.At, CreateBlock, Own, IsRetryable, IsDataError, IsCritical, RunOf, Outcomes, Wires, RetryDelay, BuildBlock,
      EnterTx;
    ghost var block := Some(BuildBlock(g));
    var blockRetryAttempts := 0;
    slept, tries := 0, [];
    EmptyRun(block);
    while true
      invariant old(world.steps) <= world.steps
      invariant blockRetryAttempts <= TOTAL_RETRY_ATTEMPTS && world.At(p, PostBlock(g, blockRetryAttempts))
      invariant AllExchanges(tries) && Own(world.steps, p) == old(Own(world.steps, p)) + tries
      invariant var run := RunOf(Outcomes(block, Wires(tries)));
                run.verdict == Pending && run.calls == |tries| == blockRetryAttempts && slept == Total(run.sleeps)
      decreases TOTAL_RETRY_ATTEMPTS - blockRetryAttempts
    {
      ghost var run := RunOf(Outcomes(block, Wires(tries)));
      var outcome;
      ghost var tried;
      outcome, tried := PostBlockOnce(world, p, g, blockRetryAttempts);
      OutcomesSnoc(block, Wires(tries), tried.wire);
      WiresSnoc(tries, tried);
      tries := tries + [tried];
      if outcome.Ok? {
        return Created(outcome.value), slept, tries;
      }
      var e := outcome.error;
      if IsRetryable(e) && blockRetryAttempts < TOTAL_RETRY_ATTEMPTS {
        var retryDelay := GetRetryDelay(e, blockRetryAttempts);
        TotalSnoc(run.sleeps, retryDelay);
        slept := slept + retryDelay;
        blockRetryAttempts := blockRetryAttempts + 1;
        continue;
      }
      if IsDataError(e) || blockRetryAttempts >= TOTAL_RETRY_ATTEMPTS {
        return Skipped(e), slept, tries;
      }
      if IsCritical(e) {
        return Died(e), slept, tries;
      }
      return GaveUp(e), slept, tries;
    }
  }

  lemma EmptyRun(block: Option<Block>)
    ensures RunOf(Outcomes(block, Wires([]))) == Run(0, [], Pending)
  {
  }

  // --------------------------------------------------------------- transactions

  // Every entry of tx and every log of its receipt has been tried under document t of block blockId.
  predicate Done(s: Store, t: DocId, tx: Transaction, blockId: DocId, receipt: TransactionReceipt) {
    Finished(s, t) && s.txs[t].tx == tx && s.txs[t].block_id == blockId && s.receipts[t] == receipt
  }

  lemma DoneAfterLastEntry(s: Store, p: nat, phase: Phase, committed: Option<DocId>, outcome: Result<DocId, Err>)
    requires PhaseTrue(s, p, phase) && phase.PostEntry? && ExchangeEnabled(s, phase, committed, outcome)
    requires phase.j + 1 == |phase.g.transactions[phase.i].accessList| && phase.receipt.logs == []
    ensures var t := Exchanged(s, p, phase, committed, outcome);
            Done(t, phase.txId, phase.g.transactions[phase.i], phase.blockId, phase.receipt)
  {
    hide ParsedNumber, Coherent, Fresh, Unique, Acked;
  }

  lemma DoneAfterLastLog(s: Store, p: nat, phase: Phase, committed: Option<DocId>, outcome: Result<DocId, Err>)
    requires PhaseTrue(s, p, phase) && phase.PostLog? && ExchangeEnabled(s, phase, committed, outcome)
    requires phase.k + 1 == |phase.receipt.logs|
    ensures var t := Exchanged(s, p, phase, committed, outcome);
            Done(t, phase.txId, phase.g.transactions[phase.i], phase.blockId, phase.receipt)
  {
    hide ParsedNumber, Coherent, Fresh, Unique, Acked;
  }

  // processAccessListEntries: its own events are one create call for each entry, whatever became of the others.
  method ProcessAccessListEntries(world: World, p: nat, g: Block, blockDocId: DocId, i: nat, txDocId: DocId,
          receipt: TransactionReceipt)
    returns (ghost tries: seq<Event>)
    requires i < |g.transactions| && world.At(p, EnterEntry(g, blockDocId, i, txDocId, receipt, 0))
    requires g.transactions[i].accessList == [] && receipt.logs == [] ==>
               Done(world.state.store, txDocId, g.transactions[i], blockDocId, receipt)
    modifies world
    ensures world.At(p, EnterLog(g, blockDocId, i, txDocId, receipt, 0)) && old(world.steps) <= world.steps
    ensures AllExchanges(tries) && |tries| == |g.transactions[i].accessList|
    ensures Own(world.steps, p) == old(Own(world.steps, p)) + tries
    ensures receipt.logs == [] ==> Done(world.state.store, txDocId, g.transactions[i], blockDocId, receipt)
  {
    hide Own, ValidRun, Final, PhaseTrue, ExchangeEnabled, Exchanged, Returned, Done;
    var tx := g.transactions[i];
    tries := [];
    for j := 0 to |tx.accessList|
      invariant world.At(p, EnterEntry(g, blockDocId, i, txDocId, receipt, j)) && old(world.steps) <= world.steps
      invariant AllExchanges(tries) && |tries| == j && Own(world.steps, p) == old(Own(world.steps, p)) + tries
      invariant j == |tx.accessList| && receipt.logs == [] ==> Done(world.state.store, txDocId, tx, blockDocId, receipt)
    {
      ghost var phase := PostEntry(g, blockDocId, i, txDocId, receipt, j);
      var outcome;
      ghost var tried, before;
      outcome, tried, before := world.Call(p);
      tries := tries + [tried];
      if j + 1 == |tx.accessList| && receipt.logs == [] {
        DoneAfterLastEntry(before, p, phase, tried.committed, outcome);
      }
    }
  }

  // processTransactionLogs: its own events are one create call for each log of the receipt.
  method ProcessTransactionLogs(world: World, p: nat, g: Block, blockDocId: DocId, i: nat, txDocId: DocId,
          receipt: TransactionReceipt)
    returns (ghost tries: seq<Event>)
    requires i < |g.transactions| && world.At(p, EnterLog(g, blockDocId, i, txDocId, receipt, 0))
    requires receipt.logs == [] ==> Done(world.state.store, txDocId, g.transactions[i], blockDocId, receipt)
    modifies world
    ensures world.At(p, EnterTx(g, blockDocId, i + 1)) && old(world.steps) <= world.steps
    ensures AllExchanges(tries) && |tries| == |receipt.logs|
    ensures Own(world.steps, p) == old(Own(world.steps, p)) + tries
    ensures Done(world.state.store, txDocId, g.transactions[i], blockDocId, receipt)
  {
    hide Own, ValidRun, Final, PhaseTrue, ExchangeEnabled, Exchanged, Returned, Done;
    tries := [];
    for k := 0 to |receipt.logs|
      invariant world.At(p, EnterLog(g, blockDocId, i, txDocId, receipt, k)) && old(world.steps) <= world.steps
      invariant AllExchanges(tries) && |tries| == k && Own(world.steps, p) == old(Own(world.steps, p)) + tries
      invariant k == |receipt.logs| ==> Done(world.state.store, txDocId, g.transactions[i], blockDocId, receipt)
    {
      ghost var phase := PostLog(g, blockDocId, i, txDocId, receipt, k);
      var outcome;
      ghost var tried, before;
      outcome, tried, before := world.Call(p);
      tries := tries + [tried];
      if k + 1 == |receipt.logs| {
        DoneAfterLastLog(before, p, phase, tried.committed, outcome);
      }
    }
  }

  // Receipts from this node hold hashes and addresses as their Hex methods render them.
  ghost predicate RendersReceipts(node: EthereumClient.Node) {
    forall k: nat :: node.receiptAnswers(k).Ok? ==> RenderedReceipt(node.receiptAnswers(k).value)
  }

  ghost predicate RendersBlocks(node: EthereumClient.Node) {
    forall k: nat :: node.blockAnswers(k).Ok? ==>
      RenderedBlock(node.blockAnswers(k).value) && EthereumClient.Indexable(node.blockAnswers(k).value)
  }

  lemma DoneWithNothingToTry(s: Store, p: nat, phase: Phase, receipt: TransactionReceipt)
    requires PhaseTrue(s, p, phase) && phase.FetchReceipt?
    requires phase.g.transactions[phase.i].accessList == [] && receipt.logs == []
    ensures Done(Receive(s, phase.txId, receipt), phase.txId, phase.g.transactions[phase.i], phase.blockId, receipt)
  {
    hide ParsedNumber, Coherent, Acked;
  }

  // The receipt, or the failure to get one, moves the poller on.
  method ReceiveReceipt(world: World, p: nat, g: Block, blockDocId: DocId, i: nat, txDocId: DocId,
          source: Option<GethReceipt>)
    requires i < |g.transactions| && world.At(p, FetchReceipt(g, blockDocId, i, txDocId))
    requires source.Some? ==> RenderedReceipt(source.value)
    modifies world
    ensures old(world.steps) <= world.steps
    ensures Own(world.steps, p) == old(Own(world.steps, p)) + [NodeReceipt(source)]
    ensures source.None? ==> world.At(p, EnterTx(g, blockDocId, i + 1))
    ensures source.Some? ==>
              var receipt := EthereumClient.ReceiptOf(source.value);
              && world.At(p, EnterEntry(g, blockDocId, i, txDocId, receipt, 0))
              && (g.transactions[i].accessList == [] && receipt.logs == [] ==>
                    Done(world.state.store, txDocId, g.transactions[i], blockDocId, receipt))
  {
    hide Own, ValidRun, Final, StoreTrue, Numbered, PendingTrue, PhaseTrue, Done, EnterTx, EnterEntry,
      EthereumClient.ReceiptOf, RenderedReceipt, Receive;
    world.Interfere(p);
    RunKeeps(world.n, world.steps);
    ghost var before := world.state.store;
    assert PhaseTrue(before, p, world.state.pollers[p]);
    OwnSnoc(world.steps, Step(p, NodeReceipt(source)), p);
    world.Take(Step(p, NodeReceipt(source)));
    if source.Some? {
      var receipt := EthereumClient.ReceiptOf(source.value);
      if g.transactions[i].accessList == [] && receipt.logs == [] {
        DoneWithNothingToTry(before, p, FetchReceipt(g, blockDocId, i, txDocId), receipt);
      }
    }
  }

  // The document id that the create call of a transaction reported, if it did.
  function CreatedId(g: Block, blockId: DocId, i: nat, events: seq<Event>): Option<DocId>
    requires i < |g.transactions|
  {
    if events == [] || !events[0].Exchange? then None
    else
      match Returned(PostTx(g, blockId, i), events[0].wire)
      case Ok(id) => Some(id)
      case Err(_) => None
  }

  /**
   Exactly what one pass over a transaction consists of, when the node's next receipt answer is this
   one: the create call; if that reported an id, the receipt; if that came, a create call for every
   entry and every log. Nothing else, and no crash.
   */
  predicate TransactionTrace(g: Block, blockId: DocId, i: nat, answer: Option<GethReceipt>, events: seq<Event>)
    requires i < |g.transactions|
  {
    && events != [] && events[0].Exchange?
    && (CreatedId(g, blockId, i, events).None? ==> |events| == 1)
    && (CreatedId(g, blockId, i, events).Some? ==>
          && |events| >= 2 && events[1] == NodeReceipt(answer)
          && |events| == 2 + (if answer.Some? then |g.transactions[i].accessList| + |answer.value.logs| else 0)
          && AllExchanges(events[2..]))
  }

  // What became of a transaction: its document and the receipt fetched for it, or None if it failed before that.
  type Report = Option<(DocId, TransactionReceipt)>

  function ReportOf(g: Block, blockId: DocId, i: nat, answer: Option<GethReceipt>, events: seq<Event>): Report
    requires i < |g.transactions|
  {
    var created := CreatedId(g, blockId, i, events);
    if created.Some? && answer.Some? then Some((created.value, EthereumClient.ReceiptOf(answer.value))) else None
  }

  // The receipt request that a pass over a transaction makes: for its hash, if it was created and there is a node.
  function ReceiptRequest(node: EthereumClient.Node, g: Block, blockId: DocId, i: nat, events: seq<Event>): seq<string>
    requires i < |g.transactions|
  {
    if CreatedId(g, blockId, i, events).Some? && node.connected then [g.transactions[i].hash] else []
  }

  // The events of a pass, put together from its parts.
  lemma PassMade(g: Block, blockId: DocId, i: nat, answer: Option<GethReceipt>, tried: Event, tries: seq<Event>)
    requires i < |g.transactions| && tried.Exchange? && AllExchanges(tries)
    ensures
      match Returned(PostTx(g, blockId, i), tried.wire)
      case Err(_) =>
        && CreatedId(g, blockId, i, [tried]) == None && TransactionTrace(g, blockId, i, answer, [tried])
      case Ok(id) =>
        var events := [tried, NodeReceipt(answer)] + tries;
        && CreatedId(g, blockId, i, events) == Some(id)
        && (|tries| == (if answer.Some? then |g.transactions[i].accessList| + |answer.value.logs| else 0) ==>
              TransactionTrace(g, blockId, i, answer, events))
  {
    hide Returned;
    var events := [tried, NodeReceipt(answer)] + tries;
    assert events[2..] == tries;
  }

  lemma EventsJoin(own: seq<Event>, tried: Event, received: Event, entries: seq<Event>, logs: seq<Event>)
    ensures own + [tried] + [received] == own + ([tried, received] + [])
    ensures own + [tried] + [received] + entries + logs == own + ([tried, received] + (entries + logs))
  {
  }

  // The create call for the transaction.
  method PostTransaction(world: World, p: nat, g: Block, blockDocId: DocId, i: nat)
    returns (outcome: Result<DocId, Err>, ghost tried: Event)
    requires i < |g.transactions| && world.At(p, PostTx(g, blockDocId, i))
    modifies world
    ensures world.At(p, if outcome.Ok? then FetchReceipt(g, blockDocId, i, outcome.value) else EnterTx(g, blockDocId, i + 1))
    ensures old(world.steps) <= world.steps
    ensures tried.Exchange? && Own(world.steps, p) == old(Own(world.steps, p)) + [tried]
    ensures outcome == Returned(PostTx(g, blockDocId, i), tried.wire)
  {
    hide Own, ValidRun, Final, PhaseTrue, ExchangeEnabled, Exchanged, Returned, EnterTx;
    ghost var before;
    outcome, tried, before := world.Call(p);
  }

  /**
   processSingleTransaction. Its own events are exactly those of a pass over this transaction, with
   the node's next receipt answer, and it asks the node for that receipt only.
   */
  method ProcessSingleTransaction(world: World, p: nat, node: EthereumClient.Node, g: Block, blockDocId: DocId, i: nat)
    returns (ghost events: seq<Event>)
    requires i < |g.transactions| && world.At(p, PostTx(g, blockDocId, i)) && RendersReceipts(node)
    modifies world, node`receipts
    ensures world.At(p, EnterTx(g, blockDocId, i + 1)) && old(world.steps) <= world.steps
    ensures Own(world.steps, p) == old(Own(world.steps, p)) + events
    ensures
      var answer := EthereumClient.ReceiptAnswer(node, |old(node.receipts)|);
      && TransactionTrace(g, blockDocId, i, answer, events)
      && node.receipts == old(node.receipts) + ReceiptRequest(node, g, blockDocId, i, events)
      && ReportTrue(world.state.store, g.transactions[i], blockDocId, ReportOf(g, blockDocId, i, answer, events))
  {
    hide World.At, Own, Returned, Done, EnterTx, EnterEntry, EnterLog, RenderedReceipt, TransactionTrace, CreatedId,
      EthereumClient.LogOf;
    var tx := g.transactions[i];
    ghost var own := Own(world.steps, p);
    var created;
    ghost var tried;
    created, tried := PostTransaction(world, p, g, blockDocId, i);
    ghost var answer := EthereumClient.ReceiptAnswer(node, |node.receipts|);
    events := [tried];
    if created.Err? {
      PassMade(g, blockDocId, i, answer, tried, []);
      return;
    }
    var fetched, source := EthereumClient.GetTransactionReceipt(node, tx.hash);
    ReceiveReceipt(world, p, g, blockDocId, i, created.value, source);
    if fetched.Err? {
      events := [tried, NodeReceipt(answer)] + [];
      EventsJoin(own, tried, NodeReceipt(answer), [], []);
      PassMade(g, blockDocId, i, answer, tried, []);
      return;
    }
    ghost var entries := ProcessAccessListEntries(world, p, g, blockDocId, i, created.value, fetched.value);
    ghost var logs := ProcessTransactionLogs(world, p, g, blockDocId, i, created.value, fetched.value);
    events := [tried, NodeReceipt(answer)] + (entries + logs);
    EventsJoin(own, tried, NodeReceipt(answer), entries, logs);
    PassMade(g, blockDocId, i, answer, tried, entries + logs);
  }

  predicate ReportTrue(s: Store, tx: Transaction, blockId: DocId, report: Report) {
    report.Some? ==> Done(s, report.value.0, tx, blockId, report.value.1)
  }

  predicate ReportsTrue(s: Store, txs: seq<Transaction>, blockId: DocId, reports: seq<Report>) {
    |reports| <= |txs| && forall i | 0 <= i < |reports| :: ReportTrue(s, txs[i], blockId, reports[i])
  }

  lemma ReportsStay(n: nat, steps: seq<Step>, more: seq<Step>, txs: seq<Transaction>, blockId: DocId,
          reports: seq<Report>)
    requires steps <= more && ValidRun(n, steps) && ValidRun(n, more)
    requires ReportsTrue(Final(n, steps).store, txs, blockId, reports)
    ensures ReportsTrue(Final(n, more).store, txs, blockId, reports)
  {
    hide ValidRun, Final, Finished;
    assert more[..|steps|] == steps;
    forall i | 0 <= i < |reports| ensures ReportTrue(Final(n, more).store, txs[i], blockId, reports[i]) {
      assert ReportTrue(Final(n, steps).store, txs[i], blockId, reports[i]);
      if reports[i].Some? {
        FinishedIsFinal(n, more, |steps|, reports[i].value.0);
      }
    }
  }

  // ------------------------------------------------------------- whole blocks

  // The receipt requests of the passes over the first transactions of a block.
  function Asked(node: EthereumClient.Node, g: Block, blockId: DocId, traces: seq<seq<Event>>): seq<string>
    requires |traces| <= |g.transactions|
  {
    if traces == [] then []
    else
      var n := |traces| - 1;
      Asked(node, g, blockId, traces[..n]) + ReceiptRequest(node, g, blockId, n, traces[n])
  }

  // The node's receipt answer for the i-th pass, when it had made so many requests before the block.
  function AnswerFor(node: EthereumClient.Node, base: nat, g: Block, blockId: DocId, traces: seq<seq<Event>>, i: nat)
    : Option<GethReceipt>
    requires i <= |traces| <= |g.transactions|
  {
    EthereumClient.ReceiptAnswer(node, base + |Asked(node, g, blockId, traces[..i])|)
  }

  function Flatten(traces: seq<seq<Event>>): seq<Event> {
    if traces == [] then [] else Flatten(traces[..|traces| - 1]) + traces[|traces| - 1]
  }

  // The i-th trace is an exact pass over the i-th transaction, and this is the report read off it.
  predicate PassAt(node: EthereumClient.Node, base: nat, g: Block, blockId: DocId, traces: seq<seq<Event>>, i: nat,
          report: Report)
    requires i < |traces| <= |g.transactions|
  {
    var answer := AnswerFor(node, base, g, blockId, traces, i);
    TransactionTrace(g, blockId, i, answer, traces[i]) && report == ReportOf(g, blockId, i, answer, traces[i])
  }

  // One exact trace for each of the first transactions, and one report read off each of them.
  predicate Passes(node: EthereumClient.Node, base: nat, g: Block, blockId: DocId, traces: seq<seq<Event>>,
          reports: seq<Report>) {
    && |reports| == |traces| <= |g.transactions|
    && forall i | 0 <= i < |traces| :: PassAt(node, base, g, blockId, traces, i, reports[i])
  }

  lemma AnswerStays(node: EthereumClient.Node, base: nat, g: Block, blockId: DocId, traces: seq<seq<Event>>,
          events: seq<Event>, i: nat)
    requires i <= |traces| < |g.transactions|
    ensures AnswerFor(node, base, g, blockId, traces + [events], i) == AnswerFor(node, base, g, blockId, traces, i)
  {
    assert (traces + [events])[..i] == traces[..i];
  }

  lemma OneMorePass(node: EthereumClient.Node, base: nat, g: Block, blockId: DocId, traces: seq<seq<Event>>,
          reports: seq<Report>, events: seq<Event>)
    requires Passes(node, base, g, blockId, traces, reports) && |traces| < |g.transactions|
    requires TransactionTrace(g, blockId, |traces|, AnswerFor(node, base, g, blockId, traces, |traces|), events)
    ensures
      var report := ReportOf(g, blockId, |traces|, AnswerFor(node, base, g, blockId, traces, |traces|), events);
      Passes(node, base, g, blockId, traces + [events], reports + [report])
  {
    hide TransactionTrace, ReportOf, AnswerFor;
    var more, n := traces + [events], |traces|;
    forall i | 0 <= i < n ensures PassAt(node, base, g, blockId, more, i, reports[i]) {
      assert PassAt(node, base, g, blockId, traces, i, reports[i]);
      AnswerStays(node, base, g, blockId, traces, events, i);
      assert more[i] == traces[i];
    }
    AnswerStays(node, base, g, blockId, traces, events, n);
  }

  lemma OneMoreTrace(node: EthereumClient.Node, g: Block, blockId: DocId, traces: seq<seq<Event>>, events: seq<Event>)
    requires |traces| < |g.transactions|
    ensures Asked(node, g, blockId, traces + [events]) ==
              Asked(node, g, blockId, traces) + ReceiptRequest(node, g, blockId, |traces|, events)
    ensures Flatten(traces + [events]) == Flatten(traces) + events
  {
    hide ReceiptRequest;
    assert (traces + [events])[..|traces|] == traces;
  }

  /**
   processTransactions. Its own events are exactly one pass over each transaction of the block, in
   order; it asks the node for the receipts of the created ones only. A transaction is reported on if
   it was created and its receipt came; then all its entries and logs have been tried, and that is
   still so at the end.
   */
  method ProcessTransactions(world: World, p: nat, node: EthereumClient.Node, g: Block, blockDocId: DocId)
    returns (ghost traces: seq<seq<Event>>, ghost reports: seq<Report>)
    requires world.At(p, EnterTx(g, blockDocId, 0)) && RendersReceipts(node)
    modifies world, node`receipts
    ensures world.At(p, Idle) && old(world.steps) <= world.steps
    ensures |traces| == |g.transactions| && Own(world.steps, p) == old(Own(world.steps, p)) + Flatten(traces)
    ensures Passes(node, |old(node.receipts)|, g, blockDocId, traces, reports)
    ensures node.receipts == old(node.receipts) + Asked(node, g, blockDocId, traces)
    ensures ReportsTrue(world.state.store, g.transactions, blockDocId, reports)
  {
    hide Own, ValidRun, Final, Done, ReportsTrue, ReportTrue, Passes, TransactionTrace, ReportOf, ReceiptRequest, Asked,
      Flatten, RenderedReceipt;
    traces, reports := [], [];
    NoReports(world.state.store, g.transactions, blockDocId);
    NoPasses(node, |node.receipts|, g, blockDocId);
    for i := 0 to |g.transactions|
      invariant world.At(p, EnterTx(g, blockDocId, i)) && old(world.steps) <= world.steps
      invariant |traces| == |reports| == i && Own(world.steps, p) == old(Own(world.steps, p)) + Flatten(traces)
      invariant Passes(node, |old(node.receipts)|, g, blockDocId, traces, reports)
      invariant node.receipts == old(node.receipts) + Asked(node, g, blockDocId, traces)
      invariant ReportsTrue(world.state.store, g.transactions, blockDocId, reports)
    {
      ghost var steps := world.steps;
      ghost var answer := AnswerFor(node, |old(node.receipts)|, g, blockDocId, traces, i);
      assert traces[..i] == traces;
      ghost var events := ProcessSingleTransaction(world, p, node, g, blockDocId, i);
      ReportsStay(world.n, steps, world.steps, g.transactions, blockDocId, reports);
      OneMorePass(node, |old(node.receipts)|, g, blockDocId, traces, reports, events);
      OneMoreTrace(node, g, blockDocId, traces, events);
      OneMoreReport(world.state.store, g.transactions, blockDocId, reports, ReportOf(g, blockDocId, i, answer, events));
      traces, reports := traces + [events], reports + [ReportOf(g, blockDocId, i, answer, events)];
    }
  }

  function Calls(events: seq<Event>): nat {
    if events == [] then 0
    else Calls(events[..|events| - 1]) + (if events[|events| - 1].Exchange? then 1 else 0)
  }

  lemma {:induction false} CallsJoin(a: seq<Event>, b: seq<Event>)
    ensures Calls(a + b) == Calls(a) + Calls(b)
    decreases |b|
  {
    if b == [] {
      assert a + b == a;
    } else {
      var n := |b| - 1;
      assert (a + b)[..|a| + n] == a + b[..n];
      CallsJoin(a, b[..n]);
    }
  }

  lemma {:induction false} CallsOfExchanges(events: seq<Event>)
    requires AllExchanges(events)
    ensures Calls(events) == |events|
  {
    if events != [] {
      CallsOfExchanges(events[..|events| - 1]);
    }
  }

  // One call for each reported or failed transaction, and one for each child of a reported one.
  function CallsFor(g: Block, reports: seq<Report>): nat
    requires |reports| <= |g.transactions|
  {
    if reports == [] then 0
    else
      var n := |reports| - 1;
      CallsFor(g, reports[..n]) + 1 +
      (if reports[n].Some? then |g.transactions[n].accessList| + |reports[n].value.1.logs| else 0)
  }

  lemma PassCalls(g: Block, blockId: DocId, i: nat, answer: Option<GethReceipt>, events: seq<Event>)
    requires i < |g.transactions| && TransactionTrace(g, blockId, i, answer, events)
    ensures
      var report := ReportOf(g, blockId, i, answer, events);
      Calls(events) == 1 + (if report.Some? then |g.transactions[i].accessList| + |report.value.1.logs| else 0)
  {
    hide Returned, EthereumClient.LogOf;
    if |events| == 1 {
      CallsOfExchanges(events);
    } else {
      CallsOfExchanges(events[..1]);
      CallsOfExchanges(events[2..]);
      assert Calls(events[..2]) == 1 by { assert events[..2][..1] == events[..1]; }
      CallsJoin(events[..2], events[2..]);
      assert events == events[..2] + events[2..];
    }
  }

  // The create calls of a block's passes are exactly one for each transaction and each child that was due.
  lemma {:induction false} BlockCalls(node: EthereumClient.Node, base: nat, g: Block, blockId: DocId,
          traces: seq<seq<Event>>, reports: seq<Report>)
    requires Passes(node, base, g, blockId, traces, reports)
    ensures Calls(Flatten(traces)) == CallsFor(g, reports)
    decreases |traces|
  {
    hide TransactionTrace, ReportOf, AnswerFor, Calls;
    if traces == [] {
      NoCalls();
    } else {
      var n := |traces| - 1;
      FewerPasses(node, base, g, blockId, traces, reports);
      BlockCalls(node, base, g, blockId, traces[..n], reports[..n]);
      assert PassAt(node, base, g, blockId, traces, n, reports[n]);
      PassCalls(g, blockId, n, AnswerFor(node, base, g, blockId, traces, n), traces[n]);
      CallsJoin(Flatten(traces[..n]), traces[n]);
    }
  }

  lemma NoCalls()
    ensures Calls([]) == 0
  {
  }

  lemma FewerPasses(node: EthereumClient.Node, base: nat, g: Block, blockId: DocId, traces: seq<seq<Event>>,
          reports: seq<Report>)
    requires Passes(node, base, g, blockId, traces, reports) && traces != []
    ensures Passes(node, base, g, blockId, traces[..|traces| - 1], reports[..|traces| - 1])
  {
    hide TransactionTrace, ReportOf, AnswerFor;
    var n := |traces| - 1;
    forall i | 0 <= i < n ensures PassAt(node, base, g, blockId, traces[..n], i, reports[..n][i]) {
      assert PassAt(node, base, g, blockId, traces, i, reports[i]);
      AnswerStays(node, base, g, blockId, traces[..n], traces[n], i);
      assert traces[..n] + [traces[n]] == traces;
    }
  }

  lemma NoPasses(node: EthereumClient.Node, base: nat, g: Block, blockId: DocId)
    ensures Passes(node, base, g, blockId, [], []) && Flatten([]) == [] && Asked(node, g, blockId, []) == []
  {
  }

  lemma NoReports(s: Store, txs: seq<Transaction>, blockId: DocId)
    ensures ReportsTrue(s, txs, blockId, [])
  {
  }

  lemma OneMoreReport(s: Store, txs: seq<Transaction>, blockId: DocId, reports: seq<Report>, report: Report)
    requires ReportsTrue(s, txs, blockId, reports) && |reports| < |txs|
    requires ReportTrue(s, txs[|reports|], blockId, report)
    ensures ReportsTrue(s, txs, blockId, reports + [report])
  {
    hide Done;
  }

  // --------------------------------------------------------------- the main loop

  // The poller's next block.
  method ReceiveBlock(world: World, p: nat, source: GethBlock)
    requires world.At(p, Idle) && RenderedBlock(source) && EthereumClient.Indexable(source)
    modifies world
    ensures old(world.steps) <= world.steps
    ensures Own(world.steps, p) == old(Own(world.steps, p)) + [NodeBlock(Some(source))]
    ensures world.At(p, PostBlock(EthereumClient.BlockOf(source), 0))
  {
    hide Own, ValidRun, Final, EthereumClient.BlockOf, RenderedBlock;
    world.Interfere(p);
    OwnSnoc(world.steps, Step(p, NodeBlock(Some(source))), p);
    world.Take(Step(p, NodeBlock(Some(source))));
  }

  lemma RoundJoin(own: seq<Event>, received: Event, tries: seq<Event>, passes: seq<Event>)
    ensures own + [received] + tries + passes == own + ([received] + tries + passes)
    ensures own + [received] + tries + [] == own + [received] + tries
  {
  }

  /**
   One round of the main loop. source is the block that the node's next answers yield, if any, and
   tries the exchanges of the create calls for it. Without a block nothing happens. With one, the
   poller's own events are exactly the block, those calls, and, if the block was created, the passes
   over its transactions. The loop neither dies nor gives up on an unknown error; if it skips the
   block, it made one call when the block's number is out of range, and otherwise four calls with
   three seconds of waiting.
   */
  method PollOnce(world: World, p: nat, node: EthereumClient.Node)
    returns (verdict: Verdict, slept: nat, ghost source: Option<GethBlock>, ghost tries: seq<Event>,
             ghost traces: seq<seq<Event>>, ghost reports: seq<Report>)
    requires world.At(p, Idle) && RendersReceipts(node) && RendersBlocks(node)
    modifies world, node`receipts, node`heads, node`requests
    ensures world.At(p, Idle) && old(world.steps) <= world.steps
    ensures source == EthereumClient.LatestAnswer(node, old(node.heads), |old(node.requests)|)
    ensures node.requests == old(node.requests) + EthereumClient.LatestRequests(node, old(node.heads), |old(node.requests)|)
    ensures source.None? ==>
              && verdict.Pending? && slept == 0 && Own(world.steps, p) == old(Own(world.steps, p))
              && node.receipts == old(node.receipts)
    ensures source.Some? ==>
              && EthereumClient.Indexable(source.value) && AllExchanges(tries)
              && var block := Some(BuildBlock(EthereumClient.BlockOf(source.value)));
                 var run := RunOf(Outcomes(block, Wires(tries)));
                 && verdict == run.verdict && slept == Total(run.sleeps) && run.calls == |tries|
                 && (verdict.Skipped? || verdict.Created?)
                 && (verdict.Skipped? ==>
                       if Unsendable(block) then |tries| == 1 && slept == 0 else |tries| == 4 && slept == 3 * SECOND)
    ensures source.Some? ==>
              Own(world.steps, p) == old(Own(world.steps, p)) + ([NodeBlock(source)] + tries + Flatten(traces))
    ensures source.Some? && verdict.Skipped? ==> traces == [] && node.receipts == old(node.receipts)
    ensures source.Some? && verdict.Created? ==>
              && EthereumClient.Indexable(source.value)
              && var g := EthereumClient.BlockOf(source.value);
                 && |traces| == |g.transactions|
                 && Passes(node, |old(node.receipts)|, g, verdict.docId, traces, reports)
                 && node.receipts == old(node.receipts) + Asked(node, g, verdict.docId, traces)
                 && ReportsTrue(world.state.store, g.transactions, verdict.docId, reports)
  {
    hide Own, ValidRun, Final, EthereumClient.BlockOf, RenderedBlock, RenderedReceipt, EnterTx, RunOf, Outcomes, Wires,
      Unsendable, ReportsTrue, BuildBlock, Passes, Asked, Flatten, EthereumClient.LatestAnswer, EthereumClient.LatestRequests,
      World.At, IsDataError;
    verdict, slept, tries, traces, reports := Pending, 0, [], [], [];
    var latest, answer := EthereumClient.GetLatestBlock(node);
    source := answer;
    if latest.Err? {
      return;
    }
    var g := latest.value;
    ghost var own := Own(world.steps, p);
    ReceiveBlock(world, p, answer.value);
    verdict, slept, tries := CreateBlockWithRetry(world, p, g);
    ComposedRetry(Some(BuildBlock(g)), Wires(tries));
    NoPasses(node, |node.receipts|, g, "");
    RoundJoin(own, NodeBlock(source), tries, []);
    if !verdict.Created? {
      return;
    }
    traces, reports := ProcessTransactions(world, p, node, g, verdict.docId);
    RoundJoin(own, NodeBlock(source), tries, Flatten(traces));
  }
}
