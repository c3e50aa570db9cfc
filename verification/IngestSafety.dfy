/**
 What the ingest pipeline guarantees over every run: any number of pollers, any interleaving, any
 pattern of refusals, lost replies, late commits, failed fetches and crashes.
 */
module IngestSafety {
  import opened Wrappers
  import opened Errors
  import opened Types
  import opened BlockHandler
  import opened Requests
  import opened RetryControl
  import opened Ingest
  import opened IngestInvariant
  import opened IngestSteps
  import EthereumClient

  // ------------------------------------------------------------ subsequences

  // at picks out xs from ys, in order and without using a position twice.
  predicate Embeds<T(==)>(xs: seq<T>, ys: seq<T>, at: seq<nat>) {
    && |at| == |xs|
    && (forall i | 0 <= i < |at| :: at[i] < |ys| && ys[at[i]] == xs[i])
    && (forall i, j | 0 <= i < j < |at| :: at[i] < at[j])
  }

  ghost predicate Subsequence<T>(xs: seq<T>, ys: seq<T>) {
    exists at :: Embeds(xs, ys, at)
  }

  // The positions that were committed.
  function Positions(fates: seq<bool>): (at: seq<nat>)
    ensures forall i | 0 <= i < |at| :: at[i] < |fates|
  {
    if fates == [] then []
    else
      var n := |fates| - 1;
      Positions(fates[..n]) + (if fates[n] then [n] else [])
  }

  lemma {:induction false} SelectedEmbeds<T>(list: seq<T>, fates: seq<bool>)
    requires |fates| <= |list|
    ensures Embeds(Selected(list, fates), list, Positions(fates))
  {
    if fates != [] {
      SelectedEmbeds(list, fates[..|fates| - 1]);
    }
  }

  lemma {:induction false} SelectedCopies<T>(list: seq<T>, fates: seq<bool>)
    requires |fates| <= |list|
    ensures multiset(Selected(list, fates)) <= multiset(list[..|fates|])
  {
    if fates != [] {
      var n := |fates| - 1;
      SelectedCopies(list, fates[..n]);
      assert list[..n + 1] == list[..n] + [list[n]];
    }
  }

  lemma {:induction false} SelectedAll<T>(list: seq<T>, fates: seq<bool>)
    requires |fates| <= |list| && forall i | 0 <= i < |fates| :: fates[i]
    ensures Selected(list, fates) == list[..|fates|]
  {
    if fates != [] {
      var n := |fates| - 1;
      SelectedAll(list, fates[..n]);
      assert list[..n + 1] == list[..n] + [list[n]];
    }
  }

  // ------------------------------------------------------------- prompt stores

  // No request is committed after its call.
  predicate Prompt(steps: seq<Step>) {
    forall i | 0 <= i < |steps| :: !steps[i].event.Land?
  }

  lemma StepLate(s: State, step: Step)
    requires Enabled(s, step)
    ensures Apply(s, step).store.late == (s.store.late || step.event.Land?)
  {
    hide Answered, Landed, Returned, Next, ExchangeEnabled, LandEnabled, Sends;
    if step.event.Exchange? {
      var phase := s.pollers[step.p];
      ExchangeMayCommit(s.store, phase, step.event.committed, Returned(phase, step.event.wire));
      AnsweredHistory(s.store, step.p, phase, step.event.committed, Returned(phase, step.event.wire));
    } else if step.event.Land? {
      LandInRange(s.store, step.p, step.event.i, step.event.id);
      LandedHistory(s.store, step.event.i, step.event.id);
    }
  }

  lemma ExchangeMayCommit(s: Store, phase: Phase, committed: Option<DocId>, outcome: Result<DocId, Err>)
    requires InRange(phase) && Posting(phase) && ExchangeEnabled(s, phase, committed, outcome)
    ensures committed.Some? ==> Sends(phase)
  {
  }

  lemma {:induction false} LateExactly(n: nat, steps: seq<Step>)
    requires ValidRun(n, steps)
    ensures Final(n, steps).store.late <==> !Prompt(steps)
  {
    hide Enabled, Apply;
    if steps != [] {
      var before, last := steps[..|steps| - 1], steps[|steps| - 1];
      LateExactly(n, before);
      StepLate(Final(n, before), last);
      assert steps == before + [last];
    }
  }

  // ------------------------------------------------------- at-most-once children

  /**
   At-most-once storage. In every reachable state the Log documents of a Transaction document are
   logs of the one receipt fetched for it, none more often than the receipt has it, and likewise its
   AccessListEntry documents against the transaction's access list. If no request was committed late,
   they are subsequences of those lists in creation order. There is only one Transaction document per
   transaction hash.
   */
  lemma ChildrenAtMostOnce(n: nat, steps: seq<Step>, t: DocId)
    requires ValidRun(n, steps) && t in Final(n, steps).store.txs
    ensures
      var s := Final(n, steps).store;
      && (t !in s.receipts ==> LogsOf(s.logs, t) == [] && EntriesOf(s.entries, t) == [])
      && (t in s.receipts ==>
            && multiset(LogsOf(s.logs, t)) <= multiset(s.receipts[t].logs)
            && multiset(EntriesOf(s.entries, t)) <= multiset(s.txs[t].tx.accessList))
      && (t in s.receipts && Prompt(steps) ==>
            && Subsequence(LogsOf(s.logs, t), s.receipts[t].logs)
            && Subsequence(EntriesOf(s.entries, t), s.txs[t].tx.accessList))
      && forall u | u in s.txs && s.txs[u].tx.hash == s.txs[t].tx.hash :: u == t
  {
    hide ValidRun, Final, Numbered, PhaseTrue, PendingTrue, LogsOf, EntriesOf, Selected, Prompt;
    RunKeeps(n, steps);
    LateExactly(n, steps);
    var s := Final(n, steps).store;
    assert LogsExact(t, s.receipts, s.logFates, s.late, s.logs);
    assert EntriesExact(t, s.txs[t], s.receipts, s.entryFates, s.late, s.entries);
    if t in s.receipts {
      SelectedIsSubsequence(s.receipts[t].logs, s.logFates[t]);
      SelectedIsSubsequence(s.txs[t].tx.accessList, s.entryFates[t]);
    }
  }

  lemma SelectedIsSubsequence<T>(list: seq<T>, fates: seq<bool>)
    requires |fates| <= |list|
    ensures Subsequence(Selected(list, fates), list) && multiset(Selected(list, fates)) <= multiset(list)
  {
    SelectedEmbeds(list, fates);
    SelectedCopies(list, fates);
    assert list == list[..|fates|] + list[|fates|..];
  }

  predicate AllTrue(fates: seq<bool>) {
    forall i | 0 <= i < |fates| :: fates[i]
  }

  /**
   Exactness: nothing is stored but what was committed, nothing committed is missing. If every
   create call for a transaction's entries and logs was made and committed, its documents are its
   whole access list and the receipt's whole log list. Without late commits all this holds in order.
   */
  lemma ChildrenExactlyTheCommitted(n: nat, steps: seq<Step>, t: DocId)
    requires ValidRun(n, steps) && t in Final(n, steps).store.receipts
    ensures
      var s := Final(n, steps).store;
      && t in s.txs && t in s.logFates && t in s.entryFates
      && |s.logFates[t]| <= |s.receipts[t].logs| && |s.entryFates[t]| <= |s.txs[t].tx.accessList|
      && multiset(LogsOf(s.logs, t)) == multiset(Selected(s.receipts[t].logs, s.logFates[t]))
      && multiset(EntriesOf(s.entries, t)) == multiset(Selected(s.txs[t].tx.accessList, s.entryFates[t]))
      && (Prompt(steps) ==> LogsOf(s.logs, t) == Selected(s.receipts[t].logs, s.logFates[t]))
      && (Prompt(steps) ==> EntriesOf(s.entries, t) == Selected(s.txs[t].tx.accessList, s.entryFates[t]))
      && (AllTrue(s.logFates[t]) && |s.logFates[t]| == |s.receipts[t].logs| ==>
            && multiset(LogsOf(s.logs, t)) == multiset(s.receipts[t].logs)
            && (Prompt(steps) ==> LogsOf(s.logs, t) == s.receipts[t].logs))
      && (AllTrue(s.entryFates[t]) && |s.entryFates[t]| == |s.txs[t].tx.accessList| ==>
            && multiset(EntriesOf(s.entries, t)) == multiset(s.txs[t].tx.accessList)
            && (Prompt(steps) ==> EntriesOf(s.entries, t) == s.txs[t].tx.accessList))
  {
    hide ValidRun, Final, Numbered, PhaseTrue, PendingTrue, LogsOf, EntriesOf, Selected, Prompt, AllTrue;
    RunKeeps(n, steps);
    LateExactly(n, steps);
    var s := Final(n, steps).store;
    assert t in s.txs;
    assert LogsExact(t, s.receipts, s.logFates, s.late, s.logs);
    assert EntriesExact(t, s.txs[t], s.receipts, s.entryFates, s.late, s.entries);
    SelectedWhole(s.receipts[t].logs, s.logFates[t]);
    SelectedWhole(s.txs[t].tx.accessList, s.entryFates[t]);
  }

  lemma SelectedWhole<T>(list: seq<T>, fates: seq<bool>)
    requires |fates| <= |list|
    ensures AllTrue(fates) && |fates| == |list| ==> Selected(list, fates) == list
  {
    if AllTrue(fates) && |fates| == |list| {
      SelectedAll(list, fates);
      assert list[..|fates|] == list;
    }
  }

  // --------------------------------------------------- duplicate block protection

  // The phases that post, or fetch, below a block.
  predicate UnderBlock(phase: Phase) {
    phase.PostTx? || phase.FetchReceipt? || phase.PostEntry? || phase.PostLog?
  }

  lemma PhaseAcked(s: Store, p: nat, phase: Phase)
    requires PhaseTrue(s, p, phase) && UnderBlock(phase)
    ensures Acked(s.acks, phase.blockId, p) && phase.blockId in s.blocks && s.blocks[phase.blockId].poller == p
  {
    hide Acked, Coherent, ParsedNumber, PlainText, BuildBlock;
  }

  lemma InFlightAcked(s: Store, p: nat, phase: Phase)
    requires InFlightTrue(s, p, phase) && UnderBlock(phase)
    ensures Acked(s.acks, phase.blockId, p)
  {
    hide Acked, Coherent, ParsedNumber, PlainText, BuildBlock;
  }

  lemma AckOwner(s: Store, t: DocId, i: nat)
    requires AcksTrue(s.acks, s.blocks) && TxsLinked(s.txs, s.blocks, s.acks)
    requires t in s.txs && i < |s.acks| && s.acks[i].id == s.txs[t].block_id
    ensures s.acks[i].poller == s.txs[t].poller && s.acks[i].hash == s.txs[t].tx.blockHash
  {
    assert TxLinked(s.txs[t], s.blocks, s.acks);
  }

  /**
   Duplicate block protection. At most one create per block hash ever reports success; the poller
   it was reported to posted every Transaction document under that block, and every
   AccessListEntry and Log document under those. In every reachable state, so before every request,
   a poller working under a block is the one its creation was reported to, and so it is with every
   request in flight.
   */
  lemma OneSuccessPerBlock(n: nat, steps: seq<Step>)
    requires ValidRun(n, steps)
    ensures
      var s := Final(n, steps).store;
      && (forall i, j | 0 <= i < j < |s.acks| :: s.acks[i].hash != s.acks[j].hash)
      && (forall t | t in s.txs :: Acked(s.acks, s.txs[t].block_id, s.txs[t].poller))
      && (forall t, i | t in s.txs && 0 <= i < |s.acks| && s.acks[i].id == s.txs[t].block_id ::
            s.acks[i].poller == s.txs[t].poller && s.acks[i].hash == s.txs[t].tx.blockHash)
      && (forall i | 0 <= i < |s.entries| ::
            s.entries[i].transaction_id in s.txs && s.entries[i].poller == s.txs[s.entries[i].transaction_id].poller)
      && (forall i | 0 <= i < |s.logs| ::
            s.logs[i].transaction_id in s.txs && s.logs[i].poller == s.txs[s.logs[i].transaction_id].poller)
      && (forall p | 0 <= p < |Final(n, steps).pollers| && UnderBlock(Final(n, steps).pollers[p]) ::
            Acked(s.acks, Final(n, steps).pollers[p].blockId, p))
      && (forall i | 0 <= i < |s.pending| && UnderBlock(s.pending[i].phase) ::
            Acked(s.acks, s.pending[i].phase.blockId, s.pending[i].p))
  {
    hide ValidRun, Final, Numbered, PhaseTrue, InFlightTrue, AllLogsExact, AllEntriesExact, TxHashesUnique, Acked;
    RunKeeps(n, steps);
    var s := Final(n, steps).store;
    forall p | 0 <= p < |Final(n, steps).pollers| && UnderBlock(Final(n, steps).pollers[p])
      ensures Acked(s.acks, Final(n, steps).pollers[p].blockId, p)
    {
      assert PhaseTrue(s, p, Final(n, steps).pollers[p]);
      PhaseAcked(s, p, Final(n, steps).pollers[p]);
    }
    forall i | 0 <= i < |s.pending| && UnderBlock(s.pending[i].phase)
      ensures Acked(s.acks, s.pending[i].phase.blockId, s.pending[i].p)
    {
      assert InFlightTrue(s, s.pending[i].p, s.pending[i].phase);
      InFlightAcked(s, s.pending[i].p, s.pending[i].phase);
    }
    forall i, j | 0 <= i < j < |s.acks| ensures s.acks[i].hash != s.acks[j].hash {
      assert s.acks[i].id != s.acks[j].id;
    }
    forall t | t in s.txs ensures Acked(s.acks, s.txs[t].block_id, s.txs[t].poller) {
      assert TxLinked(s.txs[t], s.blocks, s.acks);
    }
    forall t, i | t in s.txs && 0 <= i < |s.acks| && s.acks[i].id == s.txs[t].block_id
      ensures s.acks[i].poller == s.txs[t].poller && s.acks[i].hash == s.txs[t].tx.blockHash
    {
      AckOwner(s, t, i);
    }
    forall i | 0 <= i < |s.entries|
      ensures s.entries[i].transaction_id in s.txs && s.entries[i].poller == s.txs[s.entries[i].transaction_id].poller
    {
      assert EntryLinked(s.entries[i], s.txs);
    }
    forall i | 0 <= i < |s.logs|
      ensures s.logs[i].transaction_id in s.txs && s.logs[i].poller == s.txs[s.logs[i].transaction_id].poller
    {
      assert LogLinked(s.logs[i], s.txs);
    }
  }

  // A Block document whose creation was never reported.
  predicate Orphan(s: Store, b: DocId) {
    b in s.blocks && forall i | 0 <= i < |s.acks| :: s.acks[i].id != b
  }

  lemma OrphanStays(s: State, step: Step, b: DocId)
    requires Enabled(s, step) && Orphan(s.store, b)
    ensures Orphan(Apply(s, step).store, b)
  {
    hide Answered, Landed, Returned, Next, ExchangeEnabled, LandEnabled, Sends;
    if step.event.Exchange? {
      var phase := s.pollers[step.p];
      ExchangeMayCommit(s.store, phase, step.event.committed, Returned(phase, step.event.wire));
      AnswerKeepsOrphan(s.store, step.p, phase, step.event.committed, Returned(phase, step.event.wire), b);
    } else if step.event.Land? {
      LandInRange(s.store, step.p, step.event.i, step.event.id);
      LandedHistory(s.store, step.event.i, step.event.id);
    }
  }

  lemma AnswerKeepsOrphan(s: Store, p: nat, phase: Phase, committed: Option<DocId>, outcome: Result<DocId, Err>,
          b: DocId)
    requires InRange(phase) && Posting(phase) && ExchangeEnabled(s, phase, committed, outcome) && Orphan(s, b)
    ensures Orphan(Answered(s, p, phase, committed, outcome), b)
  {
    hide PlainText, EntryIds, LogIds, ParsedNumber;
  }

  /**
   A Block document whose reply was lost stays childless: once it is in the store without its
   creation having been reported, then in every later state no create for its hash has reported
   success and no Transaction or Log document points at it.
   */
  lemma {:induction false} LostBlockStaysChildless(n: nat, steps: seq<Step>, m: nat, b: DocId)
    requires ValidRun(n, steps) && m <= |steps|
    requires ValidRun(n, steps[..m]) && Orphan(Final(n, steps[..m]).store, b)
    ensures
      var s := Final(n, steps).store;
      && Orphan(s, b)
      && (forall i | 0 <= i < |s.acks| :: s.acks[i].hash != s.blocks[b].block.hash)
      && (forall t | t in s.txs :: s.txs[t].block_id != b)
      && (forall i | 0 <= i < |s.logs| :: s.logs[i].block_id != b)
    decreases |steps|
  {
    hide Enabled, Apply, ValidRun, Final, Numbered, PhaseTrue, PendingTrue, AllLogsExact, AllEntriesExact, TxHashesUnique;
    OrphanLater(n, steps, m, b);
    RunKeeps(n, steps);
    var s := Final(n, steps).store;
    forall t | t in s.txs ensures s.txs[t].block_id != b {
      assert TxLinked(s.txs[t], s.blocks, s.acks);
    }
    forall i | 0 <= i < |s.logs| ensures s.logs[i].block_id != b {
      assert LogLinked(s.logs[i], s.txs);
    }
  }

  lemma {:induction false} OrphanLater(n: nat, steps: seq<Step>, m: nat, b: DocId)
    requires ValidRun(n, steps) && m <= |steps|
    requires ValidRun(n, steps[..m]) && Orphan(Final(n, steps[..m]).store, b)
    ensures Orphan(Final(n, steps).store, b)
    decreases |steps|
  {
    hide Enabled, Apply, Orphan;
    if m < |steps| {
      var before := steps[..|steps| - 1];
      assert before[..m] == steps[..m];
      OrphanLater(n, before, m, b);
      OrphanStays(Final(n, before), steps[|steps| - 1], b);
    } else {
      assert steps[..m] == steps;
    }
  }

  // ------------------------------------------------------------------- history

  // What was tried stays tried, and what was committed stays committed.
  predicate FatesGrow(a: seq<bool>, b: seq<bool>) {
    |a| <= |b| && forall i | 0 <= i < |a| :: a[i] ==> b[i]
  }

  // A receipt is never replaced, and the fates of the transaction's children only grow.
  predicate HistoryGrows(s: Store, t: Store) {
    && (forall x | x in s.receipts :: x in t.receipts && t.receipts[x] == s.receipts[x])
    && (forall x | x in s.receipts && x in s.entryFates :: x in t.entryFates && FatesGrow(s.entryFates[x], t.entryFates[x]))
    && (forall x | x in s.receipts && x in s.logFates :: x in t.logFates && FatesGrow(s.logFates[x], t.logFates[x]))
  }

  // A step that is no late commit only appends to the fates.
  lemma StepExtendsHistory(s: State, step: Step)
    requires Inv(s) && Enabled(s, step) && !step.event.Land?
    ensures HistoryExtends(s.store, Apply(s, step).store)
  {
    hide StoreTrue, Numbered, PendingTrue, Returned, Next, EthereumClient.BlockOf, EthereumClient.ReceiptOf, ExchangeEnabled,
      EnterEntry, EnterTx, Answered, HistoryExtends, PhaseTrue, Sends;
    var phase := s.pollers[step.p];
    assert PhaseTrue(s.store, step.p, phase);
    NothingElseChanged(s.store, s.store.pending);
    match step.event
    case NodeReceipt(r) =>
      if r.Some? {
        FirstReceipt(s.store, step.p, phase, EthereumClient.ReceiptOf(r.value));
      }
    case Exchange(committed, wire) =>
      ExchangeMayCommit(s.store, phase, committed, Returned(phase, wire));
      ExchangeExtends(s.store, step.p, phase, committed, Returned(phase, wire));
    case _ =>
  }

  lemma ExchangeExtends(s: Store, p: nat, phase: Phase, committed: Option<DocId>, outcome: Result<DocId, Err>)
    requires InRange(phase) && Posting(phase) && (committed.Some? ==> Sends(phase))
    ensures HistoryExtends(s, Exchanged(s, p, phase, committed, outcome))
  {
    hide Answered, Sends;
    AnsweredExtends(s, p, phase, committed, outcome);
  }

  lemma StepGrowsHistory(s: State, step: Step)
    requires Inv(s) && Enabled(s, step)
    ensures HistoryGrows(s.store, Apply(s, step).store)
  {
    hide Inv, Exchanged, Landed, Returned, Next, ExchangeEnabled, LandEnabled, EnterEntry, EnterTx, EthereumClient.BlockOf,
      EthereumClient.ReceiptOf, Receive;
    if step.event.Land? {
      LandInRange(s.store, step.p, step.event.i, step.event.id);
      LandedHistory(s.store, step.event.i, step.event.id);
    } else {
      StepExtendsHistory(s, step);
    }
  }

  lemma {:induction false} RunGrowsHistory(n: nat, steps: seq<Step>, m: nat)
    requires ValidRun(n, steps) && m <= |steps| && ValidRun(n, steps[..m])
    ensures HistoryGrows(Final(n, steps[..m]).store, Final(n, steps).store)
    ensures Prompt(steps[m..]) ==> HistoryExtends(Final(n, steps[..m]).store, Final(n, steps).store)
    decreases |steps|
  {
    hide Enabled, Apply, Inv, HistoryGrows, HistoryExtends;
    if m < |steps| {
      var before, last := steps[..|steps| - 1], steps[|steps| - 1];
      assert before[..m] == steps[..m];
      assert steps[m..] == before[m..] + [last];
      RunGrowsHistory(n, before, m);
      RunKeeps(n, before);
      StepGrowsHistory(Final(n, before), last);
      HistoryOn(Final(n, steps[..m]).store, Final(n, before).store, Final(n, steps).store);
      if Prompt(steps[m..]) {
        assert steps[m..][|steps| - 1 - m] == last;
        assert Prompt(before[m..]) by {
          assert forall i | 0 <= i < |before[m..]| :: before[m..][i] == steps[m..][i];
        }
        StepExtendsHistory(Final(n, before), last);
      }
    } else {
      assert steps[..m] == steps;
      HistoryReflexive(Final(n, steps).store);
    }
  }

  lemma HistoryReflexive(s: Store)
    ensures HistoryGrows(s, s) && HistoryExtends(s, s)
  {
  }

  lemma HistoryOn(s: Store, t: Store, u: Store)
    ensures HistoryGrows(s, t) && HistoryGrows(t, u) ==> HistoryGrows(s, u)
    ensures HistoryExtends(s, t) && HistoryExtends(t, u) ==> HistoryExtends(s, u)
  {
  }

  // ------------------------------------------------------ one attempt per child

  // The state before the i-th step.
  function Before(n: nat, steps: seq<Step>, i: nat): State
    requires ValidRun(n, steps) && i <= |steps|
  {
    ValidPrefix(n, steps, i);
    Final(n, steps[..i])
  }

  lemma StepAt(n: nat, steps: seq<Step>, i: nat)
    requires ValidRun(n, steps) && i < |steps|
    ensures Enabled(Before(n, steps, i), steps[i]) && Before(n, steps, i + 1) == Apply(Before(n, steps, i), steps[i])
    ensures Inv(Before(n, steps, i))
  {
    hide Enabled, Apply, Inv;
    ValidPrefix(n, steps, i + 1);
    assert steps[..i + 1][..i] == steps[..i];
    RunKeeps(n, steps[..i]);
  }

  lemma BetweenSteps(n: nat, steps: seq<Step>, i: nat, j: nat)
    requires ValidRun(n, steps) && i <= j <= |steps|
    ensures HistoryGrows(Before(n, steps, i).store, Before(n, steps, j).store)
  {
    hide Enabled, Apply;
    ValidPrefix(n, steps, i);
    ValidPrefix(n, steps, j);
    assert steps[..j][..i] == steps[..i];
    RunGrowsHistory(n, steps[..j], i);
  }

  // The call that the poller of the i-th step makes in it.
  function Calling(n: nat, steps: seq<Step>, i: nat): Phase
    requires ValidRun(n, steps) && i < |steps|
  {
    var s, p := Before(n, steps, i), steps[i].p;
    if p < |s.pollers| then s.pollers[p] else Idle
  }

  // A receipt is fetched at most once for each Transaction document.
  lemma OneFetchPerTransaction(n: nat, steps: seq<Step>, i: nat, j: nat)
    requires ValidRun(n, steps) && i < j < |steps|
    requires steps[i].event.NodeReceipt? && steps[i].event.receipt.Some?
    requires steps[j].event.NodeReceipt? && steps[j].event.receipt.Some?
    ensures Calling(n, steps, i).FetchReceipt? && Calling(n, steps, j).FetchReceipt?
    ensures Calling(n, steps, i).txId != Calling(n, steps, j).txId
  {
    hide ValidRun, Final, StoreTrue, Numbered, PendingTrue, EnterEntry, EthereumClient.ReceiptOf, OwnsTx, Before;
    StepAt(n, steps, i);
    StepAt(n, steps, j);
    BetweenSteps(n, steps, i + 1, j);
    assert Calling(n, steps, i).txId in Before(n, steps, i + 1).store.receipts;
    assert PhaseTrue(Before(n, steps, j).store, steps[j].p, Calling(n, steps, j));
  }

  // How many children of each sort were tried before a call for one, and after it.
  lemma ChildCounted(s: Store, p: nat, phase: Phase, committed: Option<DocId>, outcome: Result<DocId, Err>)
    requires PhaseTrue(s, p, phase) && Posting(phase) && (committed.Some? ==> Sends(phase))
    ensures
      var t := Exchanged(s, p, phase, committed, outcome);
      && (phase.PostEntry? ==>
            && phase.txId in s.entryFates && |s.entryFates[phase.txId]| == phase.j
            && phase.txId in t.receipts && phase.txId in t.entryFates && |t.entryFates[phase.txId]| == phase.j + 1)
      && (phase.PostLog? ==>
            && phase.txId in s.logFates && |s.logFates[phase.txId]| == phase.k
            && phase.txId in t.receipts && phase.txId in t.logFates && |t.logFates[phase.txId]| == phase.k + 1)
  {
    hide Answered, Sends, OwnsTx, OwnsBlock;
    AnsweredHistory(s, p, phase, committed, outcome);
  }

  // At most one create call is made for each access list entry and each log of a Transaction document.
  lemma OneCallPerChild(n: nat, steps: seq<Step>, i: nat, j: nat)
    requires ValidRun(n, steps) && i < j < |steps| && steps[i].event.Exchange? && steps[j].event.Exchange?
    ensures !SameChild(Calling(n, steps, i), Calling(n, steps, j))
  {
    hide ValidRun, Final, StoreTrue, Numbered, PendingTrue, PhaseTrue, Before, Exchanged, Returned, Next, ExchangeEnabled;
    StepAt(n, steps, i);
    StepAt(n, steps, j);
    BetweenSteps(n, steps, i + 1, j);
    CallCounted(Before(n, steps, i), steps[i]);
    CallCounted(Before(n, steps, j), steps[j]);
  }

  lemma CallCounted(s: State, step: Step)
    requires Inv(s) && Enabled(s, step) && step.event.Exchange?
    ensures
      var t, phase := Apply(s, step).store, s.pollers[step.p];
      && (phase.PostEntry? ==>
            && phase.txId in s.store.entryFates && |s.store.entryFates[phase.txId]| == phase.j
            && phase.txId in t.receipts && phase.txId in t.entryFates && |t.entryFates[phase.txId]| == phase.j + 1)
      && (phase.PostLog? ==>
            && phase.txId in s.store.logFates && |s.store.logFates[phase.txId]| == phase.k
            && phase.txId in t.receipts && phase.txId in t.logFates && |t.logFates[phase.txId]| == phase.k + 1)
  {
    hide StoreTrue, Numbered, PendingTrue, PhaseTrue, Exchanged, Returned, Next, ExchangeEnabled;
    var phase := s.pollers[step.p];
    assert PhaseTrue(s.store, step.p, phase);
    ExchangeMayCommit(s.store, phase, step.event.committed, Returned(phase, step.event.wire));
    ChildCounted(s.store, step.p, phase, step.event.committed, Returned(phase, step.event.wire));
  }

  // The poller is beyond the create call of the i-th transaction under this block document.
  predicate Past(phase: Phase, blockId: DocId, i: nat) {
    match phase
    case PostTx(_, b, k) => b == blockId ==> k > i
    case FetchReceipt(_, b, k, _) => b == blockId ==> k >= i
    case PostEntry(_, b, k, _, _, _) => b == blockId ==> k >= i
    case PostLog(_, b, k, _, _, _) => b == blockId ==> k >= i
    case _ => true
  }

  predicate AllPast(s: State, blockId: DocId, i: nat) {
    blockId in s.store.blocks && forall q | 0 <= q < |s.pollers| :: Past(s.pollers[q], blockId, i)
  }

  lemma StaysPast(s: State, step: Step, blockId: DocId, i: nat)
    requires Enabled(s, step) && AllPast(s, blockId, i)
    ensures AllPast(Apply(s, step), blockId, i)
  {
    hide Exchanged, Landed, Returned, LandEnabled, EthereumClient.BlockOf, EthereumClient.ReceiptOf, Unique, PlainText, EntryIds,
      LogIds, Decide, Grows;
    StepGrows(s, step);
    GrowsKeepsBlock(s.store, Apply(s, step).store, blockId);
    PollersKept(s, step);
    assert Past(s.pollers[step.p], blockId, i);
  }

  lemma GrowsKeepsBlock(s: Store, t: Store, blockId: DocId)
    requires Grows(s, t) && blockId in s.blocks
    ensures blockId in t.blocks
  {
  }

  lemma {:induction false} RunStaysPast(n: nat, steps: seq<Step>, m: nat, blockId: DocId, i: nat)
    requires ValidRun(n, steps) && m <= |steps| && ValidRun(n, steps[..m]) && AllPast(Final(n, steps[..m]), blockId, i)
    ensures AllPast(Final(n, steps), blockId, i)
    decreases |steps|
  {
    hide Enabled, Apply, AllPast;
    if m < |steps| {
      var before := steps[..|steps| - 1];
      assert before[..m] == steps[..m];
      RunStaysPast(n, before, m, blockId, i);
      StaysPast(Final(n, before), steps[|steps| - 1], blockId, i);
    } else {
      assert steps[..m] == steps;
    }
  }

  lemma NowPast(s: State, step: Step)
    requires Inv(s) && Enabled(s, step) && step.event.Exchange? && s.pollers[step.p].PostTx?
    ensures AllPast(Apply(s, step), s.pollers[step.p].blockId, s.pollers[step.p].i)
  {
    hide StoreTrue, Numbered, PendingTrue, PhaseTrue, Exchanged, Returned, ExchangeEnabled, Grows;
    var p, phase := step.p, s.pollers[step.p];
    assert PhaseTrue(s.store, p, phase);
    PhaseAcked(s.store, p, phase);
    StepGrows(s, step);
    GrowsKeepsBlock(s.store, Apply(s, step).store, phase.blockId);
    PollersKept(s, step);
    forall q | 0 <= q < |s.pollers| && q != p ensures Past(s.pollers[q], phase.blockId, phase.i) {
      assert PhaseTrue(s.store, q, s.pollers[q]);
      if UnderBlock(s.pollers[q]) {
        PhaseAcked(s.store, q, s.pollers[q]);
      }
    }
  }

  // At most one create call is made for each transaction under each Block document.
  lemma OneCallPerTransaction(n: nat, steps: seq<Step>, i: nat, j: nat)
    requires ValidRun(n, steps) && i < j < |steps| && steps[i].event.Exchange? && steps[j].event.Exchange?
    requires Calling(n, steps, i).PostTx? && Calling(n, steps, j).PostTx?
    ensures Calling(n, steps, i).blockId != Calling(n, steps, j).blockId || Calling(n, steps, i).i != Calling(n, steps, j).i
  {
    hide Enabled, Apply, Inv, Past;
    var phase := Calling(n, steps, i);
    StepAt(n, steps, i);
    StepAt(n, steps, j);
    PollerInRange(Before(n, steps, i), steps[i]);
    PollerInRange(Before(n, steps, j), steps[j]);
    NowPast(Before(n, steps, i), steps[i]);
    ValidPrefix(n, steps, i + 1);
    ValidPrefix(n, steps, j);
    assert steps[..j][..i + 1] == steps[..i + 1];
    RunStaysPast(n, steps[..j], i + 1, phase.blockId, phase.i);
    PastIsPast(Calling(n, steps, j), phase.blockId, phase.i);
  }

  lemma PollerInRange(s: State, step: Step)
    requires Enabled(s, step)
    ensures step.p < |s.pollers|
  {
  }

  lemma PastIsPast(phase: Phase, blockId: DocId, i: nat)
    requires Past(phase, blockId, i) && phase.PostTx?
    ensures phase.blockId != blockId || phase.i != i
  {
  }

  // ---------------------------------------------------------------- lost replies

  // The i-th step commits a Block document and its poller is not told: the reply is lost, or comes before the commit.
  predicate LosesBlock(n: nat, steps: seq<Step>, i: nat, b: DocId)
    requires ValidRun(n, steps) && i < |steps|
  {
    var s := Before(n, steps, i);
    match steps[i].event
    case Exchange(committed, wire) =>
      && Calling(n, steps, i).PostBlock? && committed == Some(b) && Returned(Calling(n, steps, i), wire).Err?
    case Land(k, id) => k < |s.store.pending| && s.store.pending[k].phase.PostBlock? && id == b
    case _ => false
  }

  // From a lost reply on, the block is never reported and never gets children.
  lemma LostReplyIsFinal(n: nat, steps: seq<Step>, i: nat, b: DocId)
    requires ValidRun(n, steps) && i < |steps| && LosesBlock(n, steps, i, b)
    ensures
      var s := Final(n, steps).store;
      && b in s.blocks
      && (forall k | 0 <= k < |s.acks| :: s.acks[k].id != b && s.acks[k].hash != s.blocks[b].block.hash)
      && (forall t | t in s.txs :: s.txs[t].block_id != b)
      && (forall k | 0 <= k < |s.logs| :: s.logs[k].block_id != b)
  {
    hide Enabled, Apply, Inv, LosesBlock, Calling;
    StepAt(n, steps, i);
    PollerInRange(Before(n, steps, i), steps[i]);
    LossMakesOrphan(n, steps, i, b);
    ValidPrefix(n, steps, i + 1);
    LostBlockStaysChildless(n, steps, i + 1, b);
  }

  lemma LossMakesOrphan(n: nat, steps: seq<Step>, i: nat, b: DocId)
    requires ValidRun(n, steps) && i < |steps| && LosesBlock(n, steps, i, b)
    requires Inv(Before(n, steps, i)) && Enabled(Before(n, steps, i), steps[i])
    ensures Orphan(Apply(Before(n, steps, i), steps[i]).store, b)
  {
    hide ValidRun, Final, Before, StoreTrue, Numbered, PendingTrue, PhaseTrue, Returned, Next, ParsedNumber, PlainText, EntryIds,
      LogIds, BuildBlock, Decide;
    AcksInStore(Before(n, steps, i).store);
  }

  // ------------------------------------------------------- finished transactions

  // Every entry and every log of the transaction has been tried.
  predicate Finished(s: Store, t: DocId) {
    && t in s.txs && t in s.receipts && t in s.entryFates && t in s.logFates
    && |s.entryFates[t]| == |s.txs[t].tx.accessList| && |s.logFates[t]| == |s.receipts[t].logs|
  }

  lemma {:induction false} LogsOfPrefix(logs: seq<LogDoc>, more: seq<LogDoc>, t: DocId)
    requires logs <= more
    ensures LogsOf(logs, t) <= LogsOf(more, t)
    decreases |more|
  {
    if |logs| < |more| {
      LogsOfPrefix(logs, more[..|more| - 1], t);
    } else {
      assert logs == more;
    }
  }

  lemma {:induction false} EntriesOfPrefix(entries: seq<EntryDoc>, more: seq<EntryDoc>, t: DocId)
    requires entries <= more
    ensures EntriesOf(entries, t) <= EntriesOf(more, t)
    decreases |more|
  {
    if |entries| < |more| {
      EntriesOfPrefix(entries, more[..|more| - 1], t);
    } else {
      assert entries == more;
    }
  }

  lemma PrefixWithSameItems<T>(xs: seq<T>, ys: seq<T>)
    requires xs <= ys && multiset(xs) == multiset(ys)
    ensures xs == ys
  {
    assert |multiset(xs)| == |xs| && |multiset(ys)| == |ys|;
  }

  // The fates after are those before: nothing new to try, and nothing committed late.
  lemma SameFates(a: seq<bool>, b: seq<bool>)
    requires a <= b && |b| <= |a|
    ensures a == b
  {
  }

  /**
   A finished transaction stays as it is: no later call of any poller adds to its children. Only its
   own requests still in flight can, and unless one of those is committed late, its children are final.
   */
  lemma FinishedIsFinal(n: nat, steps: seq<Step>, m: nat, t: DocId)
    requires ValidRun(n, steps) && m <= |steps| && ValidRun(n, steps[..m]) && Finished(Final(n, steps[..m]).store, t)
    ensures
      var before, after := Final(n, steps[..m]).store, Final(n, steps).store;
      && Finished(after, t) && after.txs[t] == before.txs[t] && after.receipts[t] == before.receipts[t]
      && LogsOf(before.logs, t) <= LogsOf(after.logs, t) && EntriesOf(before.entries, t) <= EntriesOf(after.entries, t)
      && (Prompt(steps[m..]) ==>
            LogsOf(after.logs, t) == LogsOf(before.logs, t) && EntriesOf(after.entries, t) == EntriesOf(before.entries, t))
  {
    hide ValidRun, Final, Numbered, PhaseTrue, PendingTrue, LogsOf, EntriesOf, Selected, TxsLinked, AcksTrue, Prompt,
      BlockHashesUnique, TxHashesUnique, EntriesLinked, LogsLinked;
    RunGrowsHistory(n, steps, m);
    RunGrows(n, steps, m);
    RunKeeps(n, steps);
    RunKeeps(n, steps[..m]);
    var before, after := Final(n, steps[..m]).store, Final(n, steps).store;
    assert LogsExact(t, before.receipts, before.logFates, before.late, before.logs);
    assert LogsExact(t, after.receipts, after.logFates, after.late, after.logs);
    assert EntriesExact(t, before.txs[t], before.receipts, before.entryFates, before.late, before.entries);
    assert EntriesExact(t, after.txs[t], after.receipts, after.entryFates, after.late, after.entries);
    LogsOfPrefix(before.logs, after.logs, t);
    EntriesOfPrefix(before.entries, after.entries, t);
    if Prompt(steps[m..]) {
      SameFates(before.logFates[t], after.logFates[t]);
      SameFates(before.entryFates[t], after.entryFates[t]);
      PrefixWithSameItems(LogsOf(before.logs, t), LogsOf(after.logs, t));
      PrefixWithSameItems(EntriesOf(before.entries, t), EntriesOf(after.entries, t));
    }
  }

  // --------------------------------------------------------- referential integrity

  /**
   Every reference resolves, and the diamond commutes: a log's block is the block of the log's
   transaction. A transaction's copied columns are its block's: blockHash is that block's hash and
   blockNumber its number, which is not negative.
   */
  lemma ReferencesResolve(n: nat, steps: seq<Step>)
    requires ValidRun(n, steps)
    ensures
      var s := Final(n, steps).store;
      && (forall t | t in s.txs ::
            && s.txs[t].block_id in s.blocks
            && s.txs[t].tx.blockHash == s.blocks[s.txs[t].block_id].block.hash
            && s.txs[t].number == s.blocks[s.txs[t].block_id].number
            && ParsedNumber(s.txs[t].tx.blockNumber) == Some(s.txs[t].number)
            && ParsedNumber(s.blocks[s.txs[t].block_id].block.number) == Some(s.txs[t].number)
            && s.txs[t].number >= 0)
      && (forall i | 0 <= i < |s.entries| :: s.entries[i].transaction_id in s.txs)
      && (forall i | 0 <= i < |s.logs| ::
            && s.logs[i].transaction_id in s.txs && s.logs[i].block_id in s.blocks
            && s.txs[s.logs[i].transaction_id].block_id == s.logs[i].block_id)
  {
    hide ValidRun, Final, ParsedNumber, PhaseTrue, PendingTrue, AllLogsExact, AllEntriesExact, TxHashesUnique, BlockHashesUnique,
      AcksTrue, Acked;
    RunKeeps(n, steps);
    var s := Final(n, steps).store;
    forall t | t in s.txs ensures TxLinked(s.txs[t], s.blocks, s.acks) {
    }
    forall i | 0 <= i < |s.entries| ensures EntryLinked(s.entries[i], s.txs) {
    }
    forall i | 0 <= i < |s.logs| ensures LogLinked(s.logs[i], s.txs) {
    }
  }
}
