/** Every step of the ingest pipeline keeps the invariant, so every reachable state has it. */
module IngestSteps {
  import opened Wrappers
  import opened Errors
  import opened Types
  import opened Geth
  import opened BlockHandler
  import opened Requests
  import opened Ingest
  import opened IngestInvariant
  import EthereumClient

  // ------------------------------------------------- where a loop head leads

  lemma EnterTxTrue(s: Store, p: nat, g: Block, blockId: DocId, i: nat)
    requires OwnsBlock(s, p, g, blockId)
    ensures PhaseTrue(s, p, EnterTx(g, blockId, i))
  {
  }

  lemma EnterLogTrue(s: Store, p: nat, g: Block, blockId: DocId, i: nat, txId: DocId, receipt: TransactionReceipt,
          k: nat)
    requires OwnsTx(s, p, g, blockId, i, txId) && k <= |receipt.logs|
    requires Progress(s, txId, receipt, |g.transactions[i].accessList|, k)
    ensures PhaseTrue(s, p, EnterLog(g, blockId, i, txId, receipt, k))
  {
    if k == |receipt.logs| {
      EnterTxTrue(s, p, g, blockId, i + 1);
    }
  }

  lemma EnterEntryTrue(s: Store, p: nat, g: Block, blockId: DocId, i: nat, txId: DocId, receipt: TransactionReceipt,
          j: nat)
    requires OwnsTx(s, p, g, blockId, i, txId) && j <= |g.transactions[i].accessList|
    requires Progress(s, txId, receipt, j, 0)
    ensures PhaseTrue(s, p, EnterEntry(g, blockId, i, txId, receipt, j))
  {
    if j == |g.transactions[i].accessList| {
      EnterLogTrue(s, p, g, blockId, i, txId, receipt, 0);
    }
  }

  // ------------------------------------------------------------------ receipts

  lemma ReceiptKeeps(s: Store, p: nat, phase: Phase, receipt: TransactionReceipt)
    requires StoreTrue(s) && PhaseTrue(s, p, phase) && phase.FetchReceipt? && PlainReceipt(receipt)
    ensures var t := Receive(s, phase.txId, receipt);
            && StoreTrue(t) && TouchesOnly(s, t, p)
            && PhaseTrue(t, p, EnterEntry(phase.g, phase.blockId, phase.i, phase.txId, receipt, 0))
  {
    hide StoreTrue, ParsedNumber, Coherent, PlainText;
    var FetchReceipt(g, blockId, i, txId) := phase;
    AddReceipt(s, txId, receipt);
    EnterEntryTrue(Receive(s, txId, receipt), p, g, blockId, i, txId, receipt, 0);
  }

  lemma FirstReceipt(s: Store, p: nat, phase: Phase, receipt: TransactionReceipt)
    requires PhaseTrue(s, p, phase) && phase.FetchReceipt?
    ensures phase.txId !in s.receipts
    ensures var t := Receive(s, phase.txId, receipt); Grows(s, t) && HistoryExtends(s, t)
  {
    hide OwnsTx;
  }

  // -------------------------------------------------------------- create calls

  lemma AcksInStore(s: Store)
    requires StoreTrue(s)
    ensures forall i | 0 <= i < |s.acks| :: s.acks[i].id in s.blocks
  {
    hide AllLogsExact, AllEntriesExact, TxsLinked;
  }

  // The block document is in the store; its creation may not have been reported yet.
  lemma BlockStored(s: Store, p: nat, g: Block, id: DocId)
    requires StoreTrue(s) && Numbered(s) && Fresh(s, id) && Unique(s, PostBlock(g, 0))
    requires ParsedNumber(g.number).Some? && ParsedNumber(g.number).value >= 0
    ensures var t := s.(blocks := s.blocks[id := BlockDoc(BuildBlock(g), ParsedNumber(g.number).value, p)]);
            && StoreTrue(t) && BlocksNumbered(t.blocks) && Grows(s, t)
            && forall i | 0 <= i < |s.acks| :: s.acks[i].id != id
  {
    hide StoreTrue, ParsedNumber, PlainText, EntryIds, LogIds, TxsNumbered, LogsNumbered;
    AcksInStore(s);
    AddBlock(s, id, BlockDoc(BuildBlock(g), ParsedNumber(g.number).value, p));
  }

  lemma BlockReported(s: Store, p: nat, g: Block, id: DocId)
    requires StoreTrue(s) && Coherent(g) && ParsedNumber(g.number).Some? && id in s.blocks && id != "" && PlainText(id)
    requires s.blocks[id] == BlockDoc(BuildBlock(g), ParsedNumber(g.number).value, p)
    requires forall i | 0 <= i < |s.acks| :: s.acks[i].id != id
    ensures var t := s.(acks := s.acks + [Ack(g.hash, id, p)]);
            StoreTrue(t) && Grows(s, t) && PhaseTrue(t, p, EnterTx(g, id, 0))
  {
    hide StoreTrue, ParsedNumber, Coherent, PlainText;
    AddAck(s, Ack(g.hash, id, p));
    EnterTxTrue(s.(acks := s.acks + [Ack(g.hash, id, p)]), p, g, id, 0);
  }

  lemma CoherentNumber(g: Block)
    requires Coherent(g) && ParsedNumber(g.number).Some?
    ensures ParsedNumber(g.number).value >= 0
  {
    hide ParsedNumber;
  }

  lemma BlockKeeps(s: Store, p: nat, phase: Phase, committed: Option<DocId>, outcome: Result<DocId, Err>)
    requires StoreTrue(s) && Numbered(s) && PhaseTrue(s, p, phase) && phase.PostBlock?
    requires ExchangeEnabled(s, phase, committed, outcome)
    ensures var t := Answered(s, p, phase, committed, outcome);
            StoreTrue(t) && Numbered(t) && TouchesOnly(s, t, p) && PhaseTrue(t, p, Next(phase, outcome))
  {
    hide StoreTrue, ParsedNumber, Coherent, PlainText, BlocksNumbered, EnterTx, TxsNumbered, LogsNumbered, BuildBlock,
      EntryIds, LogIds;
    var g := phase.g;
    if committed.Some? {
      CoherentNumber(g);
      BlockStored(s, p, g, committed.value);
      if outcome.Ok? {
        BlockReported(Commit(s, p, phase, committed.value), p, g, committed.value);
      }
    }
  }

  // A coherent transaction under an acknowledged block is linked as it should be.
  lemma TxFits(s: Store, p: nat, g: Block, blockId: DocId, i: nat)
    requires OwnsBlock(s, p, g, blockId) && i < |g.transactions| && ParsedNumber(g.transactions[i].blockNumber).Some?
    ensures var d := TxDoc(g.transactions[i], ParsedNumber(g.transactions[i].blockNumber).value, blockId, p);
            TxLinked(d, s.blocks, s.acks)
  {
    hide ParsedNumber, PlainText, PlainTransaction, PlainEntry, PlainBlock, Acked;
    assert CoherentTransaction(g, g.transactions[i]);
  }

  lemma TxStored(s: Store, p: nat, phase: Phase, id: DocId)
    requires StoreTrue(s) && Numbered(s) && phase.PostTx? && InRange(phase) && OwnsBlock(s, p, phase.g, phase.blockId)
    requires Sends(phase) && Fresh(s, id) && Unique(s, phase)
    ensures var t := Commit(s, p, phase, id);
            && StoreTrue(t) && TxsNumbered(t.txs) && Grows(s, t)
            && OwnsTx(t, p, phase.g, phase.blockId, phase.i, id) && id !in t.receipts
  {
    hide StoreTrue, ParsedNumber, PlainText, Coherent, TxLinked, Acked, BuildBlock, EntryIds, LogIds, BlocksNumbered,
      LogsNumbered;
    var PostTx(g, blockId, i) := phase;
    TxFits(s, p, g, blockId, i);
    AddTx(s, id, TxDoc(g.transactions[i], ParsedNumber(g.transactions[i].blockNumber).value, blockId, p));
  }

  lemma TxKeeps(s: Store, p: nat, phase: Phase, committed: Option<DocId>, outcome: Result<DocId, Err>)
    requires StoreTrue(s) && Numbered(s) && PhaseTrue(s, p, phase) && phase.PostTx?
    requires ExchangeEnabled(s, phase, committed, outcome)
    ensures var t := Answered(s, p, phase, committed, outcome);
            StoreTrue(t) && Numbered(t) && TouchesOnly(s, t, p) && PhaseTrue(t, p, Next(phase, outcome))
  {
    hide StoreTrue, ParsedNumber, Coherent, PlainText, TxsNumbered, EnterTx, BlocksNumbered, LogsNumbered, EntryIds,
      LogIds;
    if committed.Some? {
      TxStored(s, p, phase, committed.value);
    }
    if outcome.Err? {
      var t := Answered(s, p, phase, committed, outcome);
      EnterTxTrue(t, p, phase.g, phase.blockId, phase.i + 1);
    }
  }

  lemma EntryKeeps(s: Store, p: nat, phase: Phase, committed: Option<DocId>, outcome: Result<DocId, Err>)
    requires StoreTrue(s) && Numbered(s) && PhaseTrue(s, p, phase) && phase.PostEntry?
    requires ExchangeEnabled(s, phase, committed, outcome)
    ensures var t := Answered(s, p, phase, committed, outcome);
            StoreTrue(t) && Numbered(t) && TouchesOnly(s, t, p) && PhaseTrue(t, p, Next(phase, outcome))
  {
    hide StoreTrue, ParsedNumber, Coherent, PlainText;
    var PostEntry(g, blockId, i, txId, receipt, j) := phase;
    if committed.Some? {
      AddEntry(s, EntryDoc(committed.value, g.transactions[i].accessList[j], txId, p));
    } else {
      SkipEntry(s, txId);
    }
    EnterEntryTrue(Answered(s, p, phase, committed, outcome), p, g, blockId, i, txId, receipt, j + 1);
  }

  lemma LogKeeps(s: Store, p: nat, phase: Phase, committed: Option<DocId>, outcome: Result<DocId, Err>)
    requires StoreTrue(s) && Numbered(s) && PhaseTrue(s, p, phase) && phase.PostLog?
    requires ExchangeEnabled(s, phase, committed, outcome)
    ensures var t := Answered(s, p, phase, committed, outcome);
            StoreTrue(t) && Numbered(t) && TouchesOnly(s, t, p) && PhaseTrue(t, p, Next(phase, outcome))
  {
    hide StoreTrue, ParsedNumber, Coherent, PlainText;
    var PostLog(g, blockId, i, txId, receipt, k) := phase;
    if committed.Some? {
      AddLog(s, LogDoc(committed.value, receipt.logs[k], ParsedNumber(receipt.logs[k].blockNumber).value, blockId, txId, p));
    } else {
      SkipLog(s, txId);
    }
    EnterLogTrue(Answered(s, p, phase, committed, outcome), p, g, blockId, i, txId, receipt, k + 1);
  }

  // ----------------------------------------------------------- requests in flight

  lemma AnsweredGrows(s: Store, p: nat, phase: Phase, committed: Option<DocId>, outcome: Result<DocId, Err>)
    requires InRange(phase) && Posting(phase) && ExchangeEnabled(s, phase, committed, outcome)
    ensures Grows(s, Answered(s, p, phase, committed, outcome))
  {
    hide ParsedNumber, PlainText, EntryIds, LogIds, BuildBlock, Note;
  }

  lemma AnsweredHistory(s: Store, p: nat, phase: Phase, committed: Option<DocId>, outcome: Result<DocId, Err>)
    requires InRange(phase) && Posting(phase) && (committed.Some? ==> Sends(phase))
    ensures var t := Answered(s, p, phase, committed, outcome);
            && t.receipts == s.receipts && t.pending == s.pending && t.late == s.late
            && t.entryFates == (if phase.PostEntry? then Note(s.entryFates, phase.txId, committed.Some?) else s.entryFates)
            && t.logFates == (if phase.PostLog? then Note(s.logFates, phase.txId, committed.Some?) else s.logFates)
  {
    hide ParsedNumber, BuildBlock, Note;
  }

  lemma AnsweredExtends(s: Store, p: nat, phase: Phase, committed: Option<DocId>, outcome: Result<DocId, Err>)
    requires InRange(phase) && Posting(phase) && (committed.Some? ==> Sends(phase))
    ensures HistoryExtends(s, Answered(s, p, phase, committed, outcome))
  {
    hide Answered, Sends;
    AnsweredHistory(s, p, phase, committed, outcome);
  }

  // The child tried now was not tried before, so no earlier request for it is in flight.
  lemma NotYetInFlight(s: Store, p: nat, phase: Phase, i: nat)
    requires PendingTrue(s, s.pending) && PhaseTrue(s, p, phase) && i < |s.pending|
    ensures !SameChild(s.pending[i].phase, phase)
  {
    hide OwnsTx, OwnsBlock, Coherent, ParsedNumber, PlainReceipt, Sends;
    assert InFlightTrue(s, s.pending[i].p, s.pending[i].phase);
  }

  // A request that was sent and not committed may stay in flight.
  lemma NowInFlight(s: Store, p: nat, phase: Phase, outcome: Result<DocId, Err>)
    requires PhaseTrue(s, p, phase) && Posting(phase) && Sends(phase)
    requires ExchangeEnabled(s, phase, None, outcome)
    ensures InFlightTrue(Answered(s, p, phase, None, outcome), p, phase)
  {
    hide Coherent, ParsedNumber, PlainText, BuildBlock, Fresh, Unique, Answered;
    var t := Answered(s, p, phase, None, outcome);
    AnsweredGrows(s, p, phase, None, outcome);
    AnsweredHistory(s, p, phase, None, outcome);
    if !phase.PostBlock? {
      AckedGrows(s.acks, t.acks, phase.blockId, p);
    }
  }

  lemma LingerKeeps(s: Store, p: nat, phase: Phase, committed: Option<DocId>, outcome: Result<DocId, Err>)
    requires PendingTrue(s, s.pending) && PhaseTrue(s, p, phase) && Posting(phase)
    requires ExchangeEnabled(s, phase, committed, outcome)
    ensures var t := Exchanged(s, p, phase, committed, outcome); PendingTrue(t, t.pending)
  {
    hide PhaseTrue, InFlightTrue, Answered, Fresh, Unique, Grows, HistoryExtends, SameChild, Sends;
    PhaseInRange(s, p, phase);
    var c, t := Answered(s, p, phase, committed, outcome), Exchanged(s, p, phase, committed, outcome);
    AnsweredGrows(s, p, phase, committed, outcome);
    AnsweredExtends(s, p, phase, committed, outcome);
    AnsweredHistory(s, p, phase, committed, outcome);
    PendingStays(s, c, s.pending);
    if committed.None? && Sends(phase) {
      NowInFlight(s, p, phase, outcome);
      forall i | 0 <= i < |s.pending| ensures !SameChild(s.pending[i].phase, phase) {
        NotYetInFlight(s, p, phase, i);
      }
    }
    NothingElseChanged(c, t.pending);
    PendingStays(c, t, t.pending);
  }

  lemma NothingElseChanged(s: Store, pending: seq<InFlight>)
    ensures var t := s.(pending := pending); Grows(s, t) && HistoryExtends(s, t)
  {
  }

  lemma PhaseInRange(s: Store, p: nat, phase: Phase)
    requires PhaseTrue(s, p, phase)
    ensures InRange(phase)
  {
  }

  // Whether a request lingers makes no difference to anything else.
  lemma LingerIsSilent(s: Store, c: Store, p: nat, phase: Phase, committed: Option<DocId>, next: Phase)
    requires InRange(phase) && Posting(phase)
    requires StoreTrue(c) && Numbered(c) && TouchesOnly(s, c, p) && PhaseTrue(c, p, next)
    ensures var t := Linger(c, p, phase, committed);
            StoreTrue(t) && Numbered(t) && TouchesOnly(s, t, p) && PhaseTrue(t, p, next)
  {
    hide PhaseTrue, StoreTrue, Numbered, Sends;
    var t := Linger(c, p, phase, committed);
    SameButPending(c, t.pending);
    assert t == c.(pending := t.pending);
    PhaseStays(c, t, p, next);
  }

  // ----------------------------------------------------------------- late commits

  // A request in flight for another child is not affected by a landing.
  lemma InFlightBeside(s: Store, t: Store, p: nat, phase: Phase, landed: Phase)
    requires InFlightTrue(s, p, phase) && Grows(s, t) && t.receipts == s.receipts && !SameChild(phase, landed)
    requires t.entryFates == if landed.PostEntry? then Mark(s.entryFates, landed.txId, landed.j) else s.entryFates
    requires t.logFates == if landed.PostLog? then Mark(s.logFates, landed.txId, landed.k) else s.logFates
    ensures InFlightTrue(t, p, phase)
  {
    hide Coherent, ParsedNumber, PlainText, BuildBlock, PlainReceipt;
    if !phase.PostBlock? {
      AckedGrows(s.acks, t.acks, phase.blockId, p);
    }
  }

  // A commit adds its document and nothing else.
  lemma CommitAdds(s: Store, p: nat, phase: Phase, id: DocId)
    requires InRange(phase) && Posting(phase) && Sends(phase) && id !in s.blocks && id !in s.txs
    ensures var t := Commit(s, p, phase, id);
            && Grows(s, t) && t.receipts == s.receipts && t.acks == s.acks && t.pending == s.pending && t.late == s.late
            && t.entryFates == s.entryFates && t.logFates == s.logFates
  {
    hide ParsedNumber, BuildBlock, Sends;
  }

  lemma LandedHistory(s: Store, i: nat, id: DocId)
    requires i < |s.pending| && LandEnabled(s, s.pending[i].p, i, id)
    ensures var t, phase := Landed(s, i, id), s.pending[i].phase;
            && Grows(s, t) && t.receipts == s.receipts && t.acks == s.acks && t.late
            && t.pending == s.pending[..i] + s.pending[i + 1..]
            && t.entryFates == (if phase.PostEntry? then Mark(s.entryFates, phase.txId, phase.j) else s.entryFates)
            && t.logFates == (if phase.PostLog? then Mark(s.logFates, phase.txId, phase.k) else s.logFates)
  {
    hide Commit, Sends, PlainText, EntryIds, LogIds, Unique, Mark;
    CommitAdds(s, s.pending[i].p, s.pending[i].phase, id);
  }

  lemma LandInRange(s: Store, p: nat, i: nat, id: DocId)
    requires LandEnabled(s, p, i, id)
    ensures i < |s.pending| && s.pending[i].p == p
    ensures var phase := s.pending[i].phase; InRange(phase) && Posting(phase) && Sends(phase)
  {
  }

  lemma LandKeepsPending(s: Store, i: nat, id: DocId)
    requires PendingTrue(s, s.pending) && i < |s.pending| && LandEnabled(s, s.pending[i].p, i, id)
    ensures var t := Landed(s, i, id); PendingTrue(t, t.pending)
  {
    hide InFlightTrue, Landed, LandEnabled, Grows, Mark, SameChild, Sends;
    LandInRange(s, s.pending[i].p, i, id);
    LandedHistory(s, i, id);
    var t := Landed(s, i, id);
    forall j | 0 <= j < |t.pending| ensures InFlightTrue(t, t.pending[j].p, t.pending[j].phase) {
      var k := if j < i then j else j + 1;
      assert t.pending[j] == s.pending[k];
      SameChildSymmetric(s.pending[i].phase, s.pending[k].phase);
      InFlightBeside(s, t, s.pending[k].p, s.pending[k].phase, s.pending[i].phase);
    }
    forall j, k | 0 <= j < k < |t.pending| ensures !SameChild(t.pending[j].phase, t.pending[k].phase) {
      assert t.pending[j] == s.pending[if j < i then j else j + 1];
      assert t.pending[k] == s.pending[if k < i then k else k + 1];
    }
  }

  lemma SameChildSymmetric(a: Phase, b: Phase)
    ensures SameChild(a, b) == SameChild(b, a)
  {
  }

  lemma LandBlock(s: Store, p: nat, phase: Phase, id: DocId)
    requires StoreTrue(s) && Numbered(s) && phase.PostBlock? && InFlightTrue(s, p, phase)
    requires Fresh(s, id) && Unique(s, phase)
    ensures StoreTrue(Commit(s, p, phase, id)) && Numbered(Commit(s, p, phase, id))
  {
    hide StoreTrue, ParsedNumber, PlainText, Coherent, BuildBlock, EntryIds, LogIds, BlocksNumbered, TxsNumbered, LogsNumbered;
    CoherentNumber(phase.g);
    BlockStored(s, p, phase.g, id);
  }

  lemma LandTx(s: Store, p: nat, phase: Phase, id: DocId)
    requires StoreTrue(s) && Numbered(s) && phase.PostTx? && InFlightTrue(s, p, phase)
    requires Fresh(s, id) && Unique(s, phase)
    ensures StoreTrue(Commit(s, p, phase, id)) && Numbered(Commit(s, p, phase, id))
  {
    hide StoreTrue, ParsedNumber, PlainText, Coherent, BuildBlock, EntryIds, LogIds, BlocksNumbered, TxsNumbered, LogsNumbered;
    TxStored(s, p, phase, id);
  }

  lemma LandEntryKeeps(s: Store, p: nat, phase: Phase, id: DocId)
    requires StoreTrue(s) && Numbered(s) && s.late && phase.PostEntry? && InFlightTrue(s, p, phase)
    ensures var t := Commit(s, p, phase, id).(entryFates := Mark(s.entryFates, phase.txId, phase.j));
            StoreTrue(t) && Numbered(t)
  {
    hide StoreTrue, ParsedNumber, PlainText, Coherent, BuildBlock, BlocksNumbered, TxsNumbered, LogsNumbered, Mark;
    LandEntry(s, EntryDoc(id, phase.g.transactions[phase.i].accessList[phase.j], phase.txId, p), phase.j);
  }

  lemma LandLogKeeps(s: Store, p: nat, phase: Phase, id: DocId)
    requires StoreTrue(s) && Numbered(s) && s.late && phase.PostLog? && InFlightTrue(s, p, phase)
    ensures var t := Commit(s, p, phase, id).(logFates := Mark(s.logFates, phase.txId, phase.k));
            StoreTrue(t) && Numbered(t)
  {
    hide StoreTrue, ParsedNumber, PlainText, Coherent, BuildBlock, BlocksNumbered, TxsNumbered, Mark;
    var log := phase.receipt.logs[phase.k];
    LandLog(s, LogDoc(id, log, ParsedNumber(log.blockNumber).value, phase.blockId, phase.txId, p), phase.k);
  }

  lemma LandKeepsStore(s: Store, i: nat, id: DocId)
    requires StoreTrue(s) && Numbered(s) && PendingTrue(s, s.pending)
    requires i < |s.pending| && LandEnabled(s, s.pending[i].p, i, id)
    ensures StoreTrue(Landed(s, i, id)) && Numbered(Landed(s, i, id))
  {
    hide StoreTrue, BlocksNumbered, TxsNumbered, LogsNumbered, InFlightTrue, Fresh, Unique, Commit, Sends, Mark, Coherent,
      SameChild;
    var InFlight(p, phase) := s.pending[i];
    assert InFlightTrue(s, p, phase);
    CommitKeepsLate(s, p, phase, id);
    var t := s.(late := true);
    LateWeakens(s);
    InFlightWhenLate(s, p, phase);
    LandingFits(s, phase, id);
    if phase.PostBlock? {
      LandBlock(t, p, phase, id);
    } else if phase.PostTx? {
      LandTx(t, p, phase, id);
    } else if phase.PostEntry? {
      LandEntryKeeps(t, p, phase, id);
    } else {
      LandLogKeeps(t, p, phase, id);
    }
    var c := Commit(t, p, phase, id);
    var landed := if phase.PostEntry? then c.(entryFates := Mark(s.entryFates, phase.txId, phase.j))
                  else if phase.PostLog? then c.(logFates := Mark(s.logFates, phase.txId, phase.k)) else c;
    SameButPending(landed, Landed(s, i, id).pending);
    assert Landed(s, i, id) == landed.(pending := Landed(s, i, id).pending);
  }

  lemma SameButPending(s: Store, pending: seq<InFlight>)
    requires StoreTrue(s) && Numbered(s)
    ensures StoreTrue(s.(pending := pending)) && Numbered(s.(pending := pending))
  {
    hide BlockHashesUnique, TxHashesUnique, AcksTrue, TxsLinked, EntriesLinked, LogsLinked, AllLogsExact, AllEntriesExact,
      ReceiptsLinked, BlocksNumbered, TxsNumbered, LogsNumbered;
  }

  // The commit itself does not care whether it is late.
  lemma CommitKeepsLate(s: Store, p: nat, phase: Phase, id: DocId)
    requires InRange(phase) && Posting(phase) && Sends(phase)
    ensures Commit(s.(late := true), p, phase, id) == Commit(s, p, phase, id).(late := true)
    ensures Commit(s, p, phase, id).entryFates == s.entryFates && Commit(s, p, phase, id).logFates == s.logFates
  {
    hide ParsedNumber, BuildBlock, Sends;
  }

  lemma InFlightWhenLate(s: Store, p: nat, phase: Phase)
    requires InFlightTrue(s, p, phase)
    ensures InFlightTrue(s.(late := true), p, phase)
  {
    hide Coherent, ParsedNumber, PlainText, BuildBlock;
  }

  lemma LandingFits(s: Store, phase: Phase, id: DocId)
    requires InRange(phase) && Fresh(s, id) && Unique(s, phase)
    ensures var t := s.(late := true); Fresh(t, id) && Unique(t, phase)
  {
    hide PlainText;
  }

  lemma LandKeeps(s: State, step: Step)
    requires Inv(s) && Enabled(s, step) && step.event.Land?
    ensures Inv(Apply(s, step))
  {
    hide StoreTrue, Numbered, PendingTrue, PhaseTrue, LandEnabled, Landed, Grows, Mark;
    var Land(i, id) := step.event;
    LandInRange(s.store, step.p, i, id);
    LandKeepsStore(s.store, i, id);
    LandKeepsPending(s.store, i, id);
    LandedHistory(s.store, i, id);
    var t := Landed(s.store, i, id);
    forall q | 0 <= q < |s.pollers| ensures PhaseTrue(t, q, s.pollers[q]) {
      assert PhaseTrue(s.store, q, s.pollers[q]);
      forall x ensures HistoryKept(s.store, t, x) {
        MarkKeepsLength(s.store.entryFates, t.entryFates, s.store.pending[i].phase, x);
        MarkKeepsLength(s.store.logFates, t.logFates, s.store.pending[i].phase, x);
      }
      PhaseStays(s.store, t, q, s.pollers[q]);
    }
  }

  lemma MarkKeepsLength(a: Fates, b: Fates, phase: Phase, x: DocId)
    ensures a == b ==> SameLength(x, a, b)
    ensures phase.PostEntry? && b == Mark(a, phase.txId, phase.j) ==> SameLength(x, a, b)
    ensures phase.PostLog? && b == Mark(a, phase.txId, phase.k) ==> SameLength(x, a, b)
  {
  }

  // ----------------------------------------------------------------- every step

  lemma ExchangeKeeps(s: State, p: nat, committed: Option<DocId>, wire: Wire)
    requires Inv(s) && Enabled(s, Step(p, Exchange(committed, wire)))
    ensures Inv(Apply(s, Step(p, Exchange(committed, wire))))
  {
    hide StoreTrue, Numbered, PendingTrue, PhaseTrue, TouchesOnly, Answered, Linger, Returned, Next, Fresh, Unique;
    var phase := s.pollers[p];
    var outcome := Returned(phase, wire);
    assert PhaseTrue(s.store, p, phase);
    if phase.PostBlock? {
      BlockKeeps(s.store, p, phase, committed, outcome);
    } else if phase.PostTx? {
      TxKeeps(s.store, p, phase, committed, outcome);
    } else if phase.PostEntry? {
      EntryKeeps(s.store, p, phase, committed, outcome);
    } else {
      LogKeeps(s.store, p, phase, committed, outcome);
    }
    LingerIsSilent(s.store, Answered(s.store, p, phase, committed, outcome), p, phase, committed, Next(phase, outcome));
    LingerKeeps(s.store, p, phase, committed, outcome);
    PollerStep(s, Exchanged(s.store, p, phase, committed, outcome), p, Next(phase, outcome));
  }

  lemma NodeBlockKeeps(s: State, p: nat, b: GethBlock)
    requires Inv(s) && Enabled(s, Step(p, NodeBlock(Some(b))))
    ensures Inv(Apply(s, Step(p, NodeBlock(Some(b)))))
  {
    hide StoreTrue, Numbered, PendingTrue;
    ConvertedIsCoherent(b);
    PollerStep(s, s.store, p, PostBlock(EthereumClient.BlockOf(b), 0));
  }

  lemma NoReceiptKeeps(s: State, p: nat)
    requires Inv(s) && Enabled(s, Step(p, NodeReceipt(None)))
    ensures Inv(Apply(s, Step(p, NodeReceipt(None))))
  {
    hide StoreTrue, Numbered, PendingTrue, EnterTx, Coherent, ParsedNumber, PlainText, Acked;
    var phase := s.pollers[p];
    assert PhaseTrue(s.store, p, phase);
    EnterTxTrue(s.store, p, phase.g, phase.blockId, phase.i + 1);
    PollerStep(s, s.store, p, EnterTx(phase.g, phase.blockId, phase.i + 1));
  }

  lemma NodeReceiptKeeps(s: State, p: nat, r: GethReceipt)
    requires Inv(s) && Enabled(s, Step(p, NodeReceipt(Some(r))))
    ensures Inv(Apply(s, Step(p, NodeReceipt(Some(r)))))
  {
    hide StoreTrue, PhaseTrue, TouchesOnly, EnterEntry, BlocksNumbered, TxsNumbered, LogsNumbered, PendingTrue;
    var phase := s.pollers[p];
    assert PhaseTrue(s.store, p, phase);
    var receipt := EthereumClient.ReceiptOf(r);
    ReceiptIsPlain(r);
    ReceiptKeeps(s.store, p, phase, receipt);
    FirstReceipt(s.store, p, phase, receipt);
    PendingStays(s.store, Receive(s.store, phase.txId, receipt), s.store.pending);
    PollerStep(s, Receive(s.store, phase.txId, receipt), p,
               EnterEntry(phase.g, phase.blockId, phase.i, phase.txId, receipt, 0));
  }

  lemma StepKeeps(s: State, step: Step)
    requires Inv(s) && Enabled(s, step)
    ensures Inv(Apply(s, step))
  {
    hide StoreTrue, Numbered, PendingTrue, Exchanged, Returned, Next, ExchangeEnabled, Landed;
    var p := step.p;
    match step.event
    case NodeBlock(b) =>
      if b.Some? {
        NodeBlockKeeps(s, p, b.value);
      } else {
        PollerStep(s, s.store, p, Idle);
      }
    case NodeReceipt(r) =>
      if r.Some? {
        NodeReceiptKeeps(s, p, r.value);
      } else {
        NoReceiptKeeps(s, p);
      }
    case Exchange(committed, wire) => ExchangeKeeps(s, p, committed, wire);
    case Crash => PollerStep(s, s.store, p, Idle);
    case Land(_, _) => LandKeeps(s, step);
  }

  lemma RunSnoc(n: nat, steps: seq<Step>, step: Step)
    requires ValidRun(n, steps) && Enabled(Final(n, steps), step)
    ensures ValidRun(n, steps + [step]) && Final(n, steps + [step]) == Apply(Final(n, steps), step)
  {
    hide Enabled, Apply;
    assert (steps + [step])[..|steps|] == steps;
  }

  lemma {:induction false} RunKeeps(n: nat, steps: seq<Step>)
    requires ValidRun(n, steps)
    ensures Inv(Final(n, steps)) && |Final(n, steps).pollers| == n
  {
    hide Inv, Enabled, Apply;
    if steps != [] {
      RunKeeps(n, steps[..|steps| - 1]);
      StepKeeps(Final(n, steps[..|steps| - 1]), steps[|steps| - 1]);
      PollersKept(Final(n, steps[..|steps| - 1]), steps[|steps| - 1]);
    } else {
      InitialInv(n);
    }
  }

  lemma PollersKept(s: State, step: Step)
    requires Enabled(s, step)
    ensures |Apply(s, step).pollers| == |s.pollers|
    ensures forall q | 0 <= q < |s.pollers| && (q != step.p || step.event.Land?) :: Apply(s, step).pollers[q] == s.pollers[q]
  {
    hide Exchanged, Landed, Returned, Next, ExchangeEnabled, LandEnabled;
  }

  // ------------------------------------------------------------------ growth

  lemma ExchangeGrows(s: Store, p: nat, phase: Phase, committed: Option<DocId>, outcome: Result<DocId, Err>)
    requires InRange(phase) && Posting(phase) && ExchangeEnabled(s, phase, committed, outcome)
    ensures Grows(s, Exchanged(s, p, phase, committed, outcome))
  {
    hide Answered, Sends, Fresh, Unique;
    AnsweredGrows(s, p, phase, committed, outcome);
  }

  lemma StepGrows(s: State, step: Step)
    requires Enabled(s, step)
    ensures Grows(s.store, Apply(s, step).store)
  {
    hide Exchanged, Landed, Returned, Next, ExchangeEnabled, LandEnabled;
    if step.event.Exchange? {
      var phase := s.pollers[step.p];
      ExchangeGrows(s.store, step.p, phase, step.event.committed, Returned(phase, step.event.wire));
    } else if step.event.Land? {
      LandInRange(s.store, step.p, step.event.i, step.event.id);
      LandedHistory(s.store, step.event.i, step.event.id);
    }
  }

  lemma {:induction false} ValidPrefix(n: nat, steps: seq<Step>, m: nat)
    requires ValidRun(n, steps) && m <= |steps|
    ensures ValidRun(n, steps[..m])
  {
    hide Enabled;
    if m < |steps| {
      ValidPrefix(n, steps[..|steps| - 1], m);
      assert steps[..|steps| - 1][..m] == steps[..m];
    } else {
      assert steps[..m] == steps;
    }
  }

  lemma {:induction false} RunGrows(n: nat, steps: seq<Step>, m: nat)
    requires ValidRun(n, steps) && m <= |steps|
    ensures ValidRun(n, steps[..m]) && Grows(Final(n, steps[..m]).store, Final(n, steps).store)
  {
    hide Enabled, Apply;
    ValidPrefix(n, steps, m);
    if m < |steps| {
      var before := steps[..|steps| - 1];
      RunGrows(n, before, m);
      assert before[..m] == steps[..m];
      StepGrows(Final(n, before), steps[|steps| - 1]);
      GrowsOn(Final(n, steps[..m]).store, Final(n, before).store, Final(n, steps).store);
    } else {
      assert steps[..m] == steps;
    }
  }

  lemma GrowsOn(s: Store, t: Store, u: Store)
    requires Grows(s, t) && Grows(t, u)
    ensures Grows(s, u)
  {
  }
}
