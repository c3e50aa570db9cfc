/**
 The ingest pipeline (cmd/block_poster/main.go) as a state machine over a faulty document store.
 Any number of pollers run interleaved; one step is one store or node call of one poller. A create
 request may be refused, committed and answered, committed with the answer lost, or left in flight and
 committed at any later time.
 */
module Ingest {
  import opened Wrappers
  import opened Strconv
  import opened Errors
  import opened Hex
  import opened Types
  import opened Geth
  import opened BlockHandler
  import opened Requests
  import opened RetryControl
  import EthereumClient

  type DocId = string

  // A document holds the record and the parsed number it was created from. poller is not a column: it
  // names the poller whose request created the document.
  datatype BlockDoc = BlockDoc(block: Block, number: int64, poller: nat)
  datatype TxDoc = TxDoc(tx: Transaction, number: int64, block_id: DocId, poller: nat)
  datatype EntryDoc = EntryDoc(id: DocId, entry: AccessListEntry, transaction_id: DocId, poller: nat)
  datatype LogDoc = LogDoc(id: DocId, log: Log, number: int64, block_id: DocId, transaction_id: DocId, poller: nat)

  // A CreateBlock call that reported success.
  datatype Ack = Ack(hash: string, id: DocId, poller: nat)

  // Where a poller is: the call it makes next, with the variables it still needs.
  datatype Phase =
    | Idle
    | PostBlock(g: Block, attempts: nat)
    | PostTx(g: Block, blockId: DocId, i: nat)
    | FetchReceipt(g: Block, blockId: DocId, i: nat, txId: DocId)
    | PostEntry(g: Block, blockId: DocId, i: nat, txId: DocId, receipt: TransactionReceipt, j: nat)
    | PostLog(g: Block, blockId: DocId, i: nat, txId: DocId, receipt: TransactionReceipt, k: nat)

  // A create request of poller p that was sent and not committed during its call.
  datatype InFlight = InFlight(p: nat, phase: Phase)

  // For each transaction document, whether each create call made for its children so far was committed.
  type Fates = map<DocId, seq<bool>>

  /**
   The four collections, and the requests still in flight. The rest is history: the successful block
   creations in order, the receipt that was fetched for each transaction document, the fates of its
   access list entries and logs, and whether any request was ever committed after its call.
   */
  datatype Store = Store(
    blocks: map<DocId, BlockDoc>, txs: map<DocId, TxDoc>, entries: seq<EntryDoc>, logs: seq<LogDoc>,
    acks: seq<Ack>, receipts: map<DocId, TransactionReceipt>, entryFates: Fates, logFates: Fates,
    pending: seq<InFlight>, late: bool)

  datatype State = State(store: Store, pollers: seq<Phase>)

  function Initial(n: nat): State {
    State(Store(map[], map[], [], [], [], map[], map[], map[], [], false), seq(n, i => Idle))
  }

  // ------------------------------------------------------------ control flow

  // buildBlock: every field but BaseFeePerGas, MixHash and Uncles.
  function BuildBlock(g: Block): Block {
    g.(baseFeePerGas := "", mixHash := "", uncles := None)
  }

  // The heads of the three loops: the next call, or what follows the loop.
  function EnterTx(g: Block, blockId: DocId, i: nat): Phase {
    if i < |g.transactions| then PostTx(g, blockId, i) else Idle
  }

  function EnterLog(g: Block, blockId: DocId, i: nat, txId: DocId, receipt: TransactionReceipt, k: nat): Phase {
    if k < |receipt.logs| then PostLog(g, blockId, i, txId, receipt, k) else EnterTx(g, blockId, i + 1)
  }

  function EnterEntry(g: Block, blockId: DocId, i: nat, txId: DocId, receipt: TransactionReceipt, j: nat): Phase
    requires i < |g.transactions|
  {
    if j < |g.transactions[i].accessList| then PostEntry(g, blockId, i, txId, receipt, j)
    else EnterLog(g, blockId, i, txId, receipt, 0)
  }

  // Loop variables stay inside the lists they run over.
  predicate InRange(phase: Phase) {
    match phase
    case Idle => true
    case PostBlock(_, _) => true
    case PostTx(g, _, i) => i < |g.transactions|
    case FetchReceipt(g, _, i, _) => i < |g.transactions|
    case PostEntry(g, _, i, _, _, j) => i < |g.transactions| && j < |g.transactions[i].accessList|
    case PostLog(g, _, i, _, receipt, k) => i < |g.transactions| && k < |receipt.logs|
  }

  predicate Posting(phase: Phase) {
    phase.PostBlock? || phase.PostTx? || phase.PostEntry? || phase.PostLog?
  }

  // ------------------------------------------------------------ create calls

  function ParsedNumber(text: string): Option<int64> {
    match HexToInt(text)
    case Ok(n) => Some(n)
    case Err(_) => None
  }

  // Whether the call in this phase passes the checks made before a request goes out.
  predicate Sends(phase: Phase)
    requires InRange(phase) && Posting(phase)
  {
    match phase
    case PostBlock(g, _) => ParsedNumber(g.number).Some?
    case PostTx(g, _, i) => ParsedNumber(g.transactions[i].blockNumber).Some?
    case PostEntry(_, _, _, txId, _, _) => txId != ""
    case PostLog(_, blockId, _, txId, receipt, k) =>
      ParsedNumber(receipt.logs[k].blockNumber).Some? && blockId != "" && txId != ""
  }

  // What the call returns for this exchange with the server.
  function Returned(phase: Phase, wire: Wire): Result<DocId, Err>
    requires InRange(phase) && Posting(phase)
  {
    match phase
    case PostBlock(g, _) => CreateBlock(Some(BuildBlock(g)), wire)
    case PostTx(g, blockId, i) => CreateTransaction(Some(g.transactions[i]), blockId, wire)
    case PostEntry(g, _, i, txId, _, j) => CreateAccessListEntry(Some(g.transactions[i].accessList[j]), txId, wire)
    case PostLog(_, blockId, _, txId, receipt, k) => CreateLog(receipt.logs[k], blockId, txId, wire)
  }

  function EntryIds(s: Store): set<DocId> {
    set i | 0 <= i < |s.entries| :: s.entries[i].id
  }

  function LogIds(s: Store): set<DocId> {
    set i | 0 <= i < |s.logs| :: s.logs[i].id
  }

  // A document id the store may hand out.
  predicate Fresh(s: Store, id: DocId) {
    id != "" && PlainText(id) && id !in s.blocks && id !in s.txs && id !in EntryIds(s) && id !in LogIds(s)
  }

  // The unique indexes on Block.hash and Transaction.hash; the other collections have none.
  predicate Unique(s: Store, phase: Phase)
    requires InRange(phase)
  {
    match phase
    case PostBlock(g, _) => forall b | b in s.blocks :: s.blocks[b].block.hash != g.hash
    case PostTx(g, _, i) => forall t | t in s.txs :: s.txs[t].tx.hash != g.transactions[i].hash
    case _ => true
  }

  // The document that the request of poller p creates, added under this id.
  function Commit(s: Store, p: nat, phase: Phase, id: DocId): Store
    requires InRange(phase) && Posting(phase) && Sends(phase)
  {
    match phase
    case PostBlock(g, _) => s.(blocks := s.blocks[id := BlockDoc(BuildBlock(g), ParsedNumber(g.number).value, p)])
    case PostTx(g, blockId, i) =>
      s.(txs := s.txs[id := TxDoc(g.transactions[i], ParsedNumber(g.transactions[i].blockNumber).value, blockId, p)])
    case PostEntry(g, _, i, txId, _, j) =>
      s.(entries := s.entries + [EntryDoc(id, g.transactions[i].accessList[j], txId, p)])
    case PostLog(_, blockId, _, txId, receipt, k) =>
      s.(logs := s.logs + [LogDoc(id, receipt.logs[k], ParsedNumber(receipt.logs[k].blockNumber).value, blockId, txId, p)])
  }

  function Note(fates: Fates, txId: DocId, fate: bool): Fates {
    fates[txId := (if txId in fates then fates[txId] else []) + [fate]]
  }

  // History after a call of poller p.
  function Record(s: Store, p: nat, phase: Phase, committed: Option<DocId>, outcome: Result<DocId, Err>): Store {
    match phase
    case PostBlock(g, _) => if outcome.Ok? then s.(acks := s.acks + [Ack(g.hash, outcome.value, p)]) else s
    case PostEntry(_, _, _, txId, _, _) => s.(entryFates := Note(s.entryFates, txId, committed.Some?))
    case PostLog(_, _, _, txId, _, _) => s.(logFates := Note(s.logFates, txId, committed.Some?))
    case _ => s
  }

  // History after the receipt of a transaction document has been fetched.
  function Receive(s: Store, txId: DocId, receipt: TransactionReceipt): Store {
    s.(receipts := s.receipts[txId := receipt], entryFates := s.entryFates[txId := []], logFates := s.logFates[txId := []])
  }

  // A request that was sent but not committed may still be on its way.
  function Linger(s: Store, p: nat, phase: Phase, committed: Option<DocId>): Store
    requires InRange(phase) && Posting(phase)
  {
    if committed.None? && Sends(phase) then s.(pending := s.pending + [InFlight(p, phase)]) else s
  }

  function Mark(fates: Fates, txId: DocId, k: nat): Fates {
    if txId in fates && k < |fates[txId]| then fates[txId := fates[txId][k := true]] else fates
  }

  // The i-th request in flight is committed after all.
  function Landed(s: Store, i: nat, id: DocId): Store
    requires i < |s.pending|
    requires var phase := s.pending[i].phase; InRange(phase) && Posting(phase) && Sends(phase)
  {
    var InFlight(p, phase) := s.pending[i];
    var t := Commit(s, p, phase, id).(pending := s.pending[..i] + s.pending[i + 1..], late := true);
    match phase
    case PostEntry(_, _, _, txId, _, j) => t.(entryFates := Mark(s.entryFates, txId, j))
    case PostLog(_, _, _, txId, _, k) => t.(logFates := Mark(s.logFates, txId, k))
    case _ => t
  }

  // Where a poller goes once its call has returned.
  function Next(phase: Phase, outcome: Result<DocId, Err>): Phase
    requires InRange(phase) && Posting(phase)
  {
    match phase
    case PostBlock(g, attempts) => (
      match outcome
      case Ok(id) => EnterTx(g, id, 0)
      case Err(e) => if Decide(e, attempts).Again? then PostBlock(g, attempts + 1) else Idle)
    case PostTx(g, blockId, i) =>
      if outcome.Ok? then FetchReceipt(g, blockId, i, outcome.value) else EnterTx(g, blockId, i + 1)
    case PostEntry(g, blockId, i, txId, receipt, j) => EnterEntry(g, blockId, i, txId, receipt, j + 1)
    case PostLog(g, blockId, i, txId, receipt, k) => EnterLog(g, blockId, i, txId, receipt, k + 1)
  }

  // ------------------------------------------------------------------- steps

  /**
   What the environment decides in one step of a poller: the latest block the node yields (None on
   an error), the receipt it yields, what the store commits and how the exchange ends, or that the
   process stops here and starts again. Land is no step of the poller: a request it left in flight is
   committed.
   */
  datatype Event =
    | NodeBlock(block: Option<GethBlock>)
    | NodeReceipt(receipt: Option<GethReceipt>)
    | Exchange(committed: Option<DocId>, wire: Wire)
    | Crash
    | Land(i: nat, id: DocId)

  datatype Step = Step(p: nat, event: Event)

  predicate RenderedReceipt(r: GethReceipt) {
    forall i | 0 <= i < |r.logs| :: RenderedLog(r.logs[i])
  }

  // The store commits only requests that were sent and break no index, and acknowledges only what it committed.
  predicate ExchangeEnabled(s: Store, phase: Phase, committed: Option<DocId>, outcome: Result<DocId, Err>)
    requires InRange(phase) && Posting(phase)
  {
    && (committed.Some? ==> Sends(phase) && Fresh(s, committed.value) && Unique(s, phase))
    && (outcome.Ok? ==> committed == Some(outcome.value))
  }

  predicate LandEnabled(s: Store, p: nat, i: nat, id: DocId) {
    && i < |s.pending| && s.pending[i].p == p
    && var phase := s.pending[i].phase;
       InRange(phase) && Posting(phase) && Sends(phase) && Fresh(s, id) && Unique(s, phase)
  }

  predicate Enabled(s: State, step: Step) {
    && step.p < |s.pollers|
    && InRange(s.pollers[step.p])
    && var phase := s.pollers[step.p];
       match step.event
       case NodeBlock(b) => phase.Idle? && (b.Some? ==> RenderedBlock(b.value) && EthereumClient.Indexable(b.value))
       case NodeReceipt(r) => phase.FetchReceipt? && (r.Some? ==> RenderedReceipt(r.value))
       case Exchange(committed, wire) =>
         Posting(phase) && ExchangeEnabled(s.store, phase, committed, Returned(phase, wire))
       case Crash => true
       case Land(i, id) => LandEnabled(s.store, step.p, i, id)
  }

  // The store after one call of poller p, but for what stays in flight.
  function Answered(s: Store, p: nat, phase: Phase, committed: Option<DocId>, outcome: Result<DocId, Err>): Store
    requires InRange(phase) && Posting(phase) && (committed.Some? ==> Sends(phase))
  {
    Record(if committed.Some? then Commit(s, p, phase, committed.value) else s, p, phase, committed, outcome)
  }

  // The store after one call of poller p.
  function Exchanged(s: Store, p: nat, phase: Phase, committed: Option<DocId>, outcome: Result<DocId, Err>): Store
    requires InRange(phase) && Posting(phase) && (committed.Some? ==> Sends(phase))
  {
    Linger(Answered(s, p, phase, committed, outcome), p, phase, committed)
  }

  function Apply(s: State, step: Step): State
    requires Enabled(s, step)
  {
    var p, phase := step.p, s.pollers[step.p];
    match step.event
    case NodeBlock(b) =>
      State(s.store, s.pollers[p := if b.Some? then PostBlock(EthereumClient.BlockOf(b.value), 0) else Idle])
    case NodeReceipt(r) =>
      if r.None? then State(s.store, s.pollers[p := EnterTx(phase.g, phase.blockId, phase.i + 1)])
      else
        var receipt := EthereumClient.ReceiptOf(r.value);
        State(Receive(s.store, phase.txId, receipt),
              s.pollers[p := EnterEntry(phase.g, phase.blockId, phase.i, phase.txId, receipt, 0)])
    case Exchange(committed, wire) =>
      var outcome := Returned(phase, wire);
      State(Exchanged(s.store, p, phase, committed, outcome), s.pollers[p := Next(phase, outcome)])
    case Crash => State(s.store, s.pollers[p := Idle])
    case Land(i, id) => State(Landed(s.store, i, id), s.pollers)
  }

  // ------------------------------------------------------------------- runs

  // Whether these steps can happen one after the other, starting with n idle pollers and an empty store.
  predicate ValidRun(n: nat, steps: seq<Step>)
    decreases |steps|, 0
  {
    steps == [] || (ValidRun(n, steps[..|steps| - 1]) && Enabled(Final(n, steps[..|steps| - 1]), steps[|steps| - 1]))
  }

  // The state they lead to.
  function Final(n: nat, steps: seq<Step>): State
    requires ValidRun(n, steps)
    decreases |steps|, 1
  {
    if steps == [] then Initial(n) else Apply(Final(n, steps[..|steps| - 1]), steps[|steps| - 1])
  }
}
