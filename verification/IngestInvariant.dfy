/** The inductive invariant of the ingest pipeline, and how each of its parts takes one document more. */
module IngestInvariant {
  import opened Wrappers
  import opened Strconv
  import opened Hex
  import opened Types
  import opened Geth
  import opened Requests
  import opened RetryControl
  import opened Ingest
  import EthereumClient

  // ------------------------------------------------------------- selections

  // The items of a list whose create call was committed; fates may cover only a first part of it.
  function Selected<T>(list: seq<T>, fates: seq<bool>): seq<T>
    requires |fates| <= |list|
  {
    if fates == [] then []
    else
      var n := |fates| - 1;
      Selected(list, fates[..n]) + (if fates[n] then [list[n]] else [])
  }

  lemma SelectedSnoc<T>(list: seq<T>, fates: seq<bool>, fate: bool)
    requires |fates| < |list|
    ensures Selected(list, fates + [fate]) == Selected(list, fates) + (if fate then [list[|fates|]] else [])
  {
    assert (fates + [fate])[..|fates|] == fates;
  }

  // Marking one more item as committed adds one copy of it.
  lemma {:induction false} SelectedMark<T>(list: seq<T>, fates: seq<bool>, k: nat)
    requires |fates| <= |list| && k < |fates| && !fates[k]
    ensures multiset(Selected(list, fates[k := true])) == multiset(Selected(list, fates)) + multiset{list[k]}
  {
    var n := |fates| - 1;
    if k == n {
      assert fates[k := true][..n] == fates[..n];
    } else {
      assert fates[k := true][..n] == fates[..n][k := true];
      SelectedMark(list, fates[..n], k);
    }
  }

  // What is stored are the committed items, in order unless something was committed late.
  predicate Matches<T(==)>(stored: seq<T>, list: seq<T>, fates: seq<bool>, late: bool) {
    && |fates| <= |list| && multiset(stored) == multiset(Selected(list, fates))
    && (!late ==> stored == Selected(list, fates))
  }

  lemma MatchesSnoc<T>(stored: seq<T>, list: seq<T>, fates: seq<bool>, late: bool, fate: bool)
    requires Matches(stored, list, fates, late) && |fates| < |list|
    ensures Matches(stored + (if fate then [list[|fates|]] else []), list, fates + [fate], late)
  {
    SelectedSnoc(list, fates, fate);
  }

  lemma MatchesMark<T>(stored: seq<T>, list: seq<T>, fates: seq<bool>, late: bool, k: nat)
    requires Matches(stored, list, fates, late) && k < |fates| && !fates[k]
    ensures Matches(stored + [list[k]], list, fates[k := true], true)
  {
    SelectedMark(list, fates, k);
  }

  // ---------------------------------------------------- children, in creation order

  function LogsOf(logs: seq<LogDoc>, txId: DocId): seq<Log> {
    if logs == [] then []
    else
      var before, last := LogsOf(logs[..|logs| - 1], txId), logs[|logs| - 1];
      if last.transaction_id == txId then before + [last.log] else before
  }

  function EntriesOf(entries: seq<EntryDoc>, txId: DocId): seq<AccessListEntry> {
    if entries == [] then []
    else
      var before, last := EntriesOf(entries[..|entries| - 1], txId), entries[|entries| - 1];
      if last.transaction_id == txId then before + [last.entry] else before
  }

  lemma LogsOfSnoc(logs: seq<LogDoc>, d: LogDoc, txId: DocId)
    ensures LogsOf(logs + [d], txId) == LogsOf(logs, txId) + (if d.transaction_id == txId then [d.log] else [])
  {
    assert (logs + [d])[..|logs|] == logs;
  }

  lemma EntriesOfSnoc(entries: seq<EntryDoc>, d: EntryDoc, txId: DocId)
    ensures EntriesOf(entries + [d], txId) == EntriesOf(entries, txId) + (if d.transaction_id == txId then [d.entry] else [])
  {
    assert (entries + [d])[..|entries|] == entries;
  }

  lemma {:induction false} NoLogs(logs: seq<LogDoc>, txId: DocId)
    requires forall i | 0 <= i < |logs| :: logs[i].transaction_id != txId
    ensures LogsOf(logs, txId) == []
  {
    if logs != [] { NoLogs(logs[..|logs| - 1], txId); }
  }

  lemma {:induction false} NoEntries(entries: seq<EntryDoc>, txId: DocId)
    requires forall i | 0 <= i < |entries| :: entries[i].transaction_id != txId
    ensures EntriesOf(entries, txId) == []
  {
    if entries != [] { NoEntries(entries[..|entries| - 1], txId); }
  }

  // -------------------------------------------------- what the node hands out

  // A transaction repeats its block's hash, and its number if that number can be stored at all.
  predicate CoherentTransaction(g: Block, tx: Transaction) {
    && PlainTransaction(tx) && tx.blockHash == g.hash
    && (ParsedNumber(tx.blockNumber).Some? ==> ParsedNumber(tx.blockNumber) == ParsedNumber(g.number))
    && forall j | 0 <= j < |tx.accessList| :: PlainEntry(tx.accessList[j])
  }

  predicate Coherent(g: Block) {
    && PlainBlock(g) && (ParsedNumber(g.number).Some? ==> ParsedNumber(g.number).value >= 0)
    && forall i | 0 <= i < |g.transactions| :: CoherentTransaction(g, g.transactions[i])
  }

  predicate PlainReceipt(r: TransactionReceipt) {
    forall k | 0 <= k < |r.logs| :: PlainLog(r.logs[k])
  }

  lemma NumberOfDecimal(n: int)
    ensures ParsedNumber(FormatInt(n, 10)) == if -TWO_63 <= n < TWO_63 then Some(n) else None
  {
    DecimalRoundTrip(n);
  }

  lemma ConvertedIsCoherent(b: GethBlock)
    requires RenderedBlock(b) && EthereumClient.Indexable(b)
    ensures Coherent(EthereumClient.BlockOf(b))
  {
    var g := EthereumClient.BlockOf(b);
    BlockIsPlain(b);
    NumberOfDecimal(NumberU64(b));
    forall i | 0 <= i < |g.transactions| ensures CoherentTransaction(g, g.transactions[i]) {
      TransactionIsCoherent(b, i);
    }
  }

  lemma TransactionIsCoherent(b: GethBlock, i: nat)
    requires RenderedBlock(b) && EthereumClient.Indexable(b) && i < |b.transactions|
    ensures CoherentTransaction(EthereumClient.BlockOf(b), EthereumClient.TransactionOf(b.transactions[i], b, i))
  {
    var source := b.transactions[i];
    TransactionIsPlain(source, b, i);
    NumberOfDecimal(b.number);
    if source.accessList.Some? {
      EntriesArePlain(source.accessList.value);
    }
  }

  lemma ReceiptIsPlain(r: GethReceipt)
    requires RenderedReceipt(r)
    ensures PlainReceipt(EthereumClient.ReceiptOf(r))
  {
    forall k | 0 <= k < |r.logs| ensures PlainLog(EthereumClient.LogOf(r.logs[k])) {
      LogIsPlain(r.logs[k]);
    }
  }

  // --------------------------------------------------------------- invariant

  predicate BlockHashesUnique(blocks: map<DocId, BlockDoc>) {
    forall a, b | a in blocks && b in blocks && blocks[a].block.hash == blocks[b].block.hash :: a == b
  }

  predicate TxHashesUnique(txs: map<DocId, TxDoc>) {
    forall a, b | a in txs && b in txs && txs[a].tx.hash == txs[b].tx.hash :: a == b
  }

  // Success was reported for documents of that hash only, and never twice for one document.
  predicate AcksTrue(acks: seq<Ack>, blocks: map<DocId, BlockDoc>) {
    && (forall i | 0 <= i < |acks| ::
          acks[i].id in blocks && blocks[acks[i].id].block.hash == acks[i].hash && blocks[acks[i].id].poller == acks[i].poller)
    && (forall i, j | 0 <= i < j < |acks| :: acks[i].id != acks[j].id)
  }

  predicate Acked(acks: seq<Ack>, blockId: DocId, p: nat) {
    exists i | 0 <= i < |acks| :: acks[i].id == blockId && acks[i].poller == p
  }

  // A transaction hangs off a block whose creation was reported to the poller that posted it.
  predicate TxLinked(d: TxDoc, blocks: map<DocId, BlockDoc>, acks: seq<Ack>) {
    && d.block_id in blocks && Acked(acks, d.block_id, d.poller)
    && d.tx.blockHash == blocks[d.block_id].block.hash && d.number == blocks[d.block_id].number
  }

  predicate TxsLinked(txs: map<DocId, TxDoc>, blocks: map<DocId, BlockDoc>, acks: seq<Ack>) {
    forall t | t in txs :: TxLinked(txs[t], blocks, acks)
  }

  predicate EntryLinked(e: EntryDoc, txs: map<DocId, TxDoc>) {
    e.transaction_id in txs && txs[e.transaction_id].poller == e.poller
  }

  predicate EntriesLinked(entries: seq<EntryDoc>, txs: map<DocId, TxDoc>) {
    forall i | 0 <= i < |entries| :: EntryLinked(entries[i], txs)
  }

  predicate LogLinked(l: LogDoc, txs: map<DocId, TxDoc>) {
    l.transaction_id in txs && txs[l.transaction_id].poller == l.poller && txs[l.transaction_id].block_id == l.block_id
  }

  predicate LogsLinked(logs: seq<LogDoc>, txs: map<DocId, TxDoc>) {
    forall i | 0 <= i < |logs| :: LogLinked(logs[i], txs)
  }

  predicate ReceiptsLinked(receipts: map<DocId, TransactionReceipt>, txs: map<DocId, TxDoc>) {
    forall t | t in receipts :: t in txs
  }

  // The number column is what the record's own text parses to, and a block's is not negative.
  predicate BlocksNumbered(blocks: map<DocId, BlockDoc>) {
    forall b | b in blocks :: ParsedNumber(blocks[b].block.number) == Some(blocks[b].number) && blocks[b].number >= 0
  }

  predicate TxsNumbered(txs: map<DocId, TxDoc>) {
    forall t | t in txs :: ParsedNumber(txs[t].tx.blockNumber) == Some(txs[t].number)
  }

  predicate LogsNumbered(logs: seq<LogDoc>) {
    forall i | 0 <= i < |logs| :: ParsedNumber(logs[i].log.blockNumber) == Some(logs[i].number)
  }

  predicate Numbered(s: Store) {
    BlocksNumbered(s.blocks) && TxsNumbered(s.txs) && LogsNumbered(s.logs)
  }

  // Before its receipt was fetched a transaction document has no logs; then exactly the committed ones.
  predicate LogsExact(t: DocId, receipts: map<DocId, TransactionReceipt>, fates: Fates, late: bool, logs: seq<LogDoc>) {
    if t in receipts then t in fates && Matches(LogsOf(logs, t), receipts[t].logs, fates[t], late)
    else LogsOf(logs, t) == []
  }

  predicate AllLogsExact(txs: map<DocId, TxDoc>, receipts: map<DocId, TransactionReceipt>, fates: Fates, late: bool,
          logs: seq<LogDoc>) {
    forall t | t in txs :: LogsExact(t, receipts, fates, late, logs)
  }

  predicate EntriesExact(t: DocId, d: TxDoc, receipts: map<DocId, TransactionReceipt>, fates: Fates, late: bool,
          entries: seq<EntryDoc>) {
    if t in receipts then t in fates && Matches(EntriesOf(entries, t), d.tx.accessList, fates[t], late)
    else EntriesOf(entries, t) == []
  }

  predicate AllEntriesExact(txs: map<DocId, TxDoc>, receipts: map<DocId, TransactionReceipt>, fates: Fates, late: bool,
          entries: seq<EntryDoc>) {
    forall t | t in txs :: EntriesExact(t, txs[t], receipts, fates, late, entries)
  }

  // Poller p got this document id for the block it is working on.
  predicate OwnsBlock(s: Store, p: nat, g: Block, blockId: DocId) {
    && Coherent(g) && blockId in s.blocks && Acked(s.acks, blockId, p) && PlainText(blockId) && blockId != ""
    && ParsedNumber(g.number).Some? && s.blocks[blockId] == BlockDoc(BuildBlock(g), ParsedNumber(g.number).value, p)
  }

  predicate OwnsTx(s: Store, p: nat, g: Block, blockId: DocId, i: nat, txId: DocId) {
    && OwnsBlock(s, p, g, blockId) && i < |g.transactions|
    && ParsedNumber(g.transactions[i].blockNumber).Some? && PlainText(txId) && txId != ""
    && txId in s.txs
    && s.txs[txId] == TxDoc(g.transactions[i], ParsedNumber(g.transactions[i].blockNumber).value, blockId, p)
  }

  // The receipt fetched for a transaction, and how many entries and logs have been tried.
  predicate Progress(s: Store, txId: DocId, receipt: TransactionReceipt, j: nat, k: nat) {
    && PlainReceipt(receipt) && txId in s.receipts && s.receipts[txId] == receipt
    && txId in s.entryFates && |s.entryFates[txId]| == j && txId in s.logFates && |s.logFates[txId]| == k
  }

  // The program counter of poller p tells the truth about the store.
  predicate PhaseTrue(s: Store, p: nat, phase: Phase) {
    InRange(phase) &&
    match phase
    case Idle => true
    case PostBlock(g, attempts) => Coherent(g) && attempts <= TOTAL_RETRY_ATTEMPTS
    case PostTx(g, blockId, i) => OwnsBlock(s, p, g, blockId)
    case FetchReceipt(g, blockId, i, txId) => OwnsTx(s, p, g, blockId, i, txId) && txId !in s.receipts
    case PostEntry(g, blockId, i, txId, receipt, j) => OwnsTx(s, p, g, blockId, i, txId) && Progress(s, txId, receipt, j, 0)
    case PostLog(g, blockId, i, txId, receipt, k) =>
      OwnsTx(s, p, g, blockId, i, txId) && Progress(s, txId, receipt, |g.transactions[i].accessList|, k)
  }

  // What holds of the store and the history alone.
  ghost predicate StoreTrue(s: Store) {
    && BlockHashesUnique(s.blocks) && TxHashesUnique(s.txs) && AcksTrue(s.acks, s.blocks)
    && TxsLinked(s.txs, s.blocks, s.acks) && EntriesLinked(s.entries, s.txs) && LogsLinked(s.logs, s.txs)
    && ReceiptsLinked(s.receipts, s.txs)
    && AllLogsExact(s.txs, s.receipts, s.logFates, s.late, s.logs)
    && AllEntriesExact(s.txs, s.receipts, s.entryFates, s.late, s.entries)
  }

  predicate HasReceipt(s: Store, txId: DocId, receipt: TransactionReceipt) {
    PlainReceipt(receipt) && txId in s.receipts && s.receipts[txId] == receipt
  }

  // The k-th child of this transaction was tried and is not in the store.
  predicate Awaits(fates: Fates, txId: DocId, k: nat) {
    txId in fates && k < |fates[txId]| && !fates[txId][k]
  }

  // What is still true of a request in flight.
  predicate InFlightTrue(s: Store, p: nat, phase: Phase) {
    InRange(phase) && Posting(phase) && Sends(phase) &&
    match phase
    case PostBlock(g, _) => Coherent(g)
    case PostTx(g, blockId, i) => OwnsBlock(s, p, g, blockId)
    case PostEntry(g, blockId, i, txId, receipt, j) =>
      OwnsTx(s, p, g, blockId, i, txId) && HasReceipt(s, txId, receipt) && Awaits(s.entryFates, txId, j)
    case PostLog(g, blockId, i, txId, receipt, k) =>
      OwnsTx(s, p, g, blockId, i, txId) && HasReceipt(s, txId, receipt) && Awaits(s.logFates, txId, k)
  }

  predicate SameChild(a: Phase, b: Phase) {
    || (a.PostEntry? && b.PostEntry? && a.txId == b.txId && a.j == b.j)
    || (a.PostLog? && b.PostLog? && a.txId == b.txId && a.k == b.k)
  }

  // No child has two requests in flight.
  predicate PendingTrue(s: Store, pending: seq<InFlight>) {
    && (forall i | 0 <= i < |pending| :: InFlightTrue(s, pending[i].p, pending[i].phase))
    && (forall i, j | 0 <= i < j < |pending| :: !SameChild(pending[i].phase, pending[j].phase))
  }

  ghost predicate Inv(s: State) {
    StoreTrue(s.store) && Numbered(s.store) && PendingTrue(s.store, s.store.pending)
    && forall p | 0 <= p < |s.pollers| :: PhaseTrue(s.store, p, s.pollers[p])
  }

  lemma InitialInv(n: nat)
    ensures Inv(Initial(n))
  {
  }

  // ------------------------------------------------------------------- growth

  // Nothing is ever taken back.
  predicate Grows(s: Store, t: Store) {
    && (forall b | b in s.blocks :: b in t.blocks && t.blocks[b] == s.blocks[b])
    && (forall x | x in s.txs :: x in t.txs && t.txs[x] == s.txs[x])
    && s.acks <= t.acks && s.entries <= t.entries && s.logs <= t.logs
  }

  lemma AckedGrows(acks: seq<Ack>, more: seq<Ack>, b: DocId, p: nat)
    requires acks <= more && Acked(acks, b, p)
    ensures Acked(more, b, p)
  {
    var i :| 0 <= i < |acks| && acks[i].id == b && acks[i].poller == p;
    assert more[i] == acks[i];
  }

  // Which transaction document a phase is about to add children to.
  function WorksOn(phase: Phase): Option<DocId> {
    if phase.FetchReceipt? || phase.PostEntry? || phase.PostLog? then Some(phase.txId) else None
  }

  predicate SameLength(x: DocId, a: Fates, b: Fates) {
    (x in a <==> x in b) && (x in a ==> |a[x]| == |b[x]|)
  }

  // One transaction document has the same receipt, and as many children were tried, in both states.
  predicate HistoryKept(s: Store, t: Store, x: DocId) {
    && (x in s.receipts <==> x in t.receipts) && (x in s.receipts ==> s.receipts[x] == t.receipts[x])
    && SameLength(x, s.entryFates, t.entryFates) && SameLength(x, s.logFates, t.logFates)
  }

  // A poller's phase stays true if its own transaction is left alone.
  lemma PhaseStays(s: Store, t: Store, q: nat, phase: Phase)
    requires PhaseTrue(s, q, phase) && Grows(s, t)
    requires WorksOn(phase).Some? ==> HistoryKept(s, t, phase.txId)
    ensures PhaseTrue(t, q, phase)
  {
    if phase.PostTx? || WorksOn(phase).Some? {
      AckedGrows(s.acks, t.acks, phase.blockId, q);
    }
  }

  // The change from s to t touches only transactions of p.
  predicate TouchesOnly(s: Store, t: Store, p: nat) {
    Grows(s, t) && forall x | x in s.txs && s.txs[x].poller != p :: HistoryKept(s, t, x)
  }

  // A step of p that touches only p's own transactions keeps the invariant if it leaves the store and p in order.
  lemma PollerStep(s: State, store: Store, p: nat, phase: Phase)
    requires Inv(s) && p < |s.pollers| && StoreTrue(store) && Numbered(store) && TouchesOnly(s.store, store, p)
    requires PendingTrue(store, store.pending) && PhaseTrue(store, p, phase)
    ensures Inv(State(store, s.pollers[p := phase]))
  {
    hide StoreTrue, Numbered, PendingTrue;
    forall q | 0 <= q < |s.pollers| && q != p ensures PhaseTrue(store, q, s.pollers[q]) {
      assert PhaseTrue(s.store, q, s.pollers[q]);
      if WorksOn(s.pollers[q]).Some? {
        assert HistoryKept(s.store, store, s.pollers[q].txId);
      }
      PhaseStays(s.store, store, q, s.pollers[q]);
    }
  }

  // ---------------------------------------------------------- one document more

  lemma AddBlock(s: Store, id: DocId, d: BlockDoc)
    requires StoreTrue(s) && id !in s.blocks && forall b | b in s.blocks :: s.blocks[b].block.hash != d.block.hash
    ensures StoreTrue(s.(blocks := s.blocks[id := d]))
  {
    var blocks := s.blocks[id := d];
    TxsLinkedGrow(s.txs, s.blocks, blocks, s.acks, s.acks);
    AcksTrueGrow(s.acks, s.blocks, blocks);
    BlockHashUnique(s.blocks, id, d);
  }

  lemma BlockHashUnique(blocks: map<DocId, BlockDoc>, id: DocId, d: BlockDoc)
    requires BlockHashesUnique(blocks) && id !in blocks && forall b | b in blocks :: blocks[b].block.hash != d.block.hash
    ensures BlockHashesUnique(blocks[id := d])
  {
  }

  predicate BlocksGrow(blocks: map<DocId, BlockDoc>, more: map<DocId, BlockDoc>) {
    forall b | b in blocks :: b in more && more[b] == blocks[b]
  }

  lemma AcksTrueGrow(acks: seq<Ack>, blocks: map<DocId, BlockDoc>, more: map<DocId, BlockDoc>)
    requires AcksTrue(acks, blocks) && BlocksGrow(blocks, more)
    ensures AcksTrue(acks, more)
  {
  }

  lemma TxsLinkedGrow(txs: map<DocId, TxDoc>, blocks: map<DocId, BlockDoc>, moreBlocks: map<DocId, BlockDoc>,
                      acks: seq<Ack>, moreAcks: seq<Ack>)
    requires TxsLinked(txs, blocks, acks) && BlocksGrow(blocks, moreBlocks) && acks <= moreAcks
    ensures TxsLinked(txs, moreBlocks, moreAcks)
  {
    forall t | t in txs ensures TxLinked(txs[t], moreBlocks, moreAcks) {
      assert TxLinked(txs[t], blocks, acks);
      AckedGrows(acks, moreAcks, txs[t].block_id, txs[t].poller);
    }
  }

  lemma AddAck(s: Store, a: Ack)
    requires StoreTrue(s) && a.id in s.blocks && forall i | 0 <= i < |s.acks| :: s.acks[i].id != a.id
    requires s.blocks[a.id].block.hash == a.hash && s.blocks[a.id].poller == a.poller
    ensures StoreTrue(s.(acks := s.acks + [a])) && Acked(s.acks + [a], a.id, a.poller)
  {
    var acks := s.acks + [a];
    assert acks[|s.acks|] == a;
    TxsLinkedGrow(s.txs, s.blocks, s.blocks, s.acks, acks);
    AckTrue(s.acks, a, s.blocks);
  }

  lemma AckTrue(acks: seq<Ack>, a: Ack, blocks: map<DocId, BlockDoc>)
    requires AcksTrue(acks, blocks) && a.id in blocks && forall i | 0 <= i < |acks| :: acks[i].id != a.id
    requires blocks[a.id].block.hash == a.hash && blocks[a.id].poller == a.poller
    ensures AcksTrue(acks + [a], blocks)
  {
  }

  lemma AddTx(s: Store, id: DocId, d: TxDoc)
    requires StoreTrue(s) && id !in s.txs && forall x | x in s.txs :: s.txs[x].tx.hash != d.tx.hash
    requires TxLinked(d, s.blocks, s.acks)
    ensures StoreTrue(s.(txs := s.txs[id := d]))
    ensures id !in s.receipts && LogsOf(s.logs, id) == [] && EntriesOf(s.entries, id) == []
  {
    Childless(s, id);
    TxHashUnique(s.txs, id, d);
    TxsLinkedAdd(s.txs, id, d, s.blocks, s.acks);
    ChildrenLinkedAdd(s, id, d);
    ExactAdd(s, id, d);
  }

  lemma Childless(s: Store, id: DocId)
    requires EntriesLinked(s.entries, s.txs) && LogsLinked(s.logs, s.txs) && ReceiptsLinked(s.receipts, s.txs)
    requires id !in s.txs
    ensures id !in s.receipts && LogsOf(s.logs, id) == [] && EntriesOf(s.entries, id) == []
  {
    forall i | 0 <= i < |s.logs| ensures s.logs[i].transaction_id != id { assert LogLinked(s.logs[i], s.txs); }
    forall i | 0 <= i < |s.entries| ensures s.entries[i].transaction_id != id { assert EntryLinked(s.entries[i], s.txs); }
    NoLogs(s.logs, id);
    NoEntries(s.entries, id);
  }

  lemma TxHashUnique(txs: map<DocId, TxDoc>, id: DocId, d: TxDoc)
    requires TxHashesUnique(txs) && id !in txs && forall x | x in txs :: txs[x].tx.hash != d.tx.hash
    ensures TxHashesUnique(txs[id := d])
  {
  }

  lemma TxsLinkedAdd(txs: map<DocId, TxDoc>, id: DocId, d: TxDoc, blocks: map<DocId, BlockDoc>, acks: seq<Ack>)
    requires TxsLinked(txs, blocks, acks) && TxLinked(d, blocks, acks)
    ensures TxsLinked(txs[id := d], blocks, acks)
  {
  }

  lemma ChildrenLinkedAdd(s: Store, id: DocId, d: TxDoc)
    requires EntriesLinked(s.entries, s.txs) && LogsLinked(s.logs, s.txs) && ReceiptsLinked(s.receipts, s.txs)
    requires id !in s.txs
    ensures EntriesLinked(s.entries, s.txs[id := d]) && LogsLinked(s.logs, s.txs[id := d])
    ensures ReceiptsLinked(s.receipts, s.txs[id := d])
  {
    var txs := s.txs[id := d];
    forall i | 0 <= i < |s.logs| ensures LogLinked(s.logs[i], txs) { assert LogLinked(s.logs[i], s.txs); }
    forall i | 0 <= i < |s.entries| ensures EntryLinked(s.entries[i], txs) { assert EntryLinked(s.entries[i], s.txs); }
  }

  lemma ExactAdd(s: Store, id: DocId, d: TxDoc)
    requires AllLogsExact(s.txs, s.receipts, s.logFates, s.late, s.logs)
    requires AllEntriesExact(s.txs, s.receipts, s.entryFates, s.late, s.entries)
    requires id !in s.receipts && LogsOf(s.logs, id) == [] && EntriesOf(s.entries, id) == []
    ensures AllLogsExact(s.txs[id := d], s.receipts, s.logFates, s.late, s.logs)
    ensures AllEntriesExact(s.txs[id := d], s.receipts, s.entryFates, s.late, s.entries)
  {
  }

  lemma AddReceipt(s: Store, x: DocId, r: TransactionReceipt)
    requires StoreTrue(s) && x in s.txs && x !in s.receipts
    ensures StoreTrue(Receive(s, x, r))
  {
    LogsBegin(s, x, r);
    EntriesBegin(s, x, r);
    assert ReceiptsLinked(s.receipts[x := r], s.txs);
  }

  lemma LogsBegin(s: Store, x: DocId, r: TransactionReceipt)
    requires AllLogsExact(s.txs, s.receipts, s.logFates, s.late, s.logs) && x in s.txs && x !in s.receipts
    ensures AllLogsExact(s.txs, s.receipts[x := r], s.logFates[x := []], s.late, s.logs)
  {
    forall t | t in s.txs ensures LogsExact(t, s.receipts[x := r], s.logFates[x := []], s.late, s.logs) {
      assert LogsExact(t, s.receipts, s.logFates, s.late, s.logs);
    }
  }

  lemma EntriesBegin(s: Store, x: DocId, r: TransactionReceipt)
    requires AllEntriesExact(s.txs, s.receipts, s.entryFates, s.late, s.entries) && x in s.txs && x !in s.receipts
    ensures AllEntriesExact(s.txs, s.receipts[x := r], s.entryFates[x := []], s.late, s.entries)
  {
    forall t | t in s.txs ensures EntriesExact(t, s.txs[t], s.receipts[x := r], s.entryFates[x := []], s.late, s.entries) {
      assert EntriesExact(t, s.txs[t], s.receipts, s.entryFates, s.late, s.entries);
    }
  }

  // ------------------------------------------------------------ children tried

  // One more entry of x was tried; entries has one document more if it was committed.
  lemma EntryTried(s: Store, x: DocId, entries: seq<EntryDoc>, fate: bool)
    requires AllEntriesExact(s.txs, s.receipts, s.entryFates, s.late, s.entries)
    requires x in s.txs && x in s.receipts && x in s.entryFates && |s.entryFates[x]| < |s.txs[x].tx.accessList|
    requires forall y :: EntriesOf(entries, y) ==
               EntriesOf(s.entries, y) + (if y == x && fate then [s.txs[x].tx.accessList[|s.entryFates[x]|]] else [])
    ensures AllEntriesExact(s.txs, s.receipts, Note(s.entryFates, x, fate), s.late, entries)
  {
    hide Matches, EntriesOf;
    var fates := Note(s.entryFates, x, fate);
    assert EntriesExact(x, s.txs[x], s.receipts, s.entryFates, s.late, s.entries);
    MatchesSnoc(EntriesOf(s.entries, x), s.txs[x].tx.accessList, s.entryFates[x], s.late, fate);
    forall t | t in s.txs ensures EntriesExact(t, s.txs[t], s.receipts, fates, s.late, entries) {
      assert EntriesExact(t, s.txs[t], s.receipts, s.entryFates, s.late, s.entries);
      assert EntriesOf(s.entries, t) + [] == EntriesOf(s.entries, t);
    }
  }

  // One more log of x was tried; logs has one document more if it was committed.
  lemma LogTried(s: Store, x: DocId, logs: seq<LogDoc>, fate: bool)
    requires AllLogsExact(s.txs, s.receipts, s.logFates, s.late, s.logs)
    requires x in s.txs && x in s.receipts && x in s.logFates && |s.logFates[x]| < |s.receipts[x].logs|
    requires forall y :: LogsOf(logs, y) ==
               LogsOf(s.logs, y) + (if y == x && fate then [s.receipts[x].logs[|s.logFates[x]|]] else [])
    ensures AllLogsExact(s.txs, s.receipts, Note(s.logFates, x, fate), s.late, logs)
  {
    hide Matches, LogsOf;
    var fates := Note(s.logFates, x, fate);
    assert LogsExact(x, s.receipts, s.logFates, s.late, s.logs);
    MatchesSnoc(LogsOf(s.logs, x), s.receipts[x].logs, s.logFates[x], s.late, fate);
    forall t | t in s.txs ensures LogsExact(t, s.receipts, fates, s.late, logs) {
      assert LogsExact(t, s.receipts, s.logFates, s.late, s.logs);
      assert LogsOf(s.logs, t) + [] == LogsOf(s.logs, t);
    }
  }

  lemma SkipEntry(s: Store, x: DocId)
    requires StoreTrue(s) && x in s.txs && x in s.receipts && x in s.entryFates
    requires |s.entryFates[x]| < |s.txs[x].tx.accessList|
    ensures StoreTrue(s.(entryFates := Note(s.entryFates, x, false)))
  {
    hide EntriesOf, AllEntriesExact, AllLogsExact, EntriesLinked, LogsLinked, TxsLinked, AcksTrue;
    EntryTried(s, x, s.entries, false);
  }

  lemma AddEntry(s: Store, e: EntryDoc)
    requires StoreTrue(s) && EntryLinked(e, s.txs)
    requires var x := e.transaction_id;
             && x in s.receipts && x in s.entryFates && |s.entryFates[x]| < |s.txs[x].tx.accessList|
             && e.entry == s.txs[x].tx.accessList[|s.entryFates[x]|]
    ensures StoreTrue(s.(entries := s.entries + [e], entryFates := Note(s.entryFates, e.transaction_id, true)))
  {
    hide AllEntriesExact, AllLogsExact, EntriesLinked, LogsLinked, TxsLinked, AcksTrue, EntriesOf;
    EntriesOfMore(s.entries, e, s.txs);
    EntryTried(s, e.transaction_id, s.entries + [e], true);
  }

  lemma EntriesOfMore(entries: seq<EntryDoc>, e: EntryDoc, txs: map<DocId, TxDoc>)
    ensures EntriesLinked(entries, txs) && EntryLinked(e, txs) ==> EntriesLinked(entries + [e], txs)
    ensures forall y :: EntriesOf(entries + [e], y) == EntriesOf(entries, y) + (if y == e.transaction_id then [e.entry] else [])
  {
    forall y ensures EntriesOf(entries + [e], y) == EntriesOf(entries, y) + (if y == e.transaction_id then [e.entry] else []) {
      EntriesOfSnoc(entries, e, y);
    }
  }

  lemma SkipLog(s: Store, x: DocId)
    requires StoreTrue(s) && x in s.txs && x in s.receipts && x in s.logFates
    requires |s.logFates[x]| < |s.receipts[x].logs|
    ensures StoreTrue(s.(logFates := Note(s.logFates, x, false)))
  {
    hide LogsOf, AllEntriesExact, AllLogsExact, EntriesLinked, LogsLinked, TxsLinked, AcksTrue;
    LogTried(s, x, s.logs, false);
  }

  lemma AddLog(s: Store, l: LogDoc)
    requires StoreTrue(s) && LogLinked(l, s.txs)
    requires var x := l.transaction_id;
             && x in s.receipts && x in s.logFates && |s.logFates[x]| < |s.receipts[x].logs|
             && l.log == s.receipts[x].logs[|s.logFates[x]|]
    ensures StoreTrue(s.(logs := s.logs + [l], logFates := Note(s.logFates, l.transaction_id, true)))
  {
    hide AllEntriesExact, AllLogsExact, EntriesLinked, LogsLinked, TxsLinked, AcksTrue, LogsOf;
    LogsOfMore(s.logs, l, s.txs);
    LogTried(s, l.transaction_id, s.logs + [l], true);
  }

  lemma LogsOfMore(logs: seq<LogDoc>, l: LogDoc, txs: map<DocId, TxDoc>)
    ensures LogsLinked(logs, txs) && LogLinked(l, txs) ==> LogsLinked(logs + [l], txs)
    ensures forall y :: LogsOf(logs + [l], y) == LogsOf(logs, y) + (if y == l.transaction_id then [l.log] else [])
  {
    forall y ensures LogsOf(logs + [l], y) == LogsOf(logs, y) + (if y == l.transaction_id then [l.log] else []) {
      LogsOfSnoc(logs, l, y);
    }
  }

  // ----------------------------------------------------------- children landed

  // Once something was committed late, order is given up for good; nothing else changes.
  lemma LateWeakens(s: Store)
    requires StoreTrue(s)
    ensures StoreTrue(s.(late := true))
  {
    forall t | t in s.txs ensures LogsExact(t, s.receipts, s.logFates, true, s.logs) {
      assert LogsExact(t, s.receipts, s.logFates, s.late, s.logs);
    }
    forall t | t in s.txs ensures EntriesExact(t, s.txs[t], s.receipts, s.entryFates, true, s.entries) {
      assert EntriesExact(t, s.txs[t], s.receipts, s.entryFates, s.late, s.entries);
    }
  }

  // The j-th entry of x is committed late.
  lemma LandEntry(s: Store, e: EntryDoc, j: nat)
    requires StoreTrue(s) && s.late && EntryLinked(e, s.txs) && Awaits(s.entryFates, e.transaction_id, j)
    requires var x := e.transaction_id;
             x in s.receipts && j < |s.txs[x].tx.accessList| && e.entry == s.txs[x].tx.accessList[j]
    ensures StoreTrue(s.(entries := s.entries + [e], entryFates := Mark(s.entryFates, e.transaction_id, j)))
  {
    hide AllEntriesExact, AllLogsExact, EntriesLinked, LogsLinked, TxsLinked, AcksTrue, EntriesOf;
    EntriesOfMore(s.entries, e, s.txs);
    EntryLanded(s, e, j);
  }

  lemma EntryLanded(s: Store, e: EntryDoc, j: nat)
    requires AllEntriesExact(s.txs, s.receipts, s.entryFates, s.late, s.entries) && s.late
    requires Awaits(s.entryFates, e.transaction_id, j)
    requires var x := e.transaction_id;
             x in s.txs && x in s.receipts && j < |s.txs[x].tx.accessList| && e.entry == s.txs[x].tx.accessList[j]
    ensures AllEntriesExact(s.txs, s.receipts, Mark(s.entryFates, e.transaction_id, j), s.late, s.entries + [e])
  {
    hide Matches, EntriesOf;
    var x, fates := e.transaction_id, Mark(s.entryFates, e.transaction_id, j);
    assert EntriesExact(x, s.txs[x], s.receipts, s.entryFates, s.late, s.entries);
    MatchesMark(EntriesOf(s.entries, x), s.txs[x].tx.accessList, s.entryFates[x], s.late, j);
    forall t | t in s.txs ensures EntriesExact(t, s.txs[t], s.receipts, fates, s.late, s.entries + [e]) {
      assert EntriesExact(t, s.txs[t], s.receipts, s.entryFates, s.late, s.entries);
      EntriesOfSnoc(s.entries, e, t);
      assert EntriesOf(s.entries, t) + [] == EntriesOf(s.entries, t);
    }
  }

  // The k-th log of x is committed late.
  lemma LandLog(s: Store, l: LogDoc, k: nat)
    requires StoreTrue(s) && s.late && LogLinked(l, s.txs) && Awaits(s.logFates, l.transaction_id, k)
    requires var x := l.transaction_id;
             x in s.receipts && k < |s.receipts[x].logs| && l.log == s.receipts[x].logs[k]
    ensures StoreTrue(s.(logs := s.logs + [l], logFates := Mark(s.logFates, l.transaction_id, k)))
  {
    hide AllEntriesExact, AllLogsExact, EntriesLinked, LogsLinked, TxsLinked, AcksTrue, LogsOf;
    LogsOfMore(s.logs, l, s.txs);
    LogLanded(s, l, k);
  }

  lemma LogLanded(s: Store, l: LogDoc, k: nat)
    requires AllLogsExact(s.txs, s.receipts, s.logFates, s.late, s.logs) && s.late
    requires Awaits(s.logFates, l.transaction_id, k)
    requires var x := l.transaction_id;
             x in s.txs && x in s.receipts && k < |s.receipts[x].logs| && l.log == s.receipts[x].logs[k]
    ensures AllLogsExact(s.txs, s.receipts, Mark(s.logFates, l.transaction_id, k), s.late, s.logs + [l])
  {
    hide Matches, LogsOf;
    var x, fates := l.transaction_id, Mark(s.logFates, l.transaction_id, k);
    assert LogsExact(x, s.receipts, s.logFates, s.late, s.logs);
    MatchesMark(LogsOf(s.logs, x), s.receipts[x].logs, s.logFates[x], s.late, k);
    forall t | t in s.txs ensures LogsExact(t, s.receipts, fates, s.late, s.logs + [l]) {
      assert LogsExact(t, s.receipts, s.logFates, s.late, s.logs);
      LogsOfSnoc(s.logs, l, t);
      assert LogsOf(s.logs, t) + [] == LogsOf(s.logs, t);
    }
  }

  // ----------------------------------------------------------- requests in flight

  // Receipts stay, and the fates of a transaction whose receipt was fetched are only added to.
  predicate HistoryExtends(s: Store, t: Store) {
    && (forall x | x in s.receipts :: x in t.receipts && t.receipts[x] == s.receipts[x])
    && (forall x | x in s.receipts && x in s.entryFates :: x in t.entryFates && s.entryFates[x] <= t.entryFates[x])
    && (forall x | x in s.receipts && x in s.logFates :: x in t.logFates && s.logFates[x] <= t.logFates[x])
  }

  lemma InFlightStays(s: Store, t: Store, p: nat, phase: Phase)
    requires InFlightTrue(s, p, phase) && Grows(s, t) && HistoryExtends(s, t)
    ensures InFlightTrue(t, p, phase)
  {
    hide Coherent, ParsedNumber, PlainText, BuildBlock, PlainReceipt;
    if !phase.PostBlock? {
      AckedGrows(s.acks, t.acks, phase.blockId, p);
    }
  }

  lemma PendingStays(s: Store, t: Store, pending: seq<InFlight>)
    requires PendingTrue(s, pending) && Grows(s, t) && HistoryExtends(s, t)
    ensures PendingTrue(t, pending)
  {
    hide InFlightTrue, Grows, HistoryExtends;
    forall i | 0 <= i < |pending| ensures InFlightTrue(t, pending[i].p, pending[i].phase) {
      InFlightStays(s, t, pending[i].p, pending[i].phase);
    }
  }
}
