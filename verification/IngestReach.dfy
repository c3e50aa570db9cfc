/**
 What the ingest pipeline can attain: from every reachable state any poller can still bring a block into
 the store whole, with every transaction, access list entry and log of it exactly once and in order.
 */
module IngestReach {
  import opened Wrappers
  import opened Strconv
  import opened Errors
  import opened Types
  import opened Geth
  import opened BlockHandler
  import opened Requests
  import opened RetryControl
  import opened Ingest
  import opened IngestInvariant
  import opened IngestSteps
  import opened IngestRequests
  import EthereumClient

  // ------------------------------------------------------------- fresh ids

  lemma {:induction false} LongerThanAll(ids: set<DocId>) returns (n: nat)
    ensures forall id | id in ids :: |id| < n
  {
    if ids == {} {
      n := 0;
    } else {
      var id :| id in ids;
      var m := LongerThanAll(ids - {id});
      n := if |id| < m then m else |id| + 1;
      forall other | other in ids ensures |other| < n {
        assert other == id || other in ids - {id};
      }
    }
  }

  lemma FreshId(s: Store) returns (id: DocId)
    ensures Fresh(s, id)
  {
    var n := LongerThanAll(s.blocks.Keys + s.txs.Keys + EntryIds(s) + LogIds(s));
    id := seq(n + 1, i => 'b');
  }

  // ------------------------------------------------------ calls that go well

  // The store at the end of a run, and where poller p is then.
  ghost predicate At(n: nat, steps: seq<Step>, p: nat, s: Store, phase: Phase) {
    ValidRun(n, steps) && p < n && |Final(n, steps).pollers| == n
    && Final(n, steps).store == s && Final(n, steps).pollers[p] == phase
  }

  lemma Went(n: nat, steps: seq<Step>, p: nat, s: Store, phase: Phase, event: Event)
    requires At(n, steps, p, s, phase) && Enabled(Final(n, steps), Step(p, event))
    ensures ValidRun(n, steps + [Step(p, event)])
    ensures Final(n, steps + [Step(p, event)]) == Apply(Final(n, steps), Step(p, event))
    ensures |Final(n, steps + [Step(p, event)]).pollers| == n
  {
    hide Enabled, Apply, ValidRun, Final;
    RunSnoc(n, steps, Step(p, event));
    PollersKept(Final(n, steps), Step(p, event));
  }

  // The create call of this phase is committed and answered.
  lemma GoodCall(n: nat, steps: seq<Step>, p: nat, s: Store, phase: Phase) returns (more: seq<Step>, id: DocId)
    requires At(n, steps, p, s, phase) && InRange(phase) && Posting(phase) && Sends(phase) && Unique(s, phase)
    ensures steps <= more && Fresh(s, id)
    ensures At(n, more, p, Exchanged(s, p, phase, Some(id), Ok(id)), Next(phase, Ok(id)))
  {
    hide ValidRun, Final, Reports, Returned, Exchanged, Next, Sends, Fresh, Unique;
    id := FreshId(s);
    var field := "create_" + CollectionOf(phase);
    var wire := Body(Some(JObj(map[]["data" := JObj(map[][field := JObj(map[]["_docID" := JStr(id)])])])));
    RepliesReport(field, id, map[], [], map[], map[]);
    CallSucceedsExactly(phase, wire, id);
    Went(n, steps, p, s, phase, Exchange(Some(id), wire));
    more := steps + [Step(p, Exchange(Some(id), wire))];
  }

  // Nothing but children of x is new.
  ghost predicate OnlyBelow(s: Store, t: Store, x: DocId) {
    && t.blocks == s.blocks && t.txs == s.txs
    && forall y | y != x :: LogsOf(t.logs, y) == LogsOf(s.logs, y) && EntriesOf(t.entries, y) == EntriesOf(s.entries, y)
  }

  lemma LogCommitted(s: Store, p: nat, phase: Phase, id: DocId)
    requires phase.PostLog? && InRange(phase) && Sends(phase)
    ensures
      var t := Exchanged(s, p, phase, Some(id), Ok(id));
      && OnlyBelow(s, t, phase.txId) && t.entries == s.entries
      && LogsOf(t.logs, phase.txId) == LogsOf(s.logs, phase.txId) + [phase.receipt.logs[phase.k]]
  {
    hide ParsedNumber, LogsOf, EntriesOf, Note;
    var t := Exchanged(s, p, phase, Some(id), Ok(id));
    forall y ensures LogsOf(t.logs, y) == LogsOf(s.logs, y) + (if y == phase.txId then [phase.receipt.logs[phase.k]] else []) {
      LogsOfSnoc(s.logs, t.logs[|s.logs|], y);
    }
    forall y | y != phase.txId ensures LogsOf(t.logs, y) == LogsOf(s.logs, y) {
      assert LogsOf(s.logs, y) + [] == LogsOf(s.logs, y);
    }
  }

  lemma EntryCommitted(s: Store, p: nat, phase: Phase, id: DocId)
    requires phase.PostEntry? && InRange(phase) && Sends(phase)
    ensures
      var t := Exchanged(s, p, phase, Some(id), Ok(id));
      && OnlyBelow(s, t, phase.txId) && t.logs == s.logs
      && EntriesOf(t.entries, phase.txId) ==
           EntriesOf(s.entries, phase.txId) + [phase.g.transactions[phase.i].accessList[phase.j]]
  {
    hide ParsedNumber, LogsOf, EntriesOf, Note;
    var t, entry := Exchanged(s, p, phase, Some(id), Ok(id)), phase.g.transactions[phase.i].accessList[phase.j];
    forall y ensures EntriesOf(t.entries, y) == EntriesOf(s.entries, y) + (if y == phase.txId then [entry] else []) {
      EntriesOfSnoc(s.entries, t.entries[|s.entries|], y);
    }
    forall y | y != phase.txId ensures EntriesOf(t.entries, y) == EntriesOf(s.entries, y) {
      assert EntriesOf(s.entries, y) + [] == EntriesOf(s.entries, y);
    }
  }

  lemma OnlyBelowOn(s: Store, t: Store, u: Store, x: DocId)
    requires OnlyBelow(s, t, x) && OnlyBelow(t, u, x)
    ensures OnlyBelow(s, u, x)
  {
  }

  // ----------------------------------------------------------- the three loops

  // Log numbers that can be stored.
  predicate LogsStorable(logs: seq<Log>) {
    forall k | 0 <= k < |logs| :: ParsedNumber(logs[k].blockNumber).Some?
  }

  lemma {:induction false} LogsGoIn(n: nat, steps: seq<Step>, p: nat, s: Store, g: Block, blockId: DocId, i: nat, txId: DocId,
          receipt: TransactionReceipt, k: nat)
    returns (more: seq<Step>, t: Store)
    requires At(n, steps, p, s, EnterLog(g, blockId, i, txId, receipt, k)) && k <= |receipt.logs| && i < |g.transactions|
    requires LogsStorable(receipt.logs) && blockId != "" && txId != ""
    ensures steps <= more && At(n, more, p, t, EnterTx(g, blockId, i + 1))
    ensures OnlyBelow(s, t, txId) && t.entries == s.entries
    ensures LogsOf(t.logs, txId) == LogsOf(s.logs, txId) + receipt.logs[k..]
    decreases |receipt.logs| - k
  {
    hide At, OnlyBelow, LogsOf, EnterTx, Exchanged, ParsedNumber;
    if k == |receipt.logs| {
      more, t := steps, s;
      Unchanged(s, txId);
    } else {
      var phase := PostLog(g, blockId, i, txId, receipt, k);
      var next, id := GoodCall(n, steps, p, s, phase);
      var u := Exchanged(s, p, phase, Some(id), Ok(id));
      LogCommitted(s, p, phase, id);
      more, t := LogsGoIn(n, next, p, u, g, blockId, i, txId, receipt, k + 1);
      OnlyBelowOn(s, u, t, txId);
      assert receipt.logs[k..] == [receipt.logs[k]] + receipt.logs[k + 1..];
    }
  }

  lemma Unchanged(s: Store, x: DocId)
    ensures OnlyBelow(s, s, x)
  {
  }

  lemma {:induction false} EntriesGoIn(n: nat, steps: seq<Step>, p: nat, s: Store, g: Block, blockId: DocId, i: nat,
          txId: DocId, receipt: TransactionReceipt, j: nat)
    returns (more: seq<Step>, t: Store)
    requires i < |g.transactions| && j <= |g.transactions[i].accessList|
    requires At(n, steps, p, s, EnterEntry(g, blockId, i, txId, receipt, j)) && txId != ""
    ensures steps <= more && At(n, more, p, t, EnterLog(g, blockId, i, txId, receipt, 0))
    ensures OnlyBelow(s, t, txId) && t.logs == s.logs
    ensures EntriesOf(t.entries, txId) == EntriesOf(s.entries, txId) + g.transactions[i].accessList[j..]
    decreases |g.transactions[i].accessList| - j
  {
    hide At, OnlyBelow, EntriesOf, EnterLog, Exchanged, ParsedNumber;
    var list := g.transactions[i].accessList;
    if j == |list| {
      more, t := steps, s;
      Unchanged(s, txId);
    } else {
      var phase := PostEntry(g, blockId, i, txId, receipt, j);
      var next, id := GoodCall(n, steps, p, s, phase);
      var u := Exchanged(s, p, phase, Some(id), Ok(id));
      EntryCommitted(s, p, phase, id);
      more, t := EntriesGoIn(n, next, p, u, g, blockId, i, txId, receipt, j + 1);
      OnlyBelowOn(s, u, t, txId);
      assert list[j..] == [list[j]] + list[j + 1..];
    }
  }

  // A transaction is stored with its children, exactly those of its access list and its receipt, in order.
  predicate WholeTx(s: Store, tx: Transaction, receipt: TransactionReceipt, blockId: DocId, t: DocId) {
    && t in s.txs && s.txs[t].tx == tx && s.txs[t].block_id == blockId
    && LogsOf(s.logs, t) == receipt.logs && EntriesOf(s.entries, t) == tx.accessList
  }

  lemma TxCommitted(n: nat, steps: seq<Step>, p: nat, s: Store, phase: Phase, id: DocId)
    requires At(n, steps, p, s, phase) && phase.PostTx? && InRange(phase) && Sends(phase) && Fresh(s, id)
    ensures
      var t := Exchanged(s, p, phase, Some(id), Ok(id));
      && t.blocks == s.blocks && t.logs == s.logs && t.entries == s.entries
      && t.txs == s.txs[id := TxDoc(phase.g.transactions[phase.i],
                                    ParsedNumber(phase.g.transactions[phase.i].blockNumber).value, phase.blockId, p)]
      && LogsOf(t.logs, id) == [] && EntriesOf(t.entries, id) == []
  {
    hide ValidRun, Final, ParsedNumber, PlainText, LogsOf, EntriesOf, EntryIds, LogIds, Numbered, PendingTrue, PhaseTrue;
    RunKeeps(n, steps);
    Childless(s, id);
  }

  lemma ReceiptComes(n: nat, steps: seq<Step>, p: nat, s: Store, phase: Phase, r: GethReceipt) returns (more: seq<Step>)
    requires At(n, steps, p, s, phase) && phase.FetchReceipt? && InRange(phase) && RenderedReceipt(r)
    ensures steps <= more
    ensures
      var receipt := EthereumClient.ReceiptOf(r);
      At(n, more, p, Receive(s, phase.txId, receipt), EnterEntry(phase.g, phase.blockId, phase.i, phase.txId, receipt, 0))
  {
    hide ValidRun, Final, EthereumClient.ReceiptOf, RenderedReceipt, EnterEntry, Receive;
    Went(n, steps, p, s, phase, NodeReceipt(Some(r)));
    more := steps + [Step(p, NodeReceipt(Some(r)))];
  }

  // One transaction and everything below it.
  lemma TxGoesIn(n: nat, steps: seq<Step>, p: nat, s: Store, g: Block, blockId: DocId, i: nat, r: GethReceipt)
    returns (more: seq<Step>, t: Store, id: DocId)
    requires At(n, steps, p, s, PostTx(g, blockId, i)) && i < |g.transactions| && blockId != "" && RenderedReceipt(r)
    requires Sends(PostTx(g, blockId, i)) && Unique(s, PostTx(g, blockId, i))
    requires LogsStorable(EthereumClient.ReceiptOf(r).logs)
    ensures steps <= more && At(n, more, p, t, EnterTx(g, blockId, i + 1))
    ensures id !in s.txs && t.blocks == s.blocks && t.txs.Keys == s.txs.Keys + {id}
    ensures forall y | y in s.txs :: t.txs[y] == s.txs[y]
    ensures forall y | y != id :: LogsOf(t.logs, y) == LogsOf(s.logs, y) && EntriesOf(t.entries, y) == EntriesOf(s.entries, y)
    ensures WholeTx(t, g.transactions[i], EthereumClient.ReceiptOf(r), blockId, id)
  {
    hide At, LogsOf, EntriesOf, EnterTx, EnterLog, EnterEntry, Exchanged, ParsedNumber, EthereumClient.ReceiptOf,
      RenderedReceipt, Unique, LogsStorable, PlainText, EntryIds, LogIds;
    var phase, receipt := PostTx(g, blockId, i), EthereumClient.ReceiptOf(r);
    var posted, id0 := GoodCall(n, steps, p, s, phase);
    id := id0;
    TxCommitted(n, steps, p, s, phase, id);
    var u := Exchanged(s, p, phase, Some(id), Ok(id));
    var fetched := ReceiptComes(n, posted, p, u, FetchReceipt(g, blockId, i, id), r);
    var v := Receive(u, id, receipt);
    var entered, w := EntriesGoIn(n, fetched, p, v, g, blockId, i, id, receipt, 0);
    more, t := LogsGoIn(n, entered, p, w, g, blockId, i, id, receipt, 0);
    assert g.transactions[i].accessList[0..] == g.transactions[i].accessList && receipt.logs[0..] == receipt.logs;
  }

  // The first transactions of a block are in, each under its own document.
  predicate TxsIn(s: Store, txs: seq<Transaction>, receipts: seq<TransactionReceipt>, blockId: DocId, txIds: seq<DocId>) {
    && |txIds| <= |txs| == |receipts|
    && (forall i, j | 0 <= i < j < |txIds| :: txIds[i] != txIds[j])
    && forall i | 0 <= i < |txIds| :: WholeTx(s, txs[i], receipts[i], blockId, txIds[i])
  }

  // The hashes of the transactions from the i-th on are new to the store, and no two are the same.
  predicate HashesNew(s: Store, txs: seq<Transaction>, i: nat) {
    && (forall x, k | x in s.txs && i <= k < |txs| :: s.txs[x].tx.hash != txs[k].hash)
    && (forall k, m | 0 <= k < m < |txs| :: txs[k].hash != txs[m].hash)
  }

  predicate TxsStorable(g: Block) {
    forall i | 0 <= i < |g.transactions| :: ParsedNumber(g.transactions[i].blockNumber).Some?
  }

  function Converted(receipts: seq<GethReceipt>): (converted: seq<TransactionReceipt>)
    ensures |converted| == |receipts|
  {
    seq(|receipts|, i requires 0 <= i < |receipts| => EthereumClient.ReceiptOf(receipts[i]))
  }

  predicate ReceiptsStorable(receipts: seq<GethReceipt>) {
    forall i | 0 <= i < |receipts| :: RenderedReceipt(receipts[i]) && LogsStorable(EthereumClient.ReceiptOf(receipts[i]).logs)
  }

  lemma OneMoreIn(s: Store, t: Store, txs: seq<Transaction>, receipts: seq<TransactionReceipt>, blockId: DocId,
          txIds: seq<DocId>, id: DocId)
    requires TxsIn(s, txs, receipts, blockId, txIds) && |txIds| < |txs| && HashesNew(s, txs, |txIds|)
    requires id !in s.txs && t.txs.Keys == s.txs.Keys + {id} && forall y | y in s.txs :: t.txs[y] == s.txs[y]
    requires forall y | y != id :: LogsOf(t.logs, y) == LogsOf(s.logs, y) && EntriesOf(t.entries, y) == EntriesOf(s.entries, y)
    requires WholeTx(t, txs[|txIds|], receipts[|txIds|], blockId, id)
    ensures TxsIn(t, txs, receipts, blockId, txIds + [id]) && HashesNew(t, txs, |txIds| + 1)
  {
    hide LogsOf, EntriesOf;
    forall i | 0 <= i < |txIds| ensures WholeTx(t, txs[i], receipts[i], blockId, txIds[i]) && txIds[i] != id {
      assert WholeTx(s, txs[i], receipts[i], blockId, txIds[i]);
    }
  }

  lemma {:induction false} TxsGoIn(n: nat, steps: seq<Step>, p: nat, s: Store, g: Block, blockId: DocId,
          receipts: seq<GethReceipt>, txIds: seq<DocId>)
    returns (more: seq<Step>, t: Store, allIds: seq<DocId>)
    requires At(n, steps, p, s, EnterTx(g, blockId, |txIds|)) && blockId != "" && |receipts| == |g.transactions|
    requires TxsIn(s, g.transactions, Converted(receipts), blockId, txIds) && HashesNew(s, g.transactions, |txIds|)
    requires TxsStorable(g) && ReceiptsStorable(receipts)
    ensures steps <= more && At(n, more, p, t, Idle) && t.blocks == s.blocks
    ensures |allIds| == |g.transactions| && TxsIn(t, g.transactions, Converted(receipts), blockId, allIds)
    decreases |g.transactions| - |txIds|
  {
    hide At, LogsOf, EntriesOf, WholeTx, ParsedNumber, EthereumClient.ReceiptOf, RenderedReceipt, LogsStorable;
    var i := |txIds|;
    if i == |g.transactions| {
      more, t, allIds := steps, s, txIds;
    } else {
      var next, u, id := TxGoesIn(n, steps, p, s, g, blockId, i, receipts[i]);
      OneMoreIn(s, u, g.transactions, Converted(receipts), blockId, txIds, id);
      more, t, allIds := TxsGoIn(n, next, p, u, g, blockId, receipts, txIds + [id]);
    }
  }

  // --------------------------------------------------------------- whole blocks

  // The block is stored with all its transactions, and each of those with all its children.
  ghost predicate Whole(s: Store, g: Block, receipts: seq<TransactionReceipt>) {
    exists blockId, txIds ::
      && blockId in s.blocks && s.blocks[blockId].block == BuildBlock(g)
      && |txIds| == |g.transactions| && TxsIn(s, g.transactions, receipts, blockId, txIds)
  }

  // Some continuation of this run stores the block whole.
  ghost predicate CanBecomeWhole(n: nat, steps: seq<Step>, g: Block, receipts: seq<TransactionReceipt>) {
    exists more :: steps <= more && ValidRun(n, more) && Whole(Final(n, more).store, g, receipts)
  }

  // Every number the block, its transactions and its receipts carry fits an int64, and no hash occurs twice.
  predicate Storable(b: GethBlock, receipts: seq<GethReceipt>) {
    && NumberU64(b) < TWO_63 && (b.transactions != [] ==> b.number < TWO_63)
    && (forall i, k | 0 <= i < |receipts| && 0 <= k < |receipts[i].logs| :: receipts[i].logs[k].blockNumber < TWO_63)
    && (forall i, j | 0 <= i < j < |b.transactions| :: b.transactions[i].hash != b.transactions[j].hash)
  }

  lemma StorableNumbers(b: GethBlock, receipts: seq<GethReceipt>)
    requires EthereumClient.Indexable(b) && Storable(b, receipts)
    requires forall i | 0 <= i < |receipts| :: RenderedReceipt(receipts[i])
    ensures ParsedNumber(EthereumClient.BlockOf(b).number).Some? && TxsStorable(EthereumClient.BlockOf(b))
    ensures ReceiptsStorable(receipts)
  {
    hide ParsedNumber, RenderedReceipt, FormatInt;
    NumberOfDecimal(NumberU64(b));
    NumberOfDecimal(b.number);
    forall i | 0 <= i < |receipts| ensures LogsStorable(EthereumClient.ReceiptOf(receipts[i]).logs) {
      forall k | 0 <= k < |receipts[i].logs| ensures ParsedNumber(FormatInt(receipts[i].logs[k].blockNumber, 10)).Some? {
        NumberOfDecimal(receipts[i].logs[k].blockNumber);
      }
    }
  }

  // The poller starts afresh, gets this block and stores it.
  lemma BlockGoesIn(n: nat, steps: seq<Step>, p: nat, b: GethBlock) returns (more: seq<Step>, t: Store, id: DocId)
    requires ValidRun(n, steps) && p < n && RenderedBlock(b) && EthereumClient.Indexable(b)
    requires ParsedNumber(EthereumClient.BlockOf(b).number).Some?
    requires forall x | x in Final(n, steps).store.blocks :: Final(n, steps).store.blocks[x].block.hash != b.hash.hex
    ensures steps <= more && At(n, more, p, t, EnterTx(EthereumClient.BlockOf(b), id, 0)) && id != ""
    ensures id in t.blocks && t.blocks[id].block == BuildBlock(EthereumClient.BlockOf(b))
    ensures t.txs == Final(n, steps).store.txs
  {
    hide ValidRun, Final, RenderedBlock, ParsedNumber, PlainText, EntryIds, LogIds, EnterTx, BuildBlock;
    var s, g := Final(n, steps).store, EthereumClient.BlockOf(b);
    RunKeeps(n, steps);
    assert PhaseTrue(s, p, Final(n, steps).pollers[p]);
    PhaseInRange(s, p, Final(n, steps).pollers[p]);
    Went(n, steps, p, s, Final(n, steps).pollers[p], Crash);
    var idle := steps + [Step(p, Crash)];
    Went(n, idle, p, s, Idle, NodeBlock(Some(b)));
    var holding := idle + [Step(p, NodeBlock(Some(b)))];
    more, id := GoodCall(n, holding, p, s, PostBlock(g, 0));
    t := Exchanged(s, p, PostBlock(g, 0), Some(id), Ok(id));
  }

  /**
   From every reachable state, whatever the pollers are doing, any one of them can still store a block
   whole, if the block and its transactions are not in the store yet and all numbers can be stored.
   */
  lemma AlwaysCanBecomeWhole(n: nat, steps: seq<Step>, p: nat, b: GethBlock, receipts: seq<GethReceipt>)
    requires ValidRun(n, steps) && p < n && RenderedBlock(b) && EthereumClient.Indexable(b)
    requires |receipts| == |b.transactions| && forall i | 0 <= i < |receipts| :: RenderedReceipt(receipts[i])
    requires Storable(b, receipts)
    requires forall x | x in Final(n, steps).store.blocks :: Final(n, steps).store.blocks[x].block.hash != b.hash.hex
    requires forall x, i | x in Final(n, steps).store.txs && 0 <= i < |b.transactions| ::
               Final(n, steps).store.txs[x].tx.hash != b.transactions[i].hash.hex
    ensures CanBecomeWhole(n, steps, EthereumClient.BlockOf(b), Converted(receipts))
  {
    hide ValidRun, Final, Storable, RenderedBlock, RenderedReceipt, ParsedNumber, TxsStorable, ReceiptsStorable, EnterTx,
      EthereumClient.TransactionOf, WholeTx, Converted, BuildBlock;
    var g := EthereumClient.BlockOf(b);
    StorableNumbers(b, receipts);
    var posted, s, blockId := BlockGoesIn(n, steps, p, b);
    HashesAreNew(s, b, receipts);
    var more, t, txIds := TxsGoIn(n, posted, p, s, g, blockId, receipts, []);
    assert Whole(t, g, Converted(receipts));
  }

  lemma HashesAreNew(s: Store, b: GethBlock, receipts: seq<GethReceipt>)
    requires EthereumClient.Indexable(b) && Storable(b, receipts)
    requires forall x, i | x in s.txs && 0 <= i < |b.transactions| :: s.txs[x].tx.hash != b.transactions[i].hash.hex
    ensures HashesNew(s, EthereumClient.BlockOf(b).transactions, 0)
  {
    hide FormatInt, Bytes2Hex, EthereumClient.FromAddress, EthereumClient.AccessListOf, EthereumClient.GasPriceOf;
    var txs := EthereumClient.BlockOf(b).transactions;
    forall i | 0 <= i < |txs| ensures txs[i].hash == b.transactions[i].hash.hex {
    }
  }

  lemma {:induction false} LogsComeFromDocuments(logs: seq<LogDoc>, t: DocId, k: nat)
    requires k < |LogsOf(logs, t)|
    ensures exists i :: 0 <= i < |logs| && logs[i].log == LogsOf(logs, t)[k]
  {
    var last := |logs| - 1;
    if k < |LogsOf(logs[..last], t)| {
      LogsComeFromDocuments(logs[..last], t, k);
      var i :| 0 <= i < last && logs[..last][i].log == LogsOf(logs[..last], t)[k];
      assert logs[i].log == LogsOf(logs, t)[k];
    } else {
      assert logs[last].log == LogsOf(logs, t)[k];
    }
  }

  // What a stored log, transaction or block says about the numbers it was made from.
  lemma WholeIsStorable(s: Store, b: GethBlock, receipts: seq<GethReceipt>)
    requires StoreTrue(s) && Numbered(s) && EthereumClient.Indexable(b) && |receipts| == |b.transactions|
    requires Whole(s, EthereumClient.BlockOf(b), Converted(receipts))
    ensures Storable(b, receipts)
  {
    hide ParsedNumber, LogsOf, EntriesOf, AllLogsExact, AllEntriesExact, TxsLinked, EntriesLinked, LogsLinked, AcksTrue,
      BlockHashesUnique, ReceiptsLinked, FormatInt, Bytes2Hex, EthereumClient.FromAddress, EthereumClient.AccessListOf,
      EthereumClient.GasPriceOf;
    var g := EthereumClient.BlockOf(b);
    var blockId, txIds :|
      && blockId in s.blocks && s.blocks[blockId].block == BuildBlock(g)
      && |txIds| == |g.transactions| && TxsIn(s, g.transactions, Converted(receipts), blockId, txIds);
    NumberOfDecimal(NumberU64(b));
    NumberOfDecimal(b.number);
    if b.transactions != [] {
      assert WholeTx(s, g.transactions[0], Converted(receipts)[0], blockId, txIds[0]);
    }
    forall i, j | 0 <= i < j < |b.transactions| ensures b.transactions[i].hash != b.transactions[j].hash {
      assert WholeTx(s, g.transactions[i], Converted(receipts)[i], blockId, txIds[i]);
      assert WholeTx(s, g.transactions[j], Converted(receipts)[j], blockId, txIds[j]);
    }
    forall i, k | 0 <= i < |receipts| && 0 <= k < |receipts[i].logs| ensures receipts[i].logs[k].blockNumber < TWO_63 {
      assert WholeTx(s, g.transactions[i], Converted(receipts)[i], blockId, txIds[i]);
      LogsComeFromDocuments(s.logs, txIds[i], k);
      NumberOfDecimal(receipts[i].logs[k].blockNumber);
    }
  }

  /**
   The bounds are attained: a run can end with the block, all its transactions, all their access list
   entries and all logs of their receipts in the store, each once and in order, exactly if every number
   fits an int64 and no two transactions share a hash.
   */
  lemma WholeExactly(b: GethBlock, receipts: seq<GethReceipt>)
    requires RenderedBlock(b) && |b.transactions| < 0x8000_0000_0000_0000
    requires |receipts| == |b.transactions| && forall i | 0 <= i < |receipts| :: RenderedReceipt(receipts[i])
    ensures (exists n :: CanBecomeWhole(n, [], EthereumClient.BlockOf(b), Converted(receipts))) <==>
              && NumberU64(b) < TWO_63 && (b.transactions != [] ==> b.number < TWO_63)
              && (forall i, k | 0 <= i < |receipts| && 0 <= k < |receipts[i].logs| ::
                    receipts[i].logs[k].blockNumber < TWO_63)
              && (forall i, j | 0 <= i < j < |b.transactions| :: b.transactions[i].hash != b.transactions[j].hash)
  {
    hide RenderedBlock, RenderedReceipt, Whole, Converted, EthereumClient.BlockOf, NumberU64;
    if n :| CanBecomeWhole(n, [], EthereumClient.BlockOf(b), Converted(receipts)) {
      var more :| ValidRun(n, more) && Whole(Final(n, more).store, EthereumClient.BlockOf(b), Converted(receipts));
      RunKeeps(n, more);
      WholeIsStorable(Final(n, more).store, b, receipts);
    }
    if Storable(b, receipts) {
      assert ValidRun(1, []) && Final(1, []).store == Initial(1).store;
      AlwaysCanBecomeWhole(1, [], 0, b, receipts);
    }
  }
}
