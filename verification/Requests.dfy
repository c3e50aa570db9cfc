/**
 The requests the pipeline really sends: the text the converters produce is plain, so every create
 request reaches the server as exactly the columns that were put in.
 */
module Requests {
  import opened Wrappers
  import opened Strconv
  import opened Types
  import opened Geth
  import opened StringLiterals
  import opened Mutation
  import opened Envelope
  import opened BlockHandler
  import EthereumClient

  // Printable ASCII: hex text, decimal text and the empty string are of this kind.
  predicate PlainText(s: string) {
    forall i | 0 <= i < |s| :: ' ' <= s[i] <= '~'
  }

  predicate PlainStrings(ss: Strings) {
    ss.Some? ==> forall i | 0 <= i < |ss.value| :: PlainText(ss.value[i])
  }

  predicate PlainValue(v: Value) {
    match v
    case Str(text) => PlainText(text)
    case Strs(texts) => PlainStrings(texts)
    case Bool(_) => true
    case Int(_) => true
    case Other(_) => false
  }

  // Field names and values that print into a request without loss.
  predicate Sendable(data: Fields) {
    forall k | k in data :: IsName(k) && PlainValue(data[k])
  }

  lemma PlainTextSurvives(s: string, w: Writer)
    requires PlainText(s)
    ensures AllSurvive(s, w, InGraphQL)
  {
  }

  lemma PlainValuePrints(v: Value, w: Writer)
    requires PlainValue(v)
    ensures Printable(v, w)
  {
    if v.Str? {
      PlainTextSurvives(v.text, w);
    } else if v.Strs? && v.texts.Some? {
      forall i | 0 <= i < |v.texts.value| ensures AllSurvive(v.texts.value[i], Marshal, InGraphQL) {
        PlainTextSurvives(v.texts.value[i], Marshal);
      }
    }
  }

  /**
   A map of names and of printable ASCII texts, lists of those, numbers and booleans reaches the server
   unchanged, in whatever order it was printed and whatever the printability table says beyond ASCII.
   */
  lemma SendableArrives(collection: string, data: Fields, order: seq<string>, w: Writer)
    requires Sound(w) && IsName("create_" + collection) && Visits(order, data)
    requires forall k | k in data :: IsName(k) && !data[k].Other?
    requires forall k | k in data && data[k].Str? :: forall i | 0 <= i < |data[k].text| :: ' ' <= data[k].text[i] <= '~'
    requires forall k | k in data && data[k].Strs? && data[k].texts.Some? ::
               forall j | 0 <= j < |data[k].texts.value| ::
                 forall i | 0 <= i < |data[k].texts.value[j]| :: ' ' <= data[k].texts.value[j][i] <= '~'
    ensures Deliver(RequestBody(MutationText(collection, FieldTexts(order, data, w)))) == Some((collection, data))
  {
    forall k | k in data ensures IsName(k) && Printable(data[k], w) {
      PlainValuePrints(data[k], w);
    }
    DeliveryRoundTrip(collection, data, order, w);
    OnWireIsIdentity(data);
  }

  lemma ColumnsArrive(collection: string, data: Fields, order: seq<string>, w: Writer)
    requires Sound(w) && IsName(CREATE + collection) && Visits(order, data) && Sendable(data)
    ensures Deliver(RequestBody(MutationText(collection, FieldTexts(order, data, w)))) == Some((collection, data))
  {
    hide IsName, Visits;
    assert forall k | k in data :: PlainValue(data[k]);
    SendableArrives(collection, data, order, w);
  }

  // ------------------------------------------------- what the columns hold

  predicate PlainBlock(b: Block) {
    && PlainText(b.hash) && PlainText(b.timestamp) && PlainText(b.parentHash) && PlainText(b.difficulty)
    && PlainText(b.totalDifficulty) && PlainText(b.gasUsed) && PlainText(b.gasLimit) && PlainText(b.baseFeePerGas)
    && PlainText(b.miner) && PlainText(b.size) && PlainText(b.stateRoot) && PlainText(b.sha3Uncles)
    && PlainText(b.transactionsRoot) && PlainText(b.receiptsRoot) && PlainText(b.logsBloom) && PlainText(b.extraData)
    && PlainText(b.mixHash) && PlainStrings(b.uncles)
  }

  predicate PlainTransaction(tx: Transaction) {
    && PlainText(tx.hash) && PlainText(tx.blockHash) && PlainText(tx.from) && PlainText(tx.to) && PlainText(tx.value)
    && PlainText(tx.gas) && PlainText(tx.gasPrice) && PlainText(tx.maxFeePerGas) && PlainText(tx.maxPriorityFeePerGas)
    && PlainText(tx.input) && PlainText(tx.txType) && PlainText(tx.chainId) && PlainText(tx.v) && PlainText(tx.r)
    && PlainText(tx.s) && PlainText(tx.gasUsed) && PlainText(tx.cumulativeGasUsed) && PlainText(tx.effectiveGasPrice)
  }

  predicate PlainEntry(e: AccessListEntry) {
    PlainText(e.address) && PlainStrings(e.storageKeys)
  }

  predicate PlainLog(l: Log) {
    && PlainText(l.address) && PlainStrings(l.topics) && PlainText(l.data) && PlainText(l.transactionHash)
    && PlainText(l.blockHash)
  }

  lemma DecimalIsPlain(n: int)
    ensures PlainText(FormatInt(n, 10))
  {
    DigitsShape(if n < 0 then -n else n, 10);
  }

  lemma BlockNames()
    ensures IsName("hash") && IsName("number") && IsName("timestamp") && IsName("parentHash") && IsName("difficulty")
    ensures IsName("gasUsed") && IsName("gasLimit") && IsName("nonce") && IsName("miner") && IsName("size")
  {
  }

  lemma BlockRootNames()
    ensures IsName("totalDifficulty") && IsName("baseFeePerGas") && IsName("stateRoot") && IsName("sha3Uncles")
    ensures IsName("logsBloom") && IsName("extraData") && IsName("mixHash") && IsName("uncles")
  {
  }

  lemma BlockListNames()
    ensures IsName("transactionsRoot") && IsName("receiptsRoot")
  {
  }

  lemma BlockColumnsNamed(b: Block, n: int64)
    ensures forall k | k in BlockColumns(b, n) :: IsName(k)
  {
    hide IsName;
    BlockNames();
    BlockRootNames();
    BlockListNames();
  }

  lemma BlockColumnsSendable(b: Block, n: int64)
    requires PlainBlock(b)
    ensures Sendable(BlockColumns(b, n))
  {
    hide IsName, PlainText, PlainStrings;
    BlockColumnsNamed(b, n);
  }

  lemma TransactionKeyNames()
    ensures IsName("blockNumber") && IsName("blockHash") && IsName("transactionIndex")
    ensures IsName("from") && IsName("to") && IsName("block_id") && IsName("status")
  {
  }

  lemma TransactionFeeNames()
    ensures IsName("value") && IsName("gas") && IsName("gasPrice") && IsName("maxFeePerGas")
    ensures IsName("maxPriorityFeePerGas")
  {
  }

  lemma TransactionTotalNames()
    ensures IsName("cumulativeGasUsed") && IsName("effectiveGasPrice")
  {
  }

  lemma TransactionBodyNames()
    ensures IsName("input") && IsName("type") && IsName("chainId") && IsName("v") && IsName("r") && IsName("s")
  {
  }

  lemma TransactionColumnsNamed(tx: Transaction, n: int64, block_id: string)
    ensures forall k | k in TransactionColumns(tx, n, block_id) :: IsName(k)
  {
    hide IsName, FormatInt;
    BlockNames();
    TransactionKeyNames();
    TransactionFeeNames();
    TransactionTotalNames();
    TransactionBodyNames();
  }

  lemma TransactionColumnsSendable(tx: Transaction, n: int64, block_id: string)
    requires PlainTransaction(tx) && PlainText(block_id)
    ensures Sendable(TransactionColumns(tx, n, block_id))
  {
    hide IsName, PlainText, FormatInt;
    TransactionColumnsNamed(tx, n, block_id);
    DecimalIsPlain(tx.nonce);
  }

  lemma EntryColumnsSendable(e: AccessListEntry, tx_id: string)
    requires PlainEntry(e) && PlainText(tx_id)
    ensures Sendable(EntryColumns(e, tx_id))
  {
    hide PlainText, PlainStrings;
  }

  lemma LogNames()
    ensures IsName("address") && IsName("topics") && IsName("data") && IsName("logIndex") && IsName("removed")
    ensures IsName("transactionHash") && IsName("transaction_id")
  {
  }

  lemma LogColumnsNamed(l: Log, n: int64, block_id: string, tx_id: string)
    ensures forall k | k in LogColumns(l, n, block_id, tx_id) :: IsName(k)
  {
    hide IsName;
    LogNames();
    TransactionKeyNames();
  }

  lemma LogColumnsSendable(l: Log, n: int64, block_id: string, tx_id: string)
    requires PlainLog(l) && PlainText(block_id) && PlainText(tx_id)
    ensures Sendable(LogColumns(l, n, block_id, tx_id))
  {
    hide IsName, PlainText, PlainStrings;
    LogColumnsNamed(l, n, block_id, tx_id);
    BooleansArePlain();
  }

  lemma BooleansArePlain()
    ensures PlainText("true") && PlainText("false")
  {
  }

  // ----------------------------------------------- what the converters produce

  predicate RenderedAll(hashes: seq<Hash>) {
    forall i | 0 <= i < |hashes| :: IsHexText(hashes[i].hex)
  }

  // Hashes and addresses hold what their Hex methods render.
  predicate RenderedTuple(t: AccessTuple) {
    IsHexText(t.address.hex) && RenderedAll(t.storageKeys)
  }

  predicate RenderedTransaction(tx: GethTransaction) {
    && IsHexText(tx.hash.hex)
    && (tx.to.Some? ==> IsHexText(tx.to.value.hex))
    && (forall i | 0 <= i < |tx.recovered| :: tx.recovered[i].Some? ==> IsHexText(tx.recovered[i].value.hex))
    && (tx.accessList.Some? ==> forall i | 0 <= i < |tx.accessList.value| :: RenderedTuple(tx.accessList.value[i]))
  }

  predicate RenderedBlock(b: GethBlock) {
    && IsHexText(b.hash.hex) && IsHexText(b.parentHash.hex) && IsHexText(b.coinbase.hex) && IsHexText(b.root.hex)
    && IsHexText(b.uncleHash.hex) && IsHexText(b.txHash.hex) && IsHexText(b.receiptHash.hex)
    && IsHexText(b.mixDigest.hex) && RenderedAll(b.uncles)
    && forall i | 0 <= i < |b.transactions| :: RenderedTransaction(b.transactions[i])
  }

  predicate RenderedLog(l: GethLog) {
    IsHexText(l.address.hex) && RenderedAll(l.topics) && IsHexText(l.txHash.hex) && IsHexText(l.blockHash.hex)
  }

  lemma HexIsPlain(s: string)
    requires IsHexText(s)
    ensures PlainText(s)
  {
    forall i | 0 <= i < |s| ensures ' ' <= s[i] <= '~' {
      assert IsHexChar(s[i]);
    }
  }

  lemma HexAllIsPlain(hashes: seq<Hash>)
    requires RenderedAll(hashes)
    ensures PlainStrings(Some(HexAll(hashes)))
  {
    forall i | 0 <= i < |hashes| ensures PlainText(HexAll(hashes)[i]) {
      HexIsPlain(hashes[i].hex);
    }
  }

  lemma {:induction false} BytesArePlain(data: seq<byte>)
    ensures PlainText(Bytes2Hex(data))
  {
    if data != [] {
      BytesArePlain(data[1..]);
    }
  }

  lemma OptionalDecimalIsPlain(n: Option<nat>)
    ensures PlainText(if n.Some? then FormatInt(n.value, 10) else "")
  {
    if n.Some? {
      DecimalIsPlain(n.value);
    }
  }

  lemma LogIsPlain(l: GethLog)
    requires RenderedLog(l)
    ensures PlainLog(EthereumClient.LogOf(l)) && PlainText(EthereumClient.LogOf(l).blockNumber)
  {
    HexIsPlain(l.address.hex);
    HexAllIsPlain(l.topics);
    BytesArePlain(l.data);
    HexIsPlain(l.txHash.hex);
    HexIsPlain(l.blockHash.hex);
    DecimalIsPlain(l.blockNumber);
  }

  lemma {:induction false} SenderIsPlain(recovered: seq<Option<Address>>)
    requires forall i | 0 <= i < |recovered| :: recovered[i].Some? ==> IsHexText(recovered[i].value.hex)
    ensures PlainText(EthereumClient.FromAddress(recovered).hex)
  {
    if recovered != [] {
      if recovered[0].Some? {
        HexIsPlain(recovered[0].value.hex);
      } else {
        SenderIsPlain(recovered[1..]);
      }
    }
  }

  lemma TransactionIsPlain(tx: GethTransaction, b: GethBlock, index: int64)
    requires RenderedTransaction(tx) && IsHexText(b.hash.hex)
    ensures
      var t := EthereumClient.TransactionOf(tx, b, index);
      PlainTransaction(t) && PlainText(t.blockNumber) && forall j | 0 <= j < |t.accessList| :: PlainEntry(t.accessList[j])
  {
    HexIsPlain(tx.hash.hex);
    HexIsPlain(b.hash.hex);
    SenderIsPlain(tx.recovered);
    if tx.to.Some? { HexIsPlain(tx.to.value.hex); }
    BytesArePlain(tx.data);
    OptionalDecimalIsPlain(tx.chainId);
    if tx.accessList.Some? { EntriesArePlain(tx.accessList.value); }
    forall n: int ensures PlainText(FormatInt(n, 10)) {
      DecimalIsPlain(n);
    }
  }

  lemma EntriesArePlain(tuples: seq<AccessTuple>)
    requires forall i | 0 <= i < |tuples| :: RenderedTuple(tuples[i])
    ensures forall i | 0 <= i < |tuples| :: PlainEntry(EthereumClient.AccessListOf(tuples)[i])
  {
    forall i | 0 <= i < |tuples| ensures PlainEntry(EthereumClient.AccessListOf(tuples)[i]) {
      HexIsPlain(tuples[i].address.hex);
      HexAllIsPlain(tuples[i].storageKeys);
    }
  }

  lemma BlockIsPlain(b: GethBlock)
    requires RenderedBlock(b) && EthereumClient.Indexable(b)
    ensures PlainBlock(EthereumClient.BlockOf(b)) && PlainText(EthereumClient.BlockOf(b).number)
  {
    HexIsPlain(b.hash.hex);
    HexIsPlain(b.parentHash.hex);
    HexIsPlain(b.coinbase.hex);
    HexIsPlain(b.root.hex);
    HexIsPlain(b.uncleHash.hex);
    HexIsPlain(b.txHash.hex);
    HexIsPlain(b.receiptHash.hex);
    HexIsPlain(b.mixDigest.hex);
    BytesArePlain(b.bloom);
    BytesArePlain(b.extra);
    HexAllIsPlain(b.uncles);
    OptionalDecimalIsPlain(b.baseFee);
    forall n: int ensures PlainText(FormatInt(n, 10)) {
      DecimalIsPlain(n);
    }
  }
}
