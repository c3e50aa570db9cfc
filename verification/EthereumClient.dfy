/** The RPC client (pkg/rpc/ethereum_client.go): converters and the walk-back to a readable block. */
module EthereumClient {
  import opened Wrappers
  import opened Strconv
  import opened Errors
  import opened Types
  import opened Geth

  // ---------------------------------------------------------------- receipts

  function LogOf(log: GethLog): Log {
    Log(log.address.hex, Some(HexAll(log.topics)), Bytes2Hex(log.data), FormatInt(log.blockNumber, 10),
        log.txHash.hex, WrapInt64(log.txIndex), log.blockHash.hex, WrapInt64(log.index), log.removed)
  }

  function ContractAddress(receipt: GethReceipt): string {
    if receipt.contractAddress == ZERO_ADDRESS then "" else receipt.contractAddress.hex
  }

  function ReceiptStatus(receipt: GethReceipt): string {
    if receipt.status == 1 then "1" else "0"
  }

  function ReceiptOf(r: GethReceipt): TransactionReceipt {
    TransactionReceipt(
      r.txHash.hex, FormatInt(r.transactionIndex, 10), r.blockHash.hex, BigText(r.blockNumber), "", "",
      FormatInt(r.cumulativeGasUsed, 10), FormatInt(r.gasUsed, 10), ContractAddress(r),
      seq(|r.logs|, i requires 0 <= i < |r.logs| => LogOf(r.logs[i])), ReceiptStatus(r))
  }

  method ConvertGethLog(log: GethLog) returns (converted: Log)
    ensures converted == LogOf(log)
  {
    var topics := HexTexts(log.topics);
    return Log(log.address.hex, Some(topics), Bytes2Hex(log.data), FormatInt(log.blockNumber, 10),
               log.txHash.hex, WrapInt64(log.txIndex), log.blockHash.hex, WrapInt64(log.index), log.removed);
  }

  method ConvertGethReceipt(receipt: Option<GethReceipt>) returns (converted: Option<TransactionReceipt>)
    ensures converted == if receipt.Some? then Some(ReceiptOf(receipt.value)) else None
  {
    if receipt.None? {
      return None;
    }
    var r := receipt.value;
    var logs: seq<Log> := [];
    for i := 0 to |r.logs|
      invariant |logs| == i
      invariant forall j | 0 <= j < i :: logs[j] == LogOf(r.logs[j])
    {
      var log := ConvertGethLog(r.logs[i]);
      logs := logs + [log];
    }
    assert logs == ReceiptOf(r).logs;
    return Some(TransactionReceipt(
      r.txHash.hex, FormatInt(r.transactionIndex, 10), r.blockHash.hex, BigText(r.blockNumber), "", "",
      FormatInt(r.cumulativeGasUsed, 10), FormatInt(r.gasUsed, 10), ContractAddress(r), logs, ReceiptStatus(r)));
  }

  lemma ZeroAddressText()
    ensures ZERO_ADDRESS.hex == "0x" + seq(40, i => '0')
  {
  }

  // ------------------------------------------------------------ transactions

  // The first signer that recovers a sender, or the zero address.
  function FromAddress(recovered: seq<Option<Address>>): Address {
    if recovered == [] then ZERO_ADDRESS
    else if recovered[0].Some? then recovered[0].value
    else FromAddress(recovered[1..])
  }

  // The signer loop of getFromAddress.
  method GetFromAddress(recovered: seq<Option<Address>>) returns (sender: Address)
    ensures sender == FromAddress(recovered)
  {
    for i := 0 to |recovered|
      invariant FromAddress(recovered) == FromAddress(recovered[i..])
    {
      if recovered[i].Some? {
        return recovered[i].value;
      }
    }
    return ZERO_ADDRESS;
  }

  function AccessListOf(tuples: seq<AccessTuple>): seq<AccessListEntry> {
    seq(|tuples|, i requires 0 <= i < |tuples| => AccessListEntry(tuples[i].address.hex, Some(HexAll(tuples[i].storageKeys))))
  }

  function GasPriceOf(tx: GethTransaction): nat {
    if tx.txType == LEGACY_TX || tx.txType == ACCESS_LIST_TX then tx.gasPrice
    else if tx.txType == DYNAMIC_FEE_TX then tx.gasFeeCap
    else tx.gasPrice
  }

  function TransactionOf(tx: GethTransaction, b: GethBlock, index: int64): Transaction {
    Transaction(
      tx.hash.hex, b.hash.hex, FormatInt(b.number, 10), FromAddress(tx.recovered).hex,
      if tx.to.Some? then tx.to.value.hex else "", FormatInt(tx.value, 10), FormatInt(tx.gas, 10),
      FormatInt(GasPriceOf(tx), 10),
      if tx.txType == DYNAMIC_FEE_TX then FormatInt(tx.gasFeeCap, 10) else "",
      if tx.txType == DYNAMIC_FEE_TX then FormatInt(tx.gasTipCap, 10) else "",
      Bytes2Hex(tx.data), WrapInt64(tx.nonce), index, FormatInt(tx.txType, 10),
      if tx.chainId.Some? then FormatInt(tx.chainId.value, 10) else "",
      if tx.accessList.Some? then AccessListOf(tx.accessList.value) else [],
      FormatInt(tx.v, 10), FormatInt(tx.r, 10), FormatInt(tx.s, 10), true, "", "", "")
  }

  method ConvertTransaction(tx: GethTransaction, b: GethBlock, index: int64) returns (converted: Transaction)
    ensures converted == TransactionOf(tx, b, index)
  {
    hide FormatInt, Bytes2Hex, FromAddress;
    var fromAddr := GetFromAddress(tx.recovered);
    var toAddr := if tx.to.Some? then tx.to.value.hex else "";
    var gasPrice: nat;
    if tx.txType == LEGACY_TX || tx.txType == ACCESS_LIST_TX {
      gasPrice := tx.gasPrice;
    } else if tx.txType == DYNAMIC_FEE_TX {
      gasPrice := tx.gasFeeCap;
    } else {
      gasPrice := tx.gasPrice;
    }
    var maxFeePerGas, maxPriorityFeePerGas := "", "";
    if tx.txType == DYNAMIC_FEE_TX {
      maxFeePerGas, maxPriorityFeePerGas := FormatInt(tx.gasFeeCap, 10), FormatInt(tx.gasTipCap, 10);
    }
    var chainId := "";
    if tx.chainId.Some? {
      chainId := FormatInt(tx.chainId.value, 10);
    }
    var accessList: seq<AccessListEntry> := [];
    if tx.accessList.Some? {
      var tuples := tx.accessList.value;
      for i := 0 to |tuples|
        invariant accessList == AccessListOf(tuples)[..i]
      {
        var storageKeys := HexTexts(tuples[i].storageKeys);
        accessList := accessList + [AccessListEntry(tuples[i].address.hex, Some(storageKeys))];
      }
    }
    return Transaction(
      hash := tx.hash.hex, blockHash := b.hash.hex, blockNumber := FormatInt(b.number, 10),
      from := fromAddr.hex, to := toAddr, value := FormatInt(tx.value, 10), gas := FormatInt(tx.gas, 10),
      gasPrice := FormatInt(gasPrice, 10), maxFeePerGas := maxFeePerGas, maxPriorityFeePerGas := maxPriorityFeePerGas,
      input := Bytes2Hex(tx.data), nonce := WrapInt64(tx.nonce), transactionIndex := index,
      txType := FormatInt(tx.txType, 10), chainId := chainId, accessList := accessList,
      v := FormatInt(tx.v, 10), r := FormatInt(tx.r, 10), s := FormatInt(tx.s, 10), status := true,
      gasUsed := "", cumulativeGasUsed := "", effectiveGasPrice := "");
  }

  // ------------------------------------------------------------------ blocks

  // Positions in a block's transaction list are Go ints.
  predicate Indexable(b: GethBlock) {
    |b.transactions| < TWO_63
  }

  function TransactionsOf(b: GethBlock): seq<Transaction>
    requires Indexable(b)
  {
    seq(|b.transactions|, i requires 0 <= i < |b.transactions| => TransactionOf(b.transactions[i], b, i))
  }

  function BlockOf(b: GethBlock): Block
    requires Indexable(b)
  {
    Block(
      b.hash.hex, FormatInt(NumberU64(b), 10), FormatInt(b.time, 10), b.parentHash.hex, FormatInt(b.difficulty, 10),
      "", FormatInt(b.gasUsed, 10), FormatInt(b.gasLimit, 10), if b.baseFee.Some? then FormatInt(b.baseFee.value, 10) else "",
      WrapInt64(b.nonce), b.coinbase.hex, FormatInt(b.size, 10), b.root.hex, b.uncleHash.hex, b.txHash.hex,
      b.receiptHash.hex, Bytes2Hex(b.bloom), Bytes2Hex(b.extra), b.mixDigest.hex, Some(HexAll(b.uncles)), TransactionsOf(b))
  }

  method ConvertGethBlock(block: Option<GethBlock>) returns (converted: Option<Block>)
    requires block.Some? ==> Indexable(block.value)
    ensures converted == if block.Some? then Some(BlockOf(block.value)) else None
  {
    hide FormatInt, Bytes2Hex, TransactionOf;
    if block.None? {
      return None;
    }
    var b := block.value;
    var transactions: seq<Transaction> := [];
    for i := 0 to |b.transactions|
      invariant |transactions| == i
      invariant forall j | 0 <= j < i :: transactions[j] == TransactionOf(b.transactions[j], b, j)
    {
      var tx := ConvertTransaction(b.transactions[i], b, i);
      transactions := transactions + [tx];
    }
    assert transactions == TransactionsOf(b);
    var uncles := HexTexts(b.uncles);
    var baseFeePerGas := "";
    if b.baseFee.Some? {
      baseFeePerGas := FormatInt(b.baseFee.value, 10);
    }
    return Some(Block(
      hash := b.hash.hex, number := FormatInt(NumberU64(b), 10), timestamp := FormatInt(b.time, 10),
      parentHash := b.parentHash.hex, difficulty := FormatInt(b.difficulty, 10), totalDifficulty := "",
      gasUsed := FormatInt(b.gasUsed, 10), gasLimit := FormatInt(b.gasLimit, 10), baseFeePerGas := baseFeePerGas,
      nonce := WrapInt64(b.nonce), miner := b.coinbase.hex, size := FormatInt(b.size, 10), stateRoot := b.root.hex,
      sha3Uncles := b.uncleHash.hex, transactionsRoot := b.txHash.hex, receiptsRoot := b.receiptHash.hex,
      logsBloom := Bytes2Hex(b.bloom), extraData := Bytes2Hex(b.extra), mixHash := b.mixDigest.hex,
      uncles := Some(uncles), transactions := transactions));
  }

  /**
   Structure is preserved: no transaction is dropped or reordered, each carries its own position,
   the block's hash and the block's full number, and the nested access list comes through entry by
   entry and key by key. The block's own number column is only the low 64 bits of that number, so
   the two agree as text exactly when the number fits 64 bits.
   */
  lemma ConversionKeepsStructure(b: GethBlock, i: nat)
    requires Indexable(b) && i < |b.transactions|
    ensures |BlockOf(b).transactions| == |b.transactions|
    ensures var tx := BlockOf(b).transactions[i];
            var source := b.transactions[i];
            && tx.hash == source.hash.hex && tx.transactionIndex == i && tx.blockHash == BlockOf(b).hash
            && (tx.blockNumber == BlockOf(b).number <==> b.number < TWO_64)
            && |tx.accessList| == (if source.accessList.Some? then |source.accessList.value| else 0)
            && forall j | 0 <= j < |tx.accessList| ::
                 var tuple := source.accessList.value[j];
                 && tx.accessList[j].address == tuple.address.hex
                 && tx.accessList[j].storageKeys.Some?
                 && |tx.accessList[j].storageKeys.value| == |tuple.storageKeys|
                 && forall k | 0 <= k < |tuple.storageKeys| :: tx.accessList[j].storageKeys.value[k] == tuple.storageKeys[k].hex
  {
    FormatIntInjective(b.number, NumberU64(b));
  }

  // Receipts keep their logs, whole and in order, and logs their topics.
  lemma ReceiptKeepsLogs(r: GethReceipt, i: nat)
    requires i < |r.logs|
    ensures |ReceiptOf(r).logs| == |r.logs|
    ensures var log := ReceiptOf(r).logs[i];
            && log.transactionHash == r.logs[i].txHash.hex && log.blockHash == r.logs[i].blockHash.hex
            && log.address == r.logs[i].address.hex && log.data == Bytes2Hex(r.logs[i].data)
            && log.blockNumber == FormatInt(r.logs[i].blockNumber, 10) && log.removed == r.logs[i].removed
            && (log.transactionIndex - r.logs[i].txIndex) % TWO_64 == 0 && (log.logIndex - r.logs[i].index) % TWO_64 == 0
            && log.topics.Some? && |log.topics.value| == |r.logs[i].topics|
            && forall k | 0 <= k < |r.logs[i].topics| :: log.topics.value[k] == r.logs[i].topics[k].hex
  {
  }

  // The sender is what the first succeeding signer recovers, or the zero address if all of them fail.
  lemma {:induction false} FromAddressIsFirstRecovered(recovered: seq<Option<Address>>, k: nat)
    requires k <= |recovered| && forall i | 0 <= i < k :: recovered[i].None?
    requires k < |recovered| ==> recovered[k].Some?
    ensures FromAddress(recovered).hex == if k < |recovered| then recovered[k].value.hex else "0x" + seq(40, i => '0')
  {
    ZeroAddressText();
    if k > 0 {
      FromAddressIsFirstRecovered(recovered[1..], k - 1);
    }
  }

  // ---------------------------------------------------------------- the node

  // What the node library returns; of its errors only the text is kept, since none is an IndexerError.
  type BlockAnswer = Result<GethBlock, string>

  /**
   The node behind the client. It answers its k-th request of each sort with an arbitrary value;
   requests records the block numbers asked for.
   */
  class Node {
    const connected: bool
    const headAnswers: nat -> Result<int, string>
    const blockAnswers: nat -> BlockAnswer
    const receiptAnswers: nat -> Result<GethReceipt, string>
    var heads: nat
    var requests: seq<int>
    var receipts: seq<string>

    constructor (connected: bool, headAnswers: nat -> Result<int, string>, blockAnswers: nat -> BlockAnswer,
                 receiptAnswers: nat -> Result<GethReceipt, string>)
      ensures heads == 0 && requests == [] && receipts == []
      ensures this.connected == connected && this.headAnswers == headAnswers
      ensures this.blockAnswers == blockAnswers && this.receiptAnswers == receiptAnswers
    {
      this.connected, this.headAnswers, this.blockAnswers, this.receiptAnswers :=
        connected, headAnswers, blockAnswers, receiptAnswers;
      heads, requests, receipts := 0, [], [];
    }

    method HeaderByNumber() returns (r: Result<int, string>)
      modifies this`heads
      ensures heads == old(heads) + 1 && r == headAnswers(old(heads))
    {
      r := headAnswers(heads);
      heads := heads + 1;
    }

    method BlockByNumber(number: int) returns (r: BlockAnswer)
      modifies this`requests
      ensures requests == old(requests) + [number] && r == blockAnswers(|old(requests)|)
    {
      r := blockAnswers(|requests|);
      requests := requests + [number];
    }

    method TransactionReceipt(hash: string) returns (r: Result<GethReceipt, string>)
      modifies this`receipts
      ensures receipts == old(receipts) + [hash] && r == receiptAnswers(|old(receipts)|)
    {
      r := receiptAnswers(|receipts|);
      receipts := receipts + [hash];
    }
  }

  const NO_CLIENT := Plain("no HTTP client available")
  const NO_HEADER := "failed to get latest header: "
  const NO_BLOCK := "failed to get latest block: "
  const NO_RECEIPT := "failed to get transaction receipt: "

  const TRANSACTION_TYPE_ERRORS: set<string> := {"transaction type not supported", "invalid transaction type"}

  predicate IsTransactionTypeError(text: string) {
    text in TRANSACTION_TYPE_ERRORS
  }

  // Whether the k-th answer is a failure that the loop steps back from.
  function StepsBack(answers: nat -> BlockAnswer): nat -> bool {
    (k: nat) => answers(k).Err? && IsTransactionTypeError(answers(k).error)
  }

  // The answer the walk-back loop stops at, when its next request is number at and it has retried retries times.
  function StopsAt(stepsBack: nat -> bool, at: nat, retries: nat): (k: nat)
    requires retries <= 2
    ensures at <= k <= at + 2 - retries
    decreases 2 - retries
  {
    if retries < 2 && stepsBack(at) then StopsAt(stepsBack, at + 1, retries + 1) else at
  }

  // From answer start on, the loop goes on past these errors only, and past them up to twice.
  ghost predicate WalksBack(answers: nat -> BlockAnswer, start: nat, stop: nat) {
    && (forall k: nat | start <= k < stop ::
          && answers(k).Err?
          && (answers(k).error == "transaction type not supported" || answers(k).error == "invalid transaction type"))
    && (stop < start + 2 ==>
          || answers(stop).Ok?
          || (answers(stop).error != "transaction type not supported" && answers(stop).error != "invalid transaction type"))
  }

  function Countdown(head: int, n: nat): seq<int> {
    seq(n, i => head - i)
  }

  lemma CountdownSnoc(before: seq<int>, head: int, n: nat)
    ensures before + Countdown(head, n) + [head - n] == before + Countdown(head, n + 1)
  {
  }

  // The retry loop inside GetLatestBlock; answer is the one it leaves the loop with.
  method WalkBack(node: Node, head: int) returns (answer: BlockAnswer)
    modifies node`requests
    ensures var start := |old(node.requests)|;
            var stop := StopsAt(StepsBack(node.blockAnswers), start, 0);
            && node.requests == old(node.requests) + Countdown(head, stop - start + 1)
            && answer == node.blockAnswers(stop) && stop - start <= 2 && WalksBack(node.blockAnswers, start, stop)
  {
    var number := head;
    ghost var start, stepsBack := |node.requests|, StepsBack(node.blockAnswers);
    var retries := 0;
    WalkBackBound(node.blockAnswers, start, head);
    while retries < 3
      invariant 0 <= retries <= 2
      invariant number == head - retries
      invariant node.requests == old(node.requests) + Countdown(head, retries)
      invariant StopsAt(stepsBack, start, 0) == StopsAt(stepsBack, start + retries, retries)
    {
      answer := node.BlockByNumber(number);
      CountdownSnoc(old(node.requests), head, retries);
      if answer.Err? {
        if retries < 2 && IsTransactionTypeError(answer.error) {
          number := number - 1;
          retries := retries + 1;
          continue;
        }
        return;
      }
      return;
    }
  }

  // The block GetLatestBlock gets from this node, whose next answers have these numbers; None on an error.
  function LatestAnswer(node: Node, head: nat, block: nat): Option<GethBlock> {
    if !node.connected || node.headAnswers(head).Err? then None
    else
      match node.blockAnswers(StopsAt(StepsBack(node.blockAnswers), block, 0))
      case Ok(b) => Some(b)
      case Err(_) => None
  }

  // The block numbers it asks for on the way.
  function LatestRequests(node: Node, head: nat, block: nat): seq<int> {
    if !node.connected || node.headAnswers(head).Err? then []
    else Countdown(node.headAnswers(head).value, StopsAt(StepsBack(node.blockAnswers), block, 0) - block + 1)
  }

  // The receipt the node's k-th answer holds; None on an error, or without a connection.
  function ReceiptAnswer(node: Node, k: nat): Option<GethReceipt> {
    if node.connected && node.receiptAnswers(k).Ok? then Some(node.receiptAnswers(k).value) else None
  }

  /**
   GetLatestBlock. It asks for head, head - 1, head - 2 in that order, going on only past a
   transaction-type error, and returns the conversion of the block it stopped at, or the wrapped
   error of that request.
   */
  method GetLatestBlock(node: Node) returns (r: Result<Block, Err>, source: Option<GethBlock>)
    requires forall k | |node.requests| <= k :: node.blockAnswers(k).Ok? ==> Indexable(node.blockAnswers(k).value)
    modifies node`heads, node`requests
    ensures !node.connected ==> r == Err(Plain("no HTTP client available")) && node.requests == old(node.requests)
    ensures node.connected ==>
      match node.headAnswers(old(node.heads))
      case Err(e) =>
        r == Err(Wrapped("failed to get latest header: ", Plain(e))) && node.requests == old(node.requests)
      case Ok(head) =>
        var start, stop := |old(node.requests)|, |node.requests| - 1;
        && start <= stop <= start + 2 && WalksBack(node.blockAnswers, start, stop)
        && node.requests == old(node.requests) + seq(stop - start + 1, i => head - i)
        && match node.blockAnswers(stop)
           case Ok(b) => r.Ok? && source == Some(b)
           case Err(e) => r == Err(Wrapped("failed to get latest block: ", Plain(e)))
    ensures r.Ok? ==> source.Some? && Indexable(source.value) && r.value == BlockOf(source.value)
    ensures source == LatestAnswer(node, old(node.heads), |old(node.requests)|) && (r.Ok? <==> source.Some?)
    ensures node.requests == old(node.requests) + LatestRequests(node, old(node.heads), |old(node.requests)|)
    ensures node.heads == old(node.heads) + if node.connected then 1 else 0
  {
    if !node.connected {
      return Err(NO_CLIENT), None;
    }
    var header := node.HeaderByNumber();
    if header.Err? {
      return Err(Wrapped(NO_HEADER, Plain(header.error))), None;
    }
    var answer := WalkBack(node, header.value);
    if answer.Err? {
      return Err(Wrapped(NO_BLOCK, Plain(answer.error))), None;
    }
    var block := ConvertGethBlock(Some(answer.value));
    return Ok(block.value), Some(answer.value);
  }

  predicate NoneNegative(numbers: seq<int>) {
    forall i | 0 <= i < |numbers| :: numbers[i] >= 0
  }

  /**
   Walk-back: for every sequence of answers at most three requests are made, all but the last were
   answered by one of the two transaction-type errors, the last was not unless it is the third, and
   with a head of at least 2 no number asked for is negative.
   */
  lemma {:induction false} WalkBackBound(answers: nat -> BlockAnswer, start: nat, head: int)
    ensures var stop := StopsAt(StepsBack(answers), start, 0);
            && stop - start <= 2 && WalksBack(answers, start, stop)
            && (head >= 2 ==> NoneNegative(Countdown(head, stop - start + 1)))
  {
    StopsAtExplained(StepsBack(answers), start, 0);
    var stop := StopsAt(StepsBack(answers), start, 0);
    forall k: nat | start <= k < stop ensures StepsBack(answers)(k) {
    }
    assert WalksBack(answers, start, stop);
  }

  lemma {:induction false} StopsAtExplained(stepsBack: nat -> bool, at: nat, retries: nat)
    requires retries <= 2
    ensures var stop := StopsAt(stepsBack, at, retries);
            && (forall k: nat | at <= k < stop :: stepsBack(k))
            && (stepsBack(stop) ==> stop == at + 2 - retries)
    decreases 2 - retries
  {
    if retries < 2 && stepsBack(at) {
      StopsAtExplained(stepsBack, at + 1, retries + 1);
    }
  }

  // GetTransactionReceipt.
  method GetTransactionReceipt(node: Node, txHash: string)
    returns (r: Result<TransactionReceipt, Err>, source: Option<GethReceipt>)
    modifies node`receipts
    ensures !node.connected ==>
              r == Err(Plain("no HTTP client available")) && source == None && node.receipts == old(node.receipts)
    ensures node.connected ==>
      && node.receipts == old(node.receipts) + [txHash]
      && match node.receiptAnswers(|old(node.receipts)|)
         case Err(e) => r == Err(Wrapped("failed to get transaction receipt: ", Plain(e))) && source == None
         case Ok(receipt) => r == Ok(ReceiptOf(receipt)) && source == Some(receipt)
  {
    if !node.connected {
      return Err(NO_CLIENT), None;
    }
    var answer := node.TransactionReceipt(txHash);
    if answer.Err? {
      return Err(Wrapped(NO_RECEIPT, Plain(answer.error))), None;
    }
    var receipt := ConvertGethReceipt(Some(answer.value));
    return Ok(receipt.value), Some(answer.value);
  }
}
