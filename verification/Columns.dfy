/**
 The columns hold the whole record: reading a document's columns back by name rebuilds the record they
 were made from, field by field, so no column is dropped, mixed up or overwritten by another.
 */
module Columns {
  import opened Wrappers
  import opened Strconv
  import opened Types
  import opened Mutation
  import opened BlockHandler

  // ---------------------------------------------------------- reading a column

  function TextAt(c: Fields, k: string): string {
    if k in c && c[k].Str? then c[k].text else ""
  }

  function NumberAt(c: Fields, k: string): int64 {
    if k in c && c[k].Int? then c[k].number else 0
  }

  predicate FlagAt(c: Fields, k: string) {
    k in c && c[k].Bool? && c[k].flag
  }

  function ListAt(c: Fields, k: string): Strings {
    if k in c && c[k].Strs? then c[k].texts else None
  }

  // Decimal text back to a Go int; it has one, since it was printed from one.
  function ReadInt(text: string): int64 {
    match ParseInt(text, false)
    case Ok(n) => n
    case Err(_) => 0
  }

  // ----------------------------------------------------------- records from columns

  function BlockFrom(c: Fields): Block {
    Block(
      TextAt(c, "hash"), FormatInt(NumberAt(c, "number"), 10), TextAt(c, "timestamp"), TextAt(c, "parentHash"),
      TextAt(c, "difficulty"), TextAt(c, "totalDifficulty"), TextAt(c, "gasUsed"), TextAt(c, "gasLimit"),
      TextAt(c, "baseFeePerGas"), NumberAt(c, "nonce"), TextAt(c, "miner"), TextAt(c, "size"), TextAt(c, "stateRoot"),
      TextAt(c, "sha3Uncles"), TextAt(c, "transactionsRoot"), TextAt(c, "receiptsRoot"), TextAt(c, "logsBloom"),
      TextAt(c, "extraData"), TextAt(c, "mixHash"), ListAt(c, "uncles"), [])
  }

  function TransactionFrom(c: Fields): Transaction {
    Transaction(
      TextAt(c, "hash"), TextAt(c, "blockHash"), FormatInt(NumberAt(c, "blockNumber"), 10), TextAt(c, "from"),
      TextAt(c, "to"), TextAt(c, "value"), TextAt(c, "gas"), TextAt(c, "gasPrice"), TextAt(c, "maxFeePerGas"),
      TextAt(c, "maxPriorityFeePerGas"), TextAt(c, "input"), ReadInt(TextAt(c, "nonce")), NumberAt(c, "transactionIndex"),
      TextAt(c, "type"), TextAt(c, "chainId"), [], TextAt(c, "v"), TextAt(c, "r"), TextAt(c, "s"), FlagAt(c, "status"),
      TextAt(c, "gasUsed"), TextAt(c, "cumulativeGasUsed"), TextAt(c, "effectiveGasPrice"))
  }

  function EntryFrom(c: Fields): AccessListEntry {
    AccessListEntry(TextAt(c, "address"), ListAt(c, "storageKeys"))
  }

  function LogFrom(c: Fields): Log {
    Log(
      TextAt(c, "address"), ListAt(c, "topics"), TextAt(c, "data"), FormatInt(NumberAt(c, "blockNumber"), 10),
      TextAt(c, "transactionHash"), NumberAt(c, "transactionIndex"), TextAt(c, "blockHash"), NumberAt(c, "logIndex"),
      TextAt(c, "removed") == "true")
  }

  // ------------------------------------------------------------------- blocks

  lemma BlockHeaderHolds(b: Block, n: int64)
    ensures var c := BlockColumns(b, n);
            && TextAt(c, "hash") == b.hash && NumberAt(c, "number") == n && TextAt(c, "timestamp") == b.timestamp
            && TextAt(c, "parentHash") == b.parentHash
  {
  }

  lemma BlockTotalsHold(b: Block, n: int64)
    ensures var c := BlockColumns(b, n);
            && TextAt(c, "difficulty") == b.difficulty && TextAt(c, "totalDifficulty") == b.totalDifficulty
            && TextAt(c, "gasUsed") == b.gasUsed
  {
  }

  lemma BlockRootsHold(b: Block, n: int64)
    ensures var c := BlockColumns(b, n);
            && TextAt(c, "gasLimit") == b.gasLimit && TextAt(c, "baseFeePerGas") == b.baseFeePerGas
            && NumberAt(c, "nonce") == b.nonce
            && TextAt(c, "miner") == b.miner && TextAt(c, "size") == b.size && TextAt(c, "stateRoot") == b.stateRoot
            && TextAt(c, "sha3Uncles") == b.sha3Uncles && TextAt(c, "transactionsRoot") == b.transactionsRoot
            && TextAt(c, "receiptsRoot") == b.receiptsRoot && TextAt(c, "logsBloom") == b.logsBloom
            && TextAt(c, "extraData") == b.extraData && TextAt(c, "mixHash") == b.mixHash
            && ListAt(c, "uncles") == b.uncles
  {
  }

  const BLOCK_COLUMNS := {
    "hash", "number", "timestamp", "parentHash", "difficulty", "totalDifficulty", "gasUsed", "gasLimit", "baseFeePerGas",
    "nonce", "miner", "size", "stateRoot", "sha3Uncles", "transactionsRoot", "receiptsRoot", "logsBloom", "extraData",
    "mixHash", "uncles"}

  lemma BlockColumnKeys(b: Block, n: int64)
    ensures BlockColumns(b, n).Keys == BLOCK_COLUMNS
  {
  }

  // The stored block is the block it was made from, with the parsed number, and without its transactions.
  lemma BlockColumnsHoldBlock(b: Block, n: int64)
    ensures BlockFrom(BlockColumns(b, n)) == b.(number := FormatInt(n, 10), transactions := [])
    ensures BlockColumns(b, n).Keys == BLOCK_COLUMNS
  {
    hide BlockColumns, TextAt, NumberAt, ListAt, FormatInt;
    BlockColumnKeys(b, n);
    BlockHeaderHolds(b, n);
    BlockTotalsHold(b, n);
    BlockRootsHold(b, n);
  }

  // ------------------------------------------------------------- transactions

  lemma TransactionKeysHold(tx: Transaction, n: int64, block_id: string)
    ensures var c := TransactionColumns(tx, n, block_id);
            && TextAt(c, "hash") == tx.hash && NumberAt(c, "blockNumber") == n && TextAt(c, "blockHash") == tx.blockHash
            && NumberAt(c, "transactionIndex") == tx.transactionIndex && TextAt(c, "from") == tx.from
            && TextAt(c, "to") == tx.to
  {
    hide FormatInt;
  }

  lemma TransactionFeesHold(tx: Transaction, n: int64, block_id: string)
    ensures var c := TransactionColumns(tx, n, block_id);
            && TextAt(c, "value") == tx.value && TextAt(c, "gas") == tx.gas && TextAt(c, "gasPrice") == tx.gasPrice
            && TextAt(c, "maxFeePerGas") == tx.maxFeePerGas
            && TextAt(c, "maxPriorityFeePerGas") == tx.maxPriorityFeePerGas && TextAt(c, "gasUsed") == tx.gasUsed
            && TextAt(c, "cumulativeGasUsed") == tx.cumulativeGasUsed
            && TextAt(c, "effectiveGasPrice") == tx.effectiveGasPrice
  {
    hide FormatInt;
  }

  lemma TransactionBodyHolds(tx: Transaction, n: int64, block_id: string)
    ensures var c := TransactionColumns(tx, n, block_id);
            && TextAt(c, "input") == tx.input && TextAt(c, "type") == tx.txType && TextAt(c, "chainId") == tx.chainId
            && TextAt(c, "nonce") == FormatInt(tx.nonce, 10) && TextAt(c, "block_id") == block_id
            && TextAt(c, "v") == tx.v && TextAt(c, "r") == tx.r && TextAt(c, "s") == tx.s
            && FlagAt(c, "status") == tx.status
  {
    hide FormatInt;
  }

  const TRANSACTION_COLUMNS := {
    "hash", "blockNumber", "blockHash", "transactionIndex", "from", "to", "value", "gas", "gasPrice", "maxFeePerGas",
    "maxPriorityFeePerGas", "input", "nonce", "type", "chainId", "v", "r", "s", "gasUsed", "cumulativeGasUsed",
    "effectiveGasPrice", "status", "block_id"}

  lemma TransactionColumnKeys(tx: Transaction, n: int64, block_id: string)
    ensures TransactionColumns(tx, n, block_id).Keys == TRANSACTION_COLUMNS
  {
    hide FormatInt;
  }

  // The stored transaction is the one it was made from, with the parsed number, and without its access list.
  lemma TransactionColumnsHoldTransaction(tx: Transaction, n: int64, block_id: string)
    ensures TransactionFrom(TransactionColumns(tx, n, block_id)) == tx.(blockNumber := FormatInt(n, 10), accessList := [])
    ensures TextAt(TransactionColumns(tx, n, block_id), "block_id") == block_id
    ensures TransactionColumns(tx, n, block_id).Keys == TRANSACTION_COLUMNS
  {
    hide TransactionColumns, TextAt, NumberAt, FlagAt, FormatInt, ParseInt;
    TransactionColumnKeys(tx, n, block_id);
    TransactionKeysHold(tx, n, block_id);
    TransactionFeesHold(tx, n, block_id);
    TransactionBodyHolds(tx, n, block_id);
    ParseIntInvertsDecimal(tx.nonce, false);
  }

  // ----------------------------------------------------------------- children

  const ENTRY_COLUMNS := {"address", "storageKeys", "transaction_id"}

  lemma EntryColumnsHoldEntry(e: AccessListEntry, tx_id: string)
    ensures EntryFrom(EntryColumns(e, tx_id)) == e
    ensures TextAt(EntryColumns(e, tx_id), "transaction_id") == tx_id
    ensures EntryColumns(e, tx_id).Keys == ENTRY_COLUMNS
  {
  }

  lemma LogRecordHolds(l: Log, n: int64, block_id: string, tx_id: string)
    ensures var c := LogColumns(l, n, block_id, tx_id);
            && TextAt(c, "address") == l.address && ListAt(c, "topics") == l.topics && TextAt(c, "data") == l.data
            && NumberAt(c, "blockNumber") == n && TextAt(c, "transactionHash") == l.transactionHash
  {
  }

  lemma LogPlaceHolds(l: Log, n: int64, block_id: string, tx_id: string)
    ensures var c := LogColumns(l, n, block_id, tx_id);
            && NumberAt(c, "transactionIndex") == l.transactionIndex && TextAt(c, "blockHash") == l.blockHash
            && NumberAt(c, "logIndex") == l.logIndex && TextAt(c, "removed") == (if l.removed then "true" else "false")
            && TextAt(c, "transaction_id") == tx_id && TextAt(c, "block_id") == block_id
  {
  }

  const LOG_COLUMNS := {
    "address", "topics", "data", "blockNumber", "transactionHash", "transactionIndex", "blockHash", "logIndex", "removed",
    "transaction_id", "block_id"}

  lemma LogColumnKeys(l: Log, n: int64, block_id: string, tx_id: string)
    ensures LogColumns(l, n, block_id, tx_id).Keys == LOG_COLUMNS
  {
  }

  // The stored log is the one it was made from, with the parsed number, and links to the two documents given.
  lemma LogColumnsHoldLog(l: Log, n: int64, block_id: string, tx_id: string)
    ensures LogFrom(LogColumns(l, n, block_id, tx_id)) == l.(blockNumber := FormatInt(n, 10))
    ensures TextAt(LogColumns(l, n, block_id, tx_id), "transaction_id") == tx_id
    ensures TextAt(LogColumns(l, n, block_id, tx_id), "block_id") == block_id
    ensures LogColumns(l, n, block_id, tx_id).Keys == LOG_COLUMNS
  {
    hide LogColumns, TextAt, NumberAt, ListAt, FormatInt;
    LogColumnKeys(l, n, block_id, tx_id);
    LogRecordHolds(l, n, block_id, tx_id);
    LogPlaceHolds(l, n, block_id, tx_id);
    assert "false" != "true" by { assert |"false"| == 5; }
  }
}
