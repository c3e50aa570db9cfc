/** The indexer's own records (pkg/types/types.go). A []string may be nil, which Option keeps apart from empty. */
module Types {
  import opened Wrappers
  import opened Strconv

  type Strings = Option<seq<string>>

  datatype AccessListEntry = AccessListEntry(address: string, storageKeys: Strings)

  datatype Log = Log(
    address: string, topics: Strings, data: string, blockNumber: string, transactionHash: string,
    transactionIndex: int64, blockHash: string, logIndex: int64, removed: bool)

  datatype TransactionReceipt = TransactionReceipt(
    transactionHash: string, transactionIndex: string, blockHash: string, blockNumber: string,
    from: string, to: string, cumulativeGasUsed: string, gasUsed: string, contractAddress: string,
    logs: seq<Log>, status: string)

  datatype Transaction = Transaction(
    hash: string, blockHash: string, blockNumber: string, from: string, to: string, value: string,
    gas: string, gasPrice: string, maxFeePerGas: string, maxPriorityFeePerGas: string, input: string,
    nonce: int64, transactionIndex: int64, txType: string, chainId: string, accessList: seq<AccessListEntry>,
    v: string, r: string, s: string, status: bool,
    gasUsed: string, cumulativeGasUsed: string, effectiveGasPrice: string)

  datatype Block = Block(
    hash: string, number: string, timestamp: string, parentHash: string, difficulty: string,
    totalDifficulty: string, gasUsed: string, gasLimit: string, baseFeePerGas: string, nonce: int64,
    miner: string, size: string, stateRoot: string, sha3Uncles: string, transactionsRoot: string,
    receiptsRoot: string, logsBloom: string, extraData: string, mixHash: string, uncles: Strings,
    transactions: seq<Transaction>)
}
