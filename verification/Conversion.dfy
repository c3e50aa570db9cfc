/** The second set of converters (pkg/types/conversion.go) and how it compares with the client's. */
module Conversion {
  import opened Wrappers
  import opened Strconv
  import opened Types
  import opened Geth
  import EthereumClient

  // big.NewInt(int64(n)).String()
  function Int64Text(n: uint64): string {
    FormatInt(WrapInt64(n), 10)
  }

  function LogOf(log: GethLog): Log {
    Log(log.address.hex, Some(HexAll(log.topics)), Bytes2Hex(log.data), Int64Text(log.blockNumber),
        log.txHash.hex, WrapInt64(log.txIndex), log.blockHash.hex, WrapInt64(log.index), log.removed)
  }

  function ReceiptOf(r: GethReceipt): TransactionReceipt {
    TransactionReceipt(
      r.txHash.hex, Int64Text(r.transactionIndex), r.blockHash.hex,
      if r.blockNumber.Some? then BigText(r.blockNumber) else "0", "", r.contractAddress.hex,
      Int64Text(r.cumulativeGasUsed), Int64Text(r.gasUsed), r.contractAddress.hex,
      seq(|r.logs|, i requires 0 <= i < |r.logs| => LogOf(r.logs[i])), Int64Text(r.status))
  }

  method ConvertLog(l: GethLog) returns (converted: Log)
    ensures converted == LogOf(l)
  {
    var topics := HexTexts(l.topics);
    return Log(l.address.hex, Some(topics), Bytes2Hex(l.data), Int64Text(l.blockNumber), l.txHash.hex,
               WrapInt64(l.txIndex), l.blockHash.hex, WrapInt64(l.index), l.removed);
  }

  method ConvertReceipt(receipt: Option<GethReceipt>) returns (converted: Option<TransactionReceipt>)
    ensures converted == if receipt.Some? then Some(ReceiptOf(receipt.value)) else None
  {
    if receipt.None? {
      return None;
    }
    var r := receipt.value;
    var logs: seq<Log> := [];
    for i := 0 to |r.logs|
      invariant |logs| == i
      invariant forall j | 0 <= j < i :: logs[j] == LogOf(r.logs[j])
    {
      var log := ConvertLog(r.logs[i]);
      logs := logs + [log];
    }
    assert logs == ReceiptOf(r).logs;
    var blockNumber := "0";
    if r.blockNumber.Some? {
      blockNumber := BigText(r.blockNumber);
    }
    return Some(TransactionReceipt(
      r.txHash.hex, Int64Text(r.transactionIndex), r.blockHash.hex, blockNumber, "", r.contractAddress.hex,
      Int64Text(r.cumulativeGasUsed), Int64Text(r.gasUsed), r.contractAddress.hex, logs, Int64Text(r.status)));
  }

  lemma Int64TextAgrees(n: uint64)
    ensures Int64Text(n) == FormatInt(n, 10) <==> n < TWO_63
  {
    FormatIntInjective(WrapInt64(n), n);
  }

  // The two log converters agree on every field exactly when the log's block number is an int64.
  lemma LogConvertersAgree(log: GethLog)
    ensures LogOf(log) == EthereumClient.LogOf(log) <==> log.blockNumber < TWO_63
  {
    Int64TextAgrees(log.blockNumber);
  }

  /**
   The two receipt converters agree on every column but To and ContractAddress exactly when every
   log's block number and the three counters are below 2^63, the block number is present and the
   status is 0 or 1. ContractAddress agrees unless it is the zero address, which one of them prints
   and the other leaves empty; To, where one prints the contract's address, differs whenever that
   prints as anything.
   */
  lemma ReceiptConvertersAgree(r: GethReceipt)
    ensures ReceiptOf(r).(to := "", contractAddress := "") == EthereumClient.ReceiptOf(r).(to := "", contractAddress := "") <==>
              && (forall i | 0 <= i < |r.logs| :: r.logs[i].blockNumber < TWO_63)
              && r.transactionIndex < TWO_63 && r.cumulativeGasUsed < TWO_63 && r.gasUsed < TWO_63
              && r.blockNumber.Some? && r.status <= 1
    ensures ReceiptOf(r).contractAddress == EthereumClient.ReceiptOf(r).contractAddress <==> r.contractAddress != ZERO_ADDRESS
    ensures ReceiptOf(r).to == EthereumClient.ReceiptOf(r).to <==> r.contractAddress.hex == ""
  {
    Int64TextAgrees(r.transactionIndex);
    Int64TextAgrees(r.cumulativeGasUsed);
    Int64TextAgrees(r.gasUsed);
    forall i | 0 <= i < |r.logs|
      ensures ReceiptOf(r).logs[i] == EthereumClient.ReceiptOf(r).logs[i] <==> r.logs[i].blockNumber < TWO_63
    {
      LogConvertersAgree(r.logs[i]);
    }
    var left, right := ReceiptOf(r).logs, EthereumClient.ReceiptOf(r).logs;
    assert (forall i | 0 <= i < |r.logs| :: left[i] == right[i]) <==> left == right;
    assert FormatInt(0, 10) == "0" && FormatInt(1, 10) == "1";
    FormatIntInjective(WrapInt64(r.status), 0);
    FormatIntInjective(WrapInt64(r.status), 1);
    if r.blockNumber.Some? {
      assert BigText(r.blockNumber) == FormatInt(r.blockNumber.value, 10);
    } else {
      assert BigText(r.blockNumber)[0] == '<';
    }
  }
}
