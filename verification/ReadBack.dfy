/**
 The converters lose nothing they print: every column of a converted block, transaction, receipt or log
 decodes to the number, the bytes, the hash or the address it was made from.
 */
module ReadBack {
  import opened Wrappers
  import opened Strconv
  import opened Types
  import opened Geth
  import opened EthereumClient

  // The number that a decimal column spells; an empty one spells none.
  function DecimalOf(text: string): Option<nat> {
    if text != "" && AllDigits(text, 10) then Some(Worth(0, text, 10)) else None
  }

  lemma DecimalReads(n: nat)
    ensures DecimalOf(FormatInt(n, 10)) == Some(n)
  {
    DigitsShape(n, 10);
    DigitsWorth(n, 10);
  }

  lemma OptionalReads(n: Option<nat>)
    ensures DecimalOf(if n.Some? then FormatInt(n.value, 10) else "") == n
  {
    if n.Some? {
      DecimalReads(n.value);
    }
  }

  // The number of a column that may carry a sign, or print a missing number.
  function IntegerOf(text: string): Option<int> {
    if text != "" && text[0] == '-' then
      match DecimalOf(text[1..])
      case Some(n) => var m: int := n; Some(-m)
      case None => None
    else DecimalOf(text)
  }

  lemma BigReads(n: Option<int>)
    ensures IntegerOf(BigText(n)) == n
  {
    if n.None? {
      assert BigText(n)[0] == '<' && DigitOf('<') == None;
    } else if n.value < 0 {
      assert FormatInt(n.value, 10)[1..] == FormatInt(-n.value, 10);
      DecimalReads(-n.value);
    } else {
      DecimalReads(n.value);
      DigitsShape(n.value, 10);
    }
  }

  function HashesOf(texts: Strings): Option<seq<Hash>> {
    if texts.Some? then Some(seq(|texts.value|, i requires 0 <= i < |texts.value| => Hash(texts.value[i]))) else None
  }

  lemma HashesRead(hashes: seq<Hash>)
    ensures HashesOf(Some(HexAll(hashes))) == Some(hashes)
  {
    assert HashesOf(Some(HexAll(hashes))).value == hashes;
  }

  // The access list that converted entries stand for; one with nil storage keys stands for none.
  function TuplesOf(entries: seq<AccessListEntry>): Option<seq<AccessTuple>> {
    if forall i | 0 <= i < |entries| :: entries[i].storageKeys.Some? then
      Some(seq(|entries|, i requires 0 <= i < |entries| =>
        AccessTuple(Address(entries[i].address), HashesOf(entries[i].storageKeys).value)))
    else None
  }

  lemma TuplesRead(tuples: seq<AccessTuple>)
    ensures TuplesOf(AccessListOf(tuples)) == Some(tuples)
  {
    var read := TuplesOf(AccessListOf(tuples));
    forall i | 0 <= i < |tuples| ensures read.value[i] == tuples[i] {
      HashesRead(tuples[i].storageKeys);
    }
    assert read.value == tuples;
  }

  // The bytes that a hex column without prefix holds.
  function BytesOf(text: string): Option<seq<byte>> {
    if text == "" then Some([])
    else if |text| < 2 then None
    else
      var high, low, rest := DigitOf(text[0]), DigitOf(text[1]), BytesOf(text[2..]);
      if high.Some? && high.value < 16 && low.Some? && low.value < 16 && rest.Some? then
        Some([16 * high.value + low.value] + rest.value)
      else None
  }

  // Reading one byte more in front.
  lemma ByteRead(high: char, low: char, h: nat, l: nat, text: string)
    requires DigitOf(high) == Some(h) && DigitOf(low) == Some(l) && h < 16 && l < 16
    ensures BytesOf([high, low] + text) == if BytesOf(text).Some? then Some([16 * h + l] + BytesOf(text).value) else None
  {
    assert ([high, low] + text)[2..] == text;
  }

  lemma {:induction false} BytesRead(data: seq<byte>)
    ensures BytesOf(Bytes2Hex(data)) == Some(data)
  {
    hide BytesOf;
    if data == [] {
      NoBytes();
    } else {
      BytesRead(data[1..]);
      ByteRead(DigitChar(data[0] / 16), DigitChar(data[0] % 16), data[0] / 16, data[0] % 16, Bytes2Hex(data[1..]));
      assert [data[0]] + data[1..] == data;
    }
  }

  // The text spells these bytes in lower-case digits, two for each, which leaves only one such text.
  predicate Spells(text: string, data: seq<byte>) {
    && |text| == 2 * |data| && BytesOf(text) == Some(data)
    && forall i | 0 <= i < |text| :: '0' <= text[i] <= '9' || 'a' <= text[i] <= 'f'
  }

  lemma {:induction false} BytesSpelt(data: seq<byte>)
    ensures Spells(Bytes2Hex(data), data)
  {
    BytesRead(data);
    if data != [] {
      BytesSpelt(data[1..]);
    }
  }

  lemma {:induction false} SpeltOneWay(text: string, other: string, data: seq<byte>)
    requires Spells(text, data) && Spells(other, data)
    ensures text == other
  {
    if text != [] {
      assert text == [text[0], text[1]] + text[2..] && other == [other[0], other[1]] + other[2..];
      SpeltTail(text, data);
      SpeltTail(other, data);
      SpeltOneWay(text[2..], other[2..], data[1..]);
    }
  }

  // The first two digits spell the first byte, and the others the rest.
  lemma SpeltTail(text: string, data: seq<byte>)
    requires Spells(text, data) && text != []
    ensures DigitOf(text[0]) == Some(data[0] / 16) && DigitOf(text[1]) == Some(data[0] % 16)
    ensures Spells(text[2..], data[1..])
  {
    assert BytesOf(text[2..]).Some?;
    assert data == [data[0]] + BytesOf(text[2..]).value;
  }

  lemma NoBytes()
    ensures BytesOf("") == Some([])
  {
  }

  // The unsigned number that a Go int holding a converted uint64 stands for.
  function Unsigned(n: int64): uint64 {
    if n < 0 then n + TWO_64 else n
  }

  lemma BlockReadsBack(b: GethBlock)
    requires Indexable(b)
    ensures
      var g := BlockOf(b);
      && DecimalOf(g.number) == Some(NumberU64(b)) && DecimalOf(g.timestamp) == Some(b.time)
      && DecimalOf(g.difficulty) == Some(b.difficulty) && DecimalOf(g.gasUsed) == Some(b.gasUsed)
      && DecimalOf(g.gasLimit) == Some(b.gasLimit) && DecimalOf(g.size) == Some(b.size)
      && DecimalOf(g.baseFeePerGas) == b.baseFee && Unsigned(g.nonce) == b.nonce
      && Spells(g.logsBloom, b.bloom) && Spells(g.extraData, b.extra)
      && (Hash(g.hash), Hash(g.parentHash), Hash(g.mixHash)) == (b.hash, b.parentHash, b.mixDigest)
      && (Hash(g.stateRoot), Hash(g.transactionsRoot), Hash(g.receiptsRoot)) == (b.root, b.txHash, b.receiptHash)
      && (Hash(g.sha3Uncles), Address(g.miner)) == (b.uncleHash, b.coinbase)
      && HashesOf(g.uncles) == Some(b.uncles) && g.totalDifficulty == ""
  {
    hide DecimalOf, Spells, HashesOf, FormatInt, Bytes2Hex;
    HashesRead(b.uncles);
    DecimalReads(NumberU64(b));
    DecimalReads(b.time);
    DecimalReads(b.difficulty);
    DecimalReads(b.gasUsed);
    DecimalReads(b.gasLimit);
    DecimalReads(b.size);
    OptionalReads(b.baseFee);
    BytesSpelt(b.bloom);
    BytesSpelt(b.extra);
  }

  // The fee columns of a dynamic fee transaction hold its caps; those of any other type are empty.
  lemma TransactionReadsBack(tx: GethTransaction, b: GethBlock, index: int64)
    ensures
      var t := TransactionOf(tx, b, index);
      && DecimalOf(t.blockNumber) == Some(b.number) && DecimalOf(t.value) == Some(tx.value) && DecimalOf(t.gas) == Some(tx.gas)
      && DecimalOf(t.txType) == Some(tx.txType) && DecimalOf(t.chainId) == tx.chainId
      && DecimalOf(t.v) == Some(tx.v) && DecimalOf(t.r) == Some(tx.r) && DecimalOf(t.s) == Some(tx.s)
      && Unsigned(t.nonce) == tx.nonce && Spells(t.input, tx.data)
      && (Hash(t.hash), Hash(t.blockHash), Address(t.from)) == (tx.hash, b.hash, FromAddress(tx.recovered))
      && (tx.to.Some? ==> Address(t.to) == tx.to.value) && (tx.to.None? ==> t.to == "")
      && TuplesOf(t.accessList) == Some(if tx.accessList.Some? then tx.accessList.value else [])
      && t.transactionIndex == index && t.status
      && (t.gasUsed, t.cumulativeGasUsed, t.effectiveGasPrice) == ("", "", "")
      && (if tx.txType == 2 then
            DecimalOf(t.gasPrice) == DecimalOf(t.maxFeePerGas) == Some(tx.gasFeeCap)
            && DecimalOf(t.maxPriorityFeePerGas) == Some(tx.gasTipCap)
          else
            DecimalOf(t.gasPrice) == Some(tx.gasPrice)
            && DecimalOf(t.maxFeePerGas) == DecimalOf(t.maxPriorityFeePerGas) == None)
  {
    hide DecimalOf, Spells, FormatInt, Bytes2Hex, FromAddress, AccessListOf, TuplesOf;
    NoTuples();
    if tx.accessList.Some? { TuplesRead(tx.accessList.value); }
    forall n: nat ensures DecimalOf(FormatInt(n, 10)) == Some(n) {
      DecimalReads(n);
    }
    OptionalReads(tx.chainId);
    OptionalReads(None);
    BytesSpelt(tx.data);
  }

  lemma NoTuples()
    ensures TuplesOf([]) == Some([])
  {
    assert TuplesOf([]).value == [];
  }

  lemma ReceiptReadsBack(r: GethReceipt)
    ensures
      var t := ReceiptOf(r);
      && DecimalOf(t.transactionIndex) == Some(r.transactionIndex) && DecimalOf(t.gasUsed) == Some(r.gasUsed)
      && DecimalOf(t.cumulativeGasUsed) == Some(r.cumulativeGasUsed)
      && (Hash(t.transactionHash), Hash(t.blockHash)) == (r.txHash, r.blockHash)
      && t.status == (if r.status == 1 then "1" else "0")
      && t.contractAddress == (if r.contractAddress.hex == "0x" + seq(40, i => '0') then "" else r.contractAddress.hex)
      && IntegerOf(t.blockNumber) == r.blockNumber && (r.blockNumber.None? ==> t.blockNumber == "<nil>")
      && (t.from, t.to) == ("", "")
      && |t.logs| == |r.logs| && forall i | 0 <= i < |r.logs| :: LogReads(t.logs[i], r.logs[i])
  {
    hide DecimalOf, IntegerOf, FormatInt, LogReads, LogOf;
    ZeroAddressText();
    BigReads(r.blockNumber);
    forall i | 0 <= i < |r.logs| ensures LogReads(LogOf(r.logs[i]), r.logs[i]) {
      LogReadsBack(r.logs[i]);
    }
    DecimalReads(r.transactionIndex);
    DecimalReads(r.gasUsed);
    DecimalReads(r.cumulativeGasUsed);
  }

  // Every column of the converted log decodes to the node's log.
  predicate LogReads(t: Log, l: GethLog) {
    && DecimalOf(t.blockNumber) == Some(l.blockNumber) && Unsigned(t.transactionIndex) == l.txIndex
    && Unsigned(t.logIndex) == l.index && Spells(t.data, l.data) && t.removed == l.removed
    && (Address(t.address), Hash(t.transactionHash), Hash(t.blockHash)) == (l.address, l.txHash, l.blockHash)
    && HashesOf(t.topics) == Some(l.topics)
  }

  lemma LogReadsBack(l: GethLog)
    ensures LogReads(LogOf(l), l)
  {
    hide DecimalOf, Spells, HashesOf, FormatInt, Bytes2Hex;
    DecimalReads(l.blockNumber);
    BytesSpelt(l.data);
    HashesRead(l.topics);
  }
}
