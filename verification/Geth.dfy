/**
 The go-ethereum values the indexer reads. Hashes and addresses are represented by the text that
 their Hex method renders, so keccak checksums and signature recovery stay outside the model.
 */
module Geth {
  import opened Wrappers
  import opened Strconv

  type byte = n: nat | n < 256

  predicate IsHexChar(c: char) {
    '0' <= c <= '9' || 'a' <= c <= 'f' || 'A' <= c <= 'F' || c == 'x'
  }

  predicate IsHexText(s: string) {
    forall i | 0 <= i < |s| :: IsHexChar(s[i])
  }

  datatype Hash = Hash(hex: string)
  datatype Address = Address(hex: string)

  const ZERO_ADDRESS := Address("0x0000000000000000000000000000000000000000")

  datatype GethLog = GethLog(
    address: Address, topics: seq<Hash>, data: seq<byte>, blockNumber: uint64, txHash: Hash,
    txIndex: uint64, blockHash: Hash, index: uint64, removed: bool)

  // BlockNumber is a *big.Int and may be nil.
  datatype GethReceipt = GethReceipt(
    txHash: Hash, transactionIndex: uint64, blockHash: Hash, blockNumber: Option<int>,
    cumulativeGasUsed: uint64, gasUsed: uint64, contractAddress: Address, logs: seq<GethLog>, status: uint64)

  datatype AccessTuple = AccessTuple(address: Address, storageKeys: seq<Hash>)

  const LEGACY_TX: byte := 0
  const ACCESS_LIST_TX: byte := 1
  const DYNAMIC_FEE_TX: byte := 2

  // recovered: what ethtypes.Sender yields for each signer that getFromAddress tries, None on error.
  datatype GethTransaction = GethTransaction(
    hash: Hash, txType: byte, gasPrice: nat, gasFeeCap: nat, gasTipCap: nat, value: nat, gas: uint64,
    data: seq<byte>, nonce: uint64, to: Option<Address>, recovered: seq<Option<Address>>,
    chainId: Option<nat>, v: nat, r: nat, s: nat, accessList: Option<seq<AccessTuple>>)

  // number is the header's big.Int; uncles are the hashes of the uncle headers.
  datatype GethBlock = GethBlock(
    hash: Hash, number: nat, time: uint64, parentHash: Hash, difficulty: nat, gasUsed: uint64,
    gasLimit: uint64, baseFee: Option<nat>, nonce: uint64, coinbase: Address, size: uint64, root: Hash,
    uncleHash: Hash, txHash: Hash, receiptHash: Hash, bloom: seq<byte>, extra: seq<byte>, mixDigest: Hash,
    uncles: seq<Hash>, transactions: seq<GethTransaction>)

  // Block.NumberU64: the low 64 bits of the header number.
  function NumberU64(b: GethBlock): (n: uint64)
    ensures b.number < TWO_64 ==> n == b.number
  {
    b.number % TWO_64
  }

  // common.Bytes2Hex: two lower-case digits a byte, no prefix.
  function Bytes2Hex(data: seq<byte>): string {
    if data == [] then "" else [DigitChar(data[0] / 16), DigitChar(data[0] % 16)] + Bytes2Hex(data[1..])
  }

  // big.Int String, which prints a nil pointer too.
  function BigText(n: Option<int>): string {
    if n.Some? then FormatInt(n.value, 10) else "<nil>"
  }

  function HexAll(hashes: seq<Hash>): (texts: seq<string>)
    ensures |texts| == |hashes|
    ensures forall i | 0 <= i < |hashes| :: texts[i] == hashes[i].hex
  {
    seq(|hashes|, i requires 0 <= i < |hashes| => hashes[i].hex)
  }

  // The loop that renders a slice of hashes; the converters run it over topics, storage keys and uncles.
  method HexTexts(hashes: seq<Hash>) returns (texts: seq<string>)
    ensures texts == HexAll(hashes)
  {
    texts := [];
    for i := 0 to |hashes|
      invariant |texts| == i
      invariant forall j | 0 <= j < i :: texts[j] == hashes[j].hex
    {
      texts := texts + [hashes[i].hex];
    }
  }
}
