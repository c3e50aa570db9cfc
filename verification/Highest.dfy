/**
 GetHighestBlockNumber (pkg/defra/block_handler.go): how a reply is read, and what that says about
 the block numbers in the store.
 */
module Highest {
  import opened Wrappers
  import opened Strconv
  import opened Errors
  import opened Hex
  import opened BlockHandler
  import opened Float64
  import opened Ingest
  import opened IngestInvariant
  import opened IngestSteps

  const HIGHEST := "GetHighestBlockNumber"
  const NUMBER := "number"

  function Missing(): Err {
    Make(DocumentNotFound, DEFRA, HIGHEST, BLOCK, "", None)
  }

  predicate HasHexPrefix(v: string) {
    |v| >= 2 && v[0] == '0' && v[1] == 'x'
  }

  /**
   The type switch over the number field. A JSON number arrives as a float64; converting one that
   is outside the int64 range yields whatever the platform makes of it, which is overflow here.
   */
  function ReadNumber(value: Option<Json>, overflow: int64): Result<int64, Err> {
    match value
    case Some(JStr(v)) =>
      if HasHexPrefix(v) then
        match HexToInt(v)
        case Ok(n) => Ok(n)
        case Err(e) => Err(Make(ParsingFailed, DEFRA, HIGHEST, "block number: " + v, "block number: " + v, Some(e)))
      else
        (match ParseInt(v, false)
         case Ok(n) => Ok(n)
         case Err(_) => Err(Missing()))
    case Some(JNum(n)) =>
      var x := RoundSigned(n);
      Ok(if -TWO_63 <= x < TWO_63 then x else overflow)
    case _ => Err(Missing())
  }

  // The Block array of a decoded reply.
  function FoundBlocks(reply: map<string, Json>): Option<seq<Json>> {
    match Member(reply, DATA)
    case Some(JObj(data)) => (
      match Member(data, BLOCK)
      case Some(JArr(items)) => Some(items)
      case _ => None)
    case _ => None
  }

  function GetHighestBlockNumber(wire: Wire, overflow: int64): Result<int64, Err> {
    match Send(wire)
    case Err(e) => Err(Query(HIGHEST, Some(e)))
    case Ok(content) =>
      match DecodeObject(content)
      case Err(e) => Err(Make(ParsingFailed, DEFRA, HIGHEST, "", "", Some(e)))
      case Ok(reply) =>
        var found := FoundBlocks(reply);
        if found.None? || found.value == [] || !found.value[0].JObj? then Err(Missing())
        else ReadNumber(Member(found.value[0].members, NUMBER), overflow)
  }

  // ------------------------------------------------------------ the store's reply

  // The ways the query result may spell the number it found.
  datatype Spelling = AsNumber | AsDecimal | AsHex

  function Spell(n: int, spelling: Spelling): Json {
    match spelling
    case AsNumber => JNum(n)
    case AsDecimal => JStr(FormatInt(n, 10))
    case AsHex => JStr(NumberToHex(n))
  }

  function BlocksReply(items: seq<Json>): Wire {
    Body(Some(JObj(map["data" := JObj(map["Block" := JArr(items)])])))
  }

  function TopReply(n: int, spelling: Spelling): Wire {
    BlocksReply([JObj(map["number" := Spell(n, spelling)])])
  }

  lemma ReplyIsRead(items: seq<Json>, overflow: int64)
    ensures GetHighestBlockNumber(BlocksReply(items), overflow) ==
              if items == [] || !items[0].JObj? then Err(Missing())
              else ReadNumber(Member(items[0].members, "number"), overflow)
  {
  }

  // The number member of the first block in a reply, if there is one.
  function FoundNumber(wire: Wire): Option<Json> {
    if wire.Body? && wire.content.Some? && wire.content.value.JObj? && "data" in wire.content.value.members then
      var data := wire.content.value.members["data"];
      if data.JObj? && "Block" in data.members && data.members["Block"].JArr? && data.members["Block"].items != [] then
        var block := data.members["Block"].items[0];
        if block.JObj? && "number" in block.members then Some(block.members["number"]) else None
      else None
    else None
  }

  /**
   Which error a caller sees. Only a failed exchange is retryable. A reply that is not a JSON object,
   or whose number is a 0x text that does not parse, is a DataError; anything else that yields no
   number is reported as a missing document. Without an error the number was there.
   */
  lemma ErrorTellsWhy(wire: Wire, overflow: int64)
    ensures
      var r := GetHighestBlockNumber(wire, overflow);
      && (r.Ok? ==> FoundNumber(wire).Some?)
      && (r.Err? ==>
            && (IsRetryable(r.error) <==> wire.Failed?)
            && (IsDataError(r.error) <==>
                  && wire.Body?
                  && (wire.content.None? || !(wire.content.value.JObj? || wire.content.value.JNull?)
                      || (FoundNumber(wire).Some? && FoundNumber(wire).value.JStr? && "0x" <= FoundNumber(wire).value.text)))
            && (r.error == Missing() <==> wire.Body? && !IsDataError(r.error)))
    ensures LoggedAs(Missing(), "defra", "GetHighestBlockNumber", "DOCUMENT_NOT_FOUND", "WARNING", "NON_RETRYABLE")
  {
    hide ParseInt, RoundSigned, LoggedAs;
    MadeLogged(DocumentNotFound, "defra", "GetHighestBlockNumber", "Block", "", None);
    if wire.Failed? {
      FailedExchangeClass(wire.reason);
    }
  }

  /**
   What counts as an answer: text after 0x as HexToInt reads it, other text as a decimal int64, and a JSON
   number rounded to binary64.
   */
  lemma AnswerExactly(wire: Wire, overflow: int64, n: int64)
    ensures
      GetHighestBlockNumber(wire, overflow) == Ok(n) <==>
        && FoundNumber(wire).Some?
        && match FoundNumber(wire).value
           case JStr(text) => if "0x" <= text then HexToInt(text) == Ok(n) else StringToInt(text) == Ok(n)
           case JNum(m) =>
             n == (if -0x8000_0000_0000_0000 <= RoundSigned(m) < 0x8000_0000_0000_0000 then RoundSigned(m) else overflow)
           case _ => false
  {
    hide ParseInt, RoundSigned, HexToInt;
    assert ParseInt("", false).Err? by { EmptyIsNoNumber(); }
  }

  lemma EmptyIsNoNumber()
    ensures ParseInt("", false) == Err(Syntax)
  {
  }

  lemma FailedExchangeClass(reason: string)
    ensures var e := Query(HIGHEST, Some(Query("SendToGraphql", Some(Plain(reason)))));
            IsRetryable(e) && !IsDataError(e)
  {
    var sent := Query("SendToGraphql", Some(Plain(reason)));
    assert StorageChain(sent);
    StorageChainClass(sent);
  }

  // The text paths are exact on every non-negative int64, the decimal one on every int64.
  lemma TextIsExact(n: int64, overflow: int64)
    ensures GetHighestBlockNumber(TopReply(n, AsDecimal), overflow) == Ok(n)
    ensures n >= 0 ==> GetHighestBlockNumber(TopReply(n, AsHex), overflow) == Ok(n)
    ensures n < 0 ==> GetHighestBlockNumber(TopReply(n, AsHex), overflow).Err?
  {
    hide HexToInt, ParseInt, FormatInt, Send, DecodeObject;
    ReplyIsRead([JObj(map["number" := Spell(n, AsDecimal)])], overflow);
    ReplyIsRead([JObj(map["number" := Spell(n, AsHex)])], overflow);
    HexRoundTrip(n);
    DecimalIsNotPrefixed(n);
    ParseIntInvertsDecimal(n, false);
  }

  lemma DecimalIsNotPrefixed(n: int)
    ensures !HasHexPrefix(FormatInt(n, 10))
  {
    DigitsShape(if n < 0 then -n else n, 10);
  }

  /**
   The JSON number path. A stored number is read back exactly if and only if binary64 has it, which
   covers everything up to 2^53; up to 2^63 - 513 the result is within 512; above that the result
   does not depend on the number any more.
   */
  lemma NumberIsRounded(n: int, overflow: int64)
    requires 0 <= n < TWO_63
    ensures
      var r := GetHighestBlockNumber(TopReply(n, AsNumber), overflow);
      && r.Ok?
      && (n <= TWO_63 - 513 ==>
            && (r.value == n <==> Representable(n))
            && -512 <= r.value - n <= 512)
      && (n <= TWO_53 ==> r.value == n)
      && (n > TWO_63 - 513 ==> r.value == overflow)
  {
    hide Round, Send, DecodeObject;
    ReplyIsRead([JObj(map["number" := Spell(n, AsNumber)])], overflow);
    RoundBelow2To63(n);
    if n <= TWO_53 { RoundExact(n); }
    if Representable(n) { RoundIsNearest(n, n); }
    RoundIsRepresentable(n);
  }

  // Up to 2^63 - 513 the JSON number path keeps the order of what was stored.
  lemma NumberIsMonotone(a: int, b: int, overflow: int64)
    requires 0 <= a <= b <= TWO_63 - 513
    ensures
      var x := GetHighestBlockNumber(TopReply(a, AsNumber), overflow);
      var y := GetHighestBlockNumber(TopReply(b, AsNumber), overflow);
      x.Ok? && y.Ok? && x.value <= y.value
  {
    hide Round, Send, DecodeObject;
    ReplyIsRead([JObj(map["number" := Spell(a, AsNumber)])], overflow);
    ReplyIsRead([JObj(map["number" := Spell(b, AsNumber)])], overflow);
    RoundBelow2To63(a);
    RoundBelow2To63(b);
    RoundMonotone(a, b);
  }

  // ------------------------------------------------------------ reachable stores

  ghost predicate IsHighest(s: Store, top: int) {
    && (exists b :: b in s.blocks && s.blocks[b].number == top)
    && forall b | b in s.blocks :: s.blocks[b].number <= top
  }

  // What the query yields: nothing from an empty collection, otherwise the highest number, however spelled.
  ghost predicate Answers(s: Store, wire: Wire) {
    if s.blocks == map[] then wire == BlocksReply([])
    else exists top: int, spelling: Spelling :: IsHighest(s, top) && wire == TopReply(top, spelling)
  }

  /**
   Highest block agrees with the store. In every reachable state the query's answer is read as
   "document not found" exactly if no block is stored; otherwise, for the highest number stored,
   text answers are read exactly, and a JSON number exactly up to 2^53 and within 512 up to
   2^63 - 513.
   */
  lemma HighestAgrees(n: nat, steps: seq<Step>, wire: Wire, overflow: int64)
    requires ValidRun(n, steps) && Answers(Final(n, steps).store, wire)
    ensures
      var s := Final(n, steps).store;
      var r := GetHighestBlockNumber(wire, overflow);
      && (s.blocks == map[] <==> r == Err(Missing()))
      && (s.blocks != map[] ==> r.Ok?)
      && forall top | IsHighest(s, top) ::
           && 0 <= top < TWO_63
           && ((wire == TopReply(top, AsDecimal) || wire == TopReply(top, AsHex) || top <= TWO_53) ==> r == Ok(top))
           && (top <= TWO_63 - 513 ==> -512 <= r.value - top <= 512)
  {
    hide ValidRun, Final, GetHighestBlockNumber, TopReply, PhaseTrue, StoreTrue, ParsedNumber;
    RunKeeps(n, steps);
    var s := Final(n, steps).store;
    if s.blocks == map[] {
      ReplyIsRead([], overflow);
    } else {
      var top: int, spelling: Spelling :| IsHighest(s, top) && wire == TopReply(top, spelling);
      TextIsExact(top, overflow);
      NumberIsRounded(top, overflow);
      match spelling
      case AsNumber =>
      case AsDecimal =>
      case AsHex =>
    }
  }
}
