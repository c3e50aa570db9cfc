/**
 The DefraDB client (pkg/defra/block_handler.go): what each Create method checks, sends and returns.
 The exchange with the server is the parameter wire: the method's result for every possible reply.
 */
module BlockHandler {
  import opened Wrappers
  import opened Errors
  import opened Hex
  import opened Types
  import opened Mutation
  import opened Strconv

  // A decoded JSON document; numbers are integer literals.
  datatype Json =
    | JNull
    | JBool(flag: bool)
    | JNum(number: int)
    | JStr(text: string)
    | JArr(items: seq<Json>)
    | JObj(members: map<string, Json>)

  /**
   How one HTTP exchange ends: with a transport error, or with a body, which is None when it is not
   JSON. The status code is never looked at.
   */
  datatype Wire = Failed(reason: string) | Body(content: Option<Json>)

  const DEFRA := "defra"
  const DATA := "data"
  const DOC_ID := "_docID"

  function Invalid(operation: string, input: string): Err {
    Make(InvalidInputFormat, DEFRA, operation, "", input, None)
  }

  function Query(operation: string, underlying: Option<Err>): Err {
    Make(QueryFailed, DEFRA, operation, "", "", underlying)
  }

  // json.Unmarshal into a map: null leaves the map nil, any other non-object is an error.
  function DecodeObject(content: Option<Json>): Result<map<string, Json>, Err> {
    match content
    case None => Err(Plain("invalid character"))
    case Some(JNull) => Ok(map[])
    case Some(JObj(members)) => Ok(members)
    case Some(_) => Err(Plain("cannot unmarshal"))
  }

  // SendToGraphql for a non-empty query.
  function Send(wire: Wire): Result<Option<Json>, Err> {
    match wire
    case Failed(reason) => Err(Query("SendToGraphql", Some(Plain(reason))))
    case Body(content) => Ok(content)
  }

  function Member(members: map<string, Json>, name: string): Option<Json> {
    if name in members then Some(members[name]) else None
  }

  // The _docID of an object, if it is a string.
  function DocIdOf(j: Json): Option<string> {
    if j.JObj? then
      var id := Member(j.members, DOC_ID);
      if id.Some? && id.value.JStr? then Some(id.value.text) else None
    else None
  }

  // Single object or array reply.
  function ExtractDocId(created: Json): Option<string> {
    match created
    case JObj(_) => DocIdOf(created)
    case JArr(items) => if items == [] then None else DocIdOf(items[0])
    case _ => None
  }

  const POST := "PostToCollection"

  function ReplyDocId(collection: string, reply: map<string, Json>): Option<string> {
    var data := Member(reply, DATA);
    if data.None? || !data.value.JObj? then None
    else
      var created := Member(data.value.members, CREATE + collection);
      if created.None? then None else ExtractDocId(created.value)
  }

  // PostToCollection after its two input checks and the printing of the request.
  function PostReply(collection: string, wire: Wire): Result<string, Err> {
    match Send(wire)
    case Err(e) => Err(Query(POST, Some(e)))
    case Ok(content) =>
      match DecodeObject(content)
      case Err(e) => Err(Query(POST, Some(e)))
      case Ok(reply) =>
        match ReplyDocId(collection, reply)
        case None => Err(Query(POST, None))
        case Some(docId) => Ok(docId)
  }

  const BLOCK := "Block"
  const TRANSACTION := "Transaction"
  const ACCESS_LIST_ENTRY := "AccessListEntry"
  const LOG := "Log"

  // ----------------------------------------------------------------- columns

  // The blockData map.
  function BlockColumns(b: Block, number: int64): Fields {
    map[
      "hash" := Str(b.hash), "number" := Int(number), "timestamp" := Str(b.timestamp),
      "parentHash" := Str(b.parentHash), "difficulty" := Str(b.difficulty),
      "totalDifficulty" := Str(b.totalDifficulty), "gasUsed" := Str(b.gasUsed), "gasLimit" := Str(b.gasLimit),
      "baseFeePerGas" := Str(b.baseFeePerGas), "nonce" := Int(b.nonce), "miner" := Str(b.miner),
      "size" := Str(b.size), "stateRoot" := Str(b.stateRoot), "sha3Uncles" := Str(b.sha3Uncles),
      "transactionsRoot" := Str(b.transactionsRoot), "receiptsRoot" := Str(b.receiptsRoot),
      "logsBloom" := Str(b.logsBloom), "extraData" := Str(b.extraData), "mixHash" := Str(b.mixHash),
      "uncles" := Strs(b.uncles)]
  }

  // The txData map.
  function TransactionColumns(tx: Transaction, number: int64, block_id: string): Fields {
    map[
      "hash" := Str(tx.hash), "blockNumber" := Int(number), "blockHash" := Str(tx.blockHash),
      "transactionIndex" := Int(tx.transactionIndex), "from" := Str(tx.from), "to" := Str(tx.to),
      "value" := Str(tx.value), "gas" := Str(tx.gas), "gasPrice" := Str(tx.gasPrice),
      "maxFeePerGas" := Str(tx.maxFeePerGas), "maxPriorityFeePerGas" := Str(tx.maxPriorityFeePerGas),
      "input" := Str(tx.input), "nonce" := Str(FormatInt(tx.nonce, 10)), "type" := Str(tx.txType),
      "chainId" := Str(tx.chainId), "v" := Str(tx.v), "r" := Str(tx.r), "s" := Str(tx.s),
      "gasUsed" := Str(tx.gasUsed), "cumulativeGasUsed" := Str(tx.cumulativeGasUsed),
      "effectiveGasPrice" := Str(tx.effectiveGasPrice), "status" := Bool(tx.status), "block_id" := Str(block_id)]
  }

  // The ALEData map.
  function EntryColumns(entry: AccessListEntry, tx_id: string): Fields {
    map["address" := Str(entry.address), "storageKeys" := Strs(entry.storageKeys), "transaction_id" := Str(tx_id)]
  }

  // The logData map.
  function LogColumns(log: Log, number: int64, block_id: string, tx_id: string): Fields {
    map[
      "address" := Str(log.address), "topics" := Strs(log.topics), "data" := Str(log.data),
      "blockNumber" := Int(number), "transactionHash" := Str(log.transactionHash),
      "transactionIndex" := Int(log.transactionIndex), "blockHash" := Str(log.blockHash),
      "logIndex" := Int(log.logIndex), "removed" := Str(if log.removed then "true" else "false"),
      "transaction_id" := Str(tx_id), "block_id" := Str(block_id)]
  }

  // ---------------------------------------------------------- Create methods

  function CreateBlock(block: Option<Block>, wire: Wire): Result<string, Err> {
    match block
    case None => Err(Make(InvalidBlockFormat, DEFRA, "CreateBlock", "", "<nil>", None))
    case Some(b) =>
      match HexToInt(b.number)
      case Err(e) => Err(e)
      case Ok(_) =>
        match PostReply(BLOCK, wire)
        case Err(e) => Err(Query("CreateBlock", Some(e)))
        case Ok(docId) => Ok(docId)
  }

  function CreateTransaction(tx: Option<Transaction>, block_id: string, wire: Wire): Result<string, Err> {
    match tx
    case None => Err(Invalid("CreateTransaction", "tx"))
    case Some(t) =>
      match HexToInt(t.blockNumber)
      case Err(e) => Err(Make(ParsingFailed, DEFRA, "CreateTransaction", "block number", "block number", Some(e)))
      case Ok(_) =>
        match PostReply(TRANSACTION, wire)
        case Err(e) => Err(Query("CreateTransaction", Some(e)))
        case Ok(docId) => Ok(docId)
  }

  function CreateAccessListEntry(entry: Option<AccessListEntry>, tx_id: string, wire: Wire): Result<string, Err> {
    if entry.None? then Err(Invalid("CreateAccessListEntry", "accessListEntry"))
    else if tx_id == "" then Err(Invalid("CreateAccessListEntry", "tx_Id"))
    else match PostReply(ACCESS_LIST_ENTRY, wire)
      case Err(e) => Err(Query("CreateAccessListEntry", Some(e)))
      case Ok(docId) => Ok(docId)
  }

  // The log pointer is read before its nil check, so a nil log is not a possible argument.
  function CreateLog(log: Log, block_id: string, tx_id: string, wire: Wire): Result<string, Err> {
    match HexToInt(log.blockNumber)
    case Err(e) =>
      var input := "block number: " + log.blockNumber;
      Err(Make(ParsingFailed, DEFRA, "CreateLog", input, input, Some(e)))
    case Ok(_) =>
      if block_id == "" then Err(Invalid("CreateLog", "block_id"))
      else if tx_id == "" then Err(Invalid("CreateLog", "tx_Id"))
      else match PostReply(LOG, wire)
        case Err(e) => Err(Query("CreateLog", Some(e)))
        case Ok(docId) => Ok(docId)
  }

  // ------------------------------------------------------------------ errors

  // Storage errors all the way down to a foreign one: retryable at a fixed delay, no DataError inside.
  predicate StorageChain(e: Err) {
    match e
    case Indexer(kind, code, _, _, _, _, _, underlying) =>
      && kind == Storage && code == QueryFailed && Constructed(e)
      && (underlying.Some? ==> StorageChain(underlying.value) || underlying.value.Plain?)
    case _ => false
  }

  lemma PostErrorsAreStorageErrors(collection: string, wire: Wire)
    ensures PostReply(collection, wire).Err? ==> StorageChain(PostReply(collection, wire).error)
  {
    match wire
    case Failed(reason) =>
      assert StorageChain(Query("SendToGraphql", Some(Plain(reason))));
    case Body(content) =>
  }

  lemma {:induction false} StorageChainClass(e: Err)
    requires StorageChain(e)
    ensures !IsDataError(e) && IsRetryable(e) && !IsRetryableWithBackoff(e) && !IsCritical(e)
  {
    assert Profile(e.code) == (e.kind, e.severity, e.retryable);
    assert First(e) == Some(e);
    if e.underlying.Some? {
      if e.underlying.value.Plain? {
        assert !Has(e.underlying.value, Data);
      } else {
        StorageChainClass(e.underlying.value);
      }
    }
  }

  /**
   The errors CreateBlock can return. If the block is missing or its number does not parse, a
   non-retryable DataError, whatever the server would say; otherwise a retryable storage error
   without a DataError anywhere in its chain.
   */
  lemma CreateBlockErrors(block: Option<Block>, wire: Wire)
    ensures var o := CreateBlock(block, wire);
            if block.None? || HexToInt(block.value.number).Err? then
              o.Err? && IsDataError(o.error) && !IsRetryable(o.error)
            else
              && (o.Ok? <==> PostReply(BLOCK, wire).Ok?)
              && (o.Err? ==>
                    && !IsDataError(o.error) && IsRetryable(o.error)
                    && !IsRetryableWithBackoff(o.error) && !IsCritical(o.error))
  {
    if block.Some? && HexToInt(block.value.number).Ok? {
      PostErrorsAreStorageErrors(BLOCK, wire);
      if PostReply(BLOCK, wire).Err? {
        StorageChainClass(PostReply(BLOCK, wire).error);
      }
    } else if block.Some? {
      CodecErrorsAreDataErrors(block.value.number);
    }
  }

  // ----------------------------------------------------------------- replies

  /**
   The reply holds this document id where it has to be: in data.<field>, an object or an array starting
   with one, as a string under _docID. Whatever else it holds is ignored.
   */
  predicate Reports(wire: Wire, field: string, docId: string) {
    && wire.Body? && wire.content.Some? && wire.content.value.JObj? && "data" in wire.content.value.members
    && var data := wire.content.value.members["data"];
    && data.JObj? && field in data.members
    && var created := data.members[field];
    && var item := if created.JArr? && created.items != [] then created.items[0] else created;
       item.JObj? && "_docID" in item.members && item.members["_docID"] == JStr(docId)
  }

  lemma DocIdExactly(collection: string, wire: Wire, docId: string)
    ensures PostReply(collection, wire) == Ok(docId) <==> Reports(wire, "create_" + collection, docId)
  {
  }

  lemma CreateFields()
    ensures CREATE + BLOCK == "create_Block" && CREATE + TRANSACTION == "create_Transaction"
    ensures CREATE + ACCESS_LIST_ENTRY == "create_AccessListEntry" && CREATE + LOG == "create_Log"
  {
  }

  /**
   Each Create method succeeds exactly if its arguments pass its checks and the reply reports an id under
   the method's own field, and then it returns that id.
   */
  lemma BlockSucceeds(block: Block, wire: Wire, docId: string)
    ensures CreateBlock(Some(block), wire) == Ok(docId) <==>
              HexToInt(block.number).Ok? && Reports(wire, "create_Block", docId)
  {
    hide HexToInt, PostReply, Reports;
    CreateFields();
    DocIdExactly(BLOCK, wire, docId);
  }

  lemma TransactionSucceeds(tx: Transaction, block_id: string, wire: Wire, docId: string)
    ensures CreateTransaction(Some(tx), block_id, wire) == Ok(docId) <==>
              HexToInt(tx.blockNumber).Ok? && Reports(wire, "create_Transaction", docId)
  {
    hide HexToInt, PostReply, Reports;
    CreateFields();
    DocIdExactly(TRANSACTION, wire, docId);
  }

  lemma EntrySucceeds(entry: AccessListEntry, tx_id: string, wire: Wire, docId: string)
    ensures CreateAccessListEntry(Some(entry), tx_id, wire) == Ok(docId) <==>
              tx_id != "" && Reports(wire, "create_AccessListEntry", docId)
  {
    hide PostReply, Reports;
    CreateFields();
    DocIdExactly(ACCESS_LIST_ENTRY, wire, docId);
  }

  lemma LogSucceeds(log: Log, block_id: string, tx_id: string, wire: Wire, docId: string)
    ensures CreateLog(log, block_id, tx_id, wire) == Ok(docId) <==>
              HexToInt(log.blockNumber).Ok? && block_id != "" && tx_id != "" && Reports(wire, "create_Log", docId)
  {
    hide HexToInt, PostReply, Reports;
    CreateFields();
    DocIdExactly(LOG, wire, docId);
  }

  // ------------------------------------------------------------------ logging

  // What monitoring sees of an error.
  predicate LoggedAs(e: Err, component: string, operation: string, code: string, severity: string, retryable: string) {
    var logCtx := ContextOf(e);
    && {"component", "operation", "error_code", "severity", "retryable"} <= logCtx.Keys
    && logCtx["component"] == Text(component) && logCtx["operation"] == Text(operation)
    && logCtx["error_code"] == Text(code) && logCtx["severity"] == Text(severity) && logCtx["retryable"] == Text(retryable)
  }

  lemma MadeLogged(code: Code, component: string, operation: string, detail: string, input: string, underlying: Option<Err>)
    ensures var (text, severity, retryable) := Logged(code);
            LoggedAs(Make(code, component, operation, detail, input, underlying), component, operation, text, severity, retryable)
  {
    hide Reserved, Logged, Profile;
    var e := Make(code, component, operation, detail, input, underlying);
    assert Reserved(e) + map[] == Reserved(e);
    TextsAsLogged(code);
    ReservedLookup(e, "component");
    ReservedLookup(e, "operation");
    ReservedLookup(e, "error_code");
    ReservedLookup(e, "severity");
    ReservedLookup(e, "retryable");
  }

  /**
   The errors of the four Create methods as monitoring sees them: which check failed, or that the request
   did. A block whose number does not parse is reported by the parser itself.
   */
  lemma BlockErrorsLogged(block: Option<Block>, wire: Wire)
    ensures
      var o := CreateBlock(block, wire);
      o.Err? ==>
        if block.None? then LoggedAs(o.error, "defra", "CreateBlock", "INVALID_BLOCK_FORMAT", "ERROR", "NON_RETRYABLE")
        else if HexToInt(block.value.number).Err? then
          LoggedAs(o.error, "utils", "HexToInt", "INVALID_HEX", "ERROR", "NON_RETRYABLE")
        else LoggedAs(o.error, "defra", "CreateBlock", "QUERY_FAILED", "ERROR", "RETRYABLE")
  {
    hide ParseInt, PostReply, LoggedAs, Make;
    if block.None? {
      MadeLogged(InvalidBlockFormat, "defra", "CreateBlock", "", "<nil>", None);
    } else {
      HexErrorLogged(block.value.number);
      QueryLogged("CreateBlock");
    }
  }

  // The error of PostToCollection that the Create methods wrap, and the one of SendToGraphql inside it.
  lemma PostErrorsLogged(collection: string, wire: Wire)
    ensures PostReply(collection, wire).Err? ==>
              LoggedAs(PostReply(collection, wire).error, "defra", "PostToCollection", "QUERY_FAILED", "ERROR", "RETRYABLE")
    ensures wire.Failed? ==>
              && PostReply(collection, wire).Err? && PostReply(collection, wire).error.underlying.Some?
              && var sent := PostReply(collection, wire).error.underlying.value;
                 && LoggedAs(sent, "defra", "SendToGraphql", "QUERY_FAILED", "ERROR", "RETRYABLE")
                 && sent.underlying == Some(Plain(wire.reason))
  {
    hide LoggedAs, ReplyDocId;
    QueryLogged("PostToCollection");
    QueryLogged("SendToGraphql");
  }

  lemma HexErrorLogged(s: string)
    ensures HexToInt(s).Err? ==> LoggedAs(HexToInt(s).error, "utils", "HexToInt", "INVALID_HEX", "ERROR", "NON_RETRYABLE")
  {
    hide ParseInt, LoggedAs, Make;
    MadeLogged(InvalidHex, "utils", "HexToInt", s, s, None);
    if ParseInt(s, true).Err? {
      MadeLogged(InvalidHex, "utils", "HexToInt", s, s, Some(ParseError(ParseInt(s, true).error)));
    }
  }

  lemma QueryLogged(operation: string)
    ensures forall e: Option<Err> :: LoggedAs(Query(operation, e), "defra", operation, "QUERY_FAILED", "ERROR", "RETRYABLE")
  {
    hide LoggedAs, Make;
    forall e: Option<Err> ensures LoggedAs(Query(operation, e), "defra", operation, "QUERY_FAILED", "ERROR", "RETRYABLE") {
      MadeLogged(QueryFailed, "defra", operation, "", "", e);
    }
  }

  lemma InvalidLogged(operation: string, input: string)
    ensures LoggedAs(Invalid(operation, input), "defra", operation, "INVALID_INPUT_FORMAT", "ERROR", "NON_RETRYABLE")
  {
    hide LoggedAs, Make;
    MadeLogged(InvalidInputFormat, "defra", operation, "", input, None);
  }

  lemma TransactionErrorsLogged(tx: Option<Transaction>, block_id: string, wire: Wire)
    ensures
      var o := CreateTransaction(tx, block_id, wire);
      o.Err? ==>
        if tx.None? then LoggedAs(o.error, "defra", "CreateTransaction", "INVALID_INPUT_FORMAT", "ERROR", "NON_RETRYABLE")
        else if HexToInt(tx.value.blockNumber).Err? then
          LoggedAs(o.error, "defra", "CreateTransaction", "PARSING_FAILED", "ERROR", "NON_RETRYABLE")
        else LoggedAs(o.error, "defra", "CreateTransaction", "QUERY_FAILED", "ERROR", "RETRYABLE")
  {
    hide HexToInt, PostReply, LoggedAs, Make;
    InvalidLogged("CreateTransaction", "tx");
    QueryLogged("CreateTransaction");
    if tx.Some? && HexToInt(tx.value.blockNumber).Err? {
      MadeLogged(ParsingFailed, "defra", "CreateTransaction", "block number", "block number",
                 Some(HexToInt(tx.value.blockNumber).error));
    }
  }

  lemma EntryErrorsLogged(entry: Option<AccessListEntry>, tx_id: string, wire: Wire)
    ensures
      var o := CreateAccessListEntry(entry, tx_id, wire);
      o.Err? ==>
        if entry.None? || tx_id == "" then
          LoggedAs(o.error, "defra", "CreateAccessListEntry", "INVALID_INPUT_FORMAT", "ERROR", "NON_RETRYABLE")
        else LoggedAs(o.error, "defra", "CreateAccessListEntry", "QUERY_FAILED", "ERROR", "RETRYABLE")
  {
    hide PostReply, LoggedAs, Make, Invalid, Query;
    InvalidLogged("CreateAccessListEntry", "accessListEntry");
    InvalidLogged("CreateAccessListEntry", "tx_Id");
    QueryLogged("CreateAccessListEntry");
  }

  lemma LogErrorsLogged(log: Log, block_id: string, tx_id: string, wire: Wire)
    ensures
      var o := CreateLog(log, block_id, tx_id, wire);
      o.Err? ==>
        if HexToInt(log.blockNumber).Err? then
          LoggedAs(o.error, "defra", "CreateLog", "PARSING_FAILED", "ERROR", "NON_RETRYABLE")
        else if block_id == "" || tx_id == "" then
          LoggedAs(o.error, "defra", "CreateLog", "INVALID_INPUT_FORMAT", "ERROR", "NON_RETRYABLE")
        else LoggedAs(o.error, "defra", "CreateLog", "QUERY_FAILED", "ERROR", "RETRYABLE")
  {
    hide HexToInt, PostReply, LoggedAs, Make;
    InvalidLogged("CreateLog", "block_id");
    InvalidLogged("CreateLog", "tx_Id");
    QueryLogged("CreateLog");
    if HexToInt(log.blockNumber).Err? {
      var input := "block number: " + log.blockNumber;
      MadeLogged(ParsingFailed, "defra", "CreateLog", input, input, Some(HexToInt(log.blockNumber).error));
    }
  }
}
