/** What the ingest pipeline sends: which calls send a request at all, and what arrives when one does. */
module IngestRequests {
  import opened Wrappers
  import opened Strconv
  import opened Errors
  import opened Hex
  import opened Types
  import opened Geth
  import opened StringLiterals
  import opened Mutation
  import opened Envelope
  import opened BlockHandler
  import opened Columns
  import opened ReadBack
  import opened Requests
  import opened RetryControl
  import opened Ingest
  import opened IngestInvariant
  import opened IngestSteps
  import EthereumClient

  // ------------------------------------------------------- numbers out of range

  ghost predicate Holds(s: Store, g: Block, number: int) {
    exists id :: id in s.blocks && s.blocks[id].block == BuildBlock(g) && s.blocks[id].number == number
  }

  // Some run stores this block under this number.
  ghost predicate CanBeStored(g: Block, number: int) {
    exists n, steps :: ValidRun(n, steps) && Holds(Final(n, steps).store, g, number)
  }

  /**
   A block can get into the store exactly if the low 64 bits of its number are below 2^63, and then
   under those bits; so a number from 2^63 to 2^64 - 1 writes nothing, but a larger one may be stored.
   */
  lemma StoredExactlyBelow2To63(b: GethBlock, number: int)
    requires RenderedBlock(b) && EthereumClient.Indexable(b)
    ensures CanBeStored(EthereumClient.BlockOf(b), number) <==> NumberU64(b) < TWO_63 && number == NumberU64(b)
  {
    hide ValidRun, Final, ParsedNumber, PhaseTrue, PendingTrue, StoreTrue;
    var g := EthereumClient.BlockOf(b);
    NumberOfDecimal(NumberU64(b));
    if CanBeStored(g, number) {
      var n, steps :| ValidRun(n, steps) && Holds(Final(n, steps).store, g, number);
      RunKeeps(n, steps);
    }
    if NumberU64(b) < TWO_63 {
      StoringRun(b);
    }
  }

  const LOST := Failed("connection reset")

  lemma StoringRun(b: GethBlock)
    requires RenderedBlock(b) && EthereumClient.Indexable(b) && ParsedNumber(EthereumClient.BlockOf(b).number).Some?
    ensures CanBeStored(EthereumClient.BlockOf(b), ParsedNumber(EthereumClient.BlockOf(b).number).value)
  {
    hide ParsedNumber, EthereumClient.BlockOf, Sends;
    BlockSends(EthereumClient.BlockOf(b));
    var g := EthereumClient.BlockOf(b);
    var s0, s1 := Initial(1), State(Initial(1).store, [PostBlock(g, 0)]);
    assert s0.pollers[0 := PostBlock(g, 0)] == [PostBlock(g, 0)];
    RunSnoc(1, [], Step(0, NodeBlock(Some(b))));
    FailedReply(PostBlock(g, 0));
    var lost := Step(0, Exchange(Some("bae"), LOST));
    assert Enabled(s1, lost);
    var run := [] + [Step(0, NodeBlock(Some(b)))];
    RunSnoc(1, run, lost);
    var store := Final(1, run + [lost]).store;
    assert "bae" in store.blocks && store.blocks["bae"].block == BuildBlock(g);
    assert Holds(store, g, ParsedNumber(g.number).value);
  }

  lemma BlockSends(g: Block)
    ensures forall attempts :: Sends(PostBlock(g, attempts)) <==> ParsedNumber(g.number).Some?
  {
  }

  // A call whose exchange fails returns an error, whatever the store did.
  lemma FailedReply(phase: Phase)
    requires InRange(phase) && Posting(phase)
    ensures Returned(phase, LOST).Err?
  {
  }

  /**
   A poller that got a block whose number text is out of range makes one call, which sends nothing
   and changes nothing, and is done with the block.
   */
  lemma OutOfRangeBlockIsDropped(s: State, p: nat, b: GethBlock, committed: Option<DocId>, wire: Wire)
    requires Enabled(s, Step(p, Exchange(committed, wire))) && EthereumClient.Indexable(b)
    requires s.pollers[p].PostBlock? && s.pollers[p].g == EthereumClient.BlockOf(b) && NumberU64(b) >= TWO_63
    ensures committed == None && Apply(s, Step(p, Exchange(committed, wire))) == State(s.store, s.pollers[p := Idle])
  {
    hide BuildBlock, PlainText, EntryIds, LogIds, Sends, Commit, Fresh, Unique;
    NumberOfDecimal(NumberU64(b));
    BlockSends(s.pollers[p].g);
    CreateBlockErrors(Some(BuildBlock(s.pollers[p].g)), wire);
    BuiltNumber(s.pollers[p].g);
  }

  lemma BuiltNumber(g: Block)
    ensures BuildBlock(g).number == g.number && BuildBlock(g).hash == g.hash
  {
  }

  // A transaction carries the block's full number, so it is sent exactly if that is below 2^63.
  lemma TransactionSentExactly(b: GethBlock, blockId: DocId, i: nat)
    requires EthereumClient.Indexable(b) && i < |b.transactions|
    ensures Sends(PostTx(EthereumClient.BlockOf(b), blockId, i)) <==> b.number < TWO_63
  {
    NumberOfDecimal(b.number);
  }

  // Hexadecimal text of so many digits, as the Hex methods of hashes (64) and addresses (40) render it.
  function HexText(digit: char, digits: nat): string {
    "0x" + seq(digits, i => digit)
  }

  const SOME_HASH := Hash(HexText('a', 64))
  const SOME_ADDRESS := Address("0xdAC17F958D2ee523a2206206994597C13D831ec7")

  // A plain transfer.
  const WRAPPED_TX := GethTransaction(
    Hash(HexText('c', 64)), LEGACY_TX, 1, 1, 1, 0, 21000, [], 0, Some(SOME_ADDRESS), [Some(SOME_ADDRESS)], Some(1), 37, 1, 1,
    None)

  // A block numbered 2^64 with that transaction in it.
  const WRAPPED := GethBlock(
    SOME_HASH, TWO_64, 1, Hash(HexText('d', 64)), 0, 21000, 30000000, None, 0, SOME_ADDRESS, 1000, SOME_HASH, SOME_HASH,
    SOME_HASH, SOME_HASH, seq(256, i => 0), [], SOME_HASH, [], [WRAPPED_TX])

  /**
   The guarantee "a block numbered 2^63 or more writes nothing" fails for this one, whose hashes,
   addresses and bloom have the lengths they always have: numbered 2^64, it can be stored, as block 0
   and as no other, while its transaction cannot be sent.
   */
  lemma WrappedNumberIsStored()
    ensures WRAPPED.number >= TWO_63 && RenderedBlock(WRAPPED) && EthereumClient.Indexable(WRAPPED)
    ensures |SOME_HASH.hex| == |WRAPPED.parentHash.hex| == |WRAPPED_TX.hash.hex| == 66 && |SOME_ADDRESS.hex| == 42
    ensures |WRAPPED.bloom| == 256 && |WRAPPED.transactions| == 1
    ensures forall number :: CanBeStored(EthereumClient.BlockOf(WRAPPED), number) <==> number == 0
    ensures forall blockId :: !Sends(PostTx(EthereumClient.BlockOf(WRAPPED), blockId, 0))
  {
    hide CanBeStored, Sends, EthereumClient.BlockOf, HexText;
    WrappedIsRendered();
    forall number ensures CanBeStored(EthereumClient.BlockOf(WRAPPED), number) <==> number == 0 {
      StoredExactlyBelow2To63(WRAPPED, number);
    }
    forall blockId
      ensures 0 < |EthereumClient.BlockOf(WRAPPED).transactions| && !Sends(PostTx(EthereumClient.BlockOf(WRAPPED), blockId, 0))
    {
      TransactionSentExactly(WRAPPED, blockId, 0);
    }
  }

  lemma WrappedIsRendered()
    ensures RenderedBlock(WRAPPED)
    ensures |SOME_HASH.hex| == |WRAPPED.parentHash.hex| == |WRAPPED_TX.hash.hex| == 66 && |SOME_ADDRESS.hex| == 42
    ensures |EthereumClient.BlockOf(WRAPPED).transactions| == 1
  {
    hide IsHexText;
    MixedCaseIsHex();
    forall digit, digits: nat | IsHexChar(digit) ensures IsHexText(HexText(digit, digits)) {
      HexTextIsHex(digit, digits);
    }
  }

  lemma MixedCaseIsHex()
    ensures IsHexText(SOME_ADDRESS.hex) && |SOME_ADDRESS.hex| == 42
  {
  }

  lemma HexTextIsHex(digit: char, digits: nat)
    requires IsHexChar(digit)
    ensures IsHexText(HexText(digit, digits)) && |HexText(digit, digits)| == digits + 2
  {
  }

  // --------------------------------------------------------- requests in flight

  // The collection and the columns that the call of this phase sends.
  function Request(phase: Phase): (string, Fields)
    requires InRange(phase) && Posting(phase) && Sends(phase)
  {
    match phase
    case PostBlock(g, _) => (BLOCK, BlockColumns(BuildBlock(g), ParsedNumber(g.number).value))
    case PostTx(g, blockId, i) =>
      (TRANSACTION, TransactionColumns(g.transactions[i], ParsedNumber(g.transactions[i].blockNumber).value, blockId))
    case PostEntry(g, _, i, txId, _, j) => (ACCESS_LIST_ENTRY, EntryColumns(g.transactions[i].accessList[j], txId))
    case PostLog(_, blockId, _, txId, receipt, k) =>
      (LOG, LogColumns(receipt.logs[k], ParsedNumber(receipt.logs[k].blockNumber).value, blockId, txId))
  }

  /**
   A call that does not pass its checks fails the same way whatever the server would say; one that
   does returns exactly the document id in the server's reply, or an error if there is none.
   */
  lemma CallFollowsReply(phase: Phase, wire: Wire, other: Wire)
    requires InRange(phase) && Posting(phase)
    ensures !Sends(phase) ==> Returned(phase, wire).Err? && Returned(phase, other) == Returned(phase, wire)
    ensures Sends(phase) ==>
              match PostReply(Request(phase).0, wire)
              case Ok(id) => Returned(phase, wire) == Ok(id)
              case Err(e) => Returned(phase, wire).Err? && Returned(phase, wire).error.underlying == Some(e)
  {
    hide PostReply, HexToInt, BuildBlock, BlockColumns, TransactionColumns, EntryColumns, LogColumns;
    if phase.PostBlock? {
      BuiltNumber(phase.g);
    }
  }

  // The columns of the document that a commit in this phase adds to the store.
  function NewColumns(s: Store, phase: Phase, id: DocId): Fields {
    match phase
    case PostBlock(_, _) => if id in s.blocks then BlockColumns(s.blocks[id].block, s.blocks[id].number) else map[]
    case PostTx(_, _, _) =>
      if id in s.txs then TransactionColumns(s.txs[id].tx, s.txs[id].number, s.txs[id].block_id) else map[]
    case PostEntry(_, _, _, _, _, _) =>
      if s.entries == [] then map[] else var d := s.entries[|s.entries| - 1]; EntryColumns(d.entry, d.transaction_id)
    case PostLog(_, _, _, _, _, _) =>
      if s.logs == [] then map[]
      else var d := s.logs[|s.logs| - 1]; LogColumns(d.log, d.number, d.block_id, d.transaction_id)
    case _ => map[]
  }

  // The collection a call is for, by its name in the schema.
  function CollectionOf(phase: Phase): string
    requires Posting(phase)
  {
    match phase
    case PostBlock(_, _) => "Block"
    case PostTx(_, _, _) => "Transaction"
    case PostEntry(_, _, _, _, _, _) => "AccessListEntry"
    case PostLog(_, _, _, _, _, _) => "Log"
  }

  // The columns that collection's documents are created with.
  function ColumnsOf(phase: Phase): set<string>
    requires Posting(phase)
  {
    match phase
    case PostBlock(_, _) => BLOCK_COLUMNS
    case PostTx(_, _, _) => TRANSACTION_COLUMNS
    case PostEntry(_, _, _, _, _, _) => ENTRY_COLUMNS
    case PostLog(_, _, _, _, _, _) => LOG_COLUMNS
  }

  lemma RequestNamed(phase: Phase)
    requires InRange(phase) && Posting(phase) && Sends(phase)
    ensures Request(phase).0 == CollectionOf(phase) && Request(phase).1.Keys == ColumnsOf(phase)
  {
    hide ParsedNumber, BuildBlock, BlockColumns, TransactionColumns, EntryColumns, LogColumns, BlockFrom, TransactionFrom,
      EntryFrom, LogFrom, TextAt, FormatInt;
    match phase
    case PostBlock(g, _) => BlockColumnsHoldBlock(BuildBlock(g), ParsedNumber(g.number).value);
    case PostTx(g, blockId, i) =>
      TransactionColumnsHoldTransaction(g.transactions[i], ParsedNumber(g.transactions[i].blockNumber).value, blockId);
    case PostEntry(g, _, i, txId, _, j) => EntryColumnsHoldEntry(g.transactions[i].accessList[j], txId);
    case PostLog(_, blockId, _, txId, receipt, k) =>
      LogColumnsHoldLog(receipt.logs[k], ParsedNumber(receipt.logs[k].blockNumber).value, blockId, txId);
  }

  // A call succeeds exactly if it passes its checks and the reply reports an id for its collection, which it returns.
  lemma CallSucceedsExactly(phase: Phase, wire: Wire, id: DocId)
    requires InRange(phase) && Posting(phase)
    ensures Returned(phase, wire) == Ok(id) <==> Sends(phase) && Reports(wire, "create_" + CollectionOf(phase), id)
  {
    hide HexToInt, Reports, CreateBlock, CreateTransaction, CreateAccessListEntry, CreateLog, BuildBlock;
    assert "create_" + "Block" == "create_Block" && "create_" + "Transaction" == "create_Transaction";
    assert "create_" + "AccessListEntry" == "create_AccessListEntry" && "create_" + "Log" == "create_Log";
    match phase
    case PostBlock(g, _) =>
      BuiltNumber(g);
      BlockSucceeds(BuildBlock(g), wire, id);
    case PostTx(g, blockId, i) => TransactionSucceeds(g.transactions[i], blockId, wire, id);
    case PostEntry(g, _, i, txId, _, j) => EntrySucceeds(g.transactions[i].accessList[j], txId, wire, id);
    case PostLog(_, blockId, _, txId, receipt, k) => LogSucceeds(receipt.logs[k], blockId, txId, wire, id);
  }

  // The two shapes of a reply that report an id, whatever members the objects have besides.
  lemma RepliesReport(field: string, id: DocId, item: map<string, Json>, others: seq<Json>, data: map<string, Json>,
          reply: map<string, Json>)
    ensures
      var created := JObj(item["_docID" := JStr(id)]);
      && Reports(Body(Some(JObj(reply["data" := JObj(data[field := created])]))), field, id)
      && Reports(Body(Some(JObj(reply["data" := JObj(data[field := JArr([created] + others)])]))), field, id)
  {
  }

  // The id is not in use, and the document's hash is not in the store if its collection has a unique index on it.
  predicate Admissible(s: Store, phase: Phase, id: DocId)
    requires InRange(phase)
  {
    && id != "" && (forall i | 0 <= i < |id| :: ' ' <= id[i] <= '~')
    && id !in s.blocks && id !in s.txs
    && (forall i | 0 <= i < |s.entries| :: s.entries[i].id != id) && (forall i | 0 <= i < |s.logs| :: s.logs[i].id != id)
    && (phase.PostBlock? ==> forall b | b in s.blocks :: s.blocks[b].block.hash != phase.g.hash)
    && (phase.PostTx? ==> forall t | t in s.txs :: s.txs[t].tx.hash != phase.g.transactions[phase.i].hash)
  }

  lemma AdmissibleFits(s: Store, phase: Phase, id: DocId)
    requires InRange(phase) && Admissible(s, phase, id)
    ensures Fresh(s, id) && Unique(s, phase)
  {
  }

  // The request is committed during its call, and the call is answered this way.
  lemma CommittedNow(s: State, p: nat, id: DocId, wire: Wire)
    requires p < |s.pollers| && InRange(s.pollers[p]) && Posting(s.pollers[p]) && Sends(s.pollers[p])
    requires Fresh(s.store, id) && Unique(s.store, s.pollers[p])
    requires Returned(s.pollers[p], wire).Ok? ==> Returned(s.pollers[p], wire) == Ok(id)
    ensures Enabled(s, Step(p, Exchange(Some(id), wire)))
    ensures
      var t := Apply(s, Step(p, Exchange(Some(id), wire))).store;
      NewColumns(t, s.pollers[p], id) == Request(s.pollers[p]).1
  {
    hide Next, Sends, Returned, Unique, Fresh, Request, Exchanged;
    CommitShows(s.store, p, s.pollers[p], id, Returned(s.pollers[p], wire));
  }

  lemma CommitShows(s: Store, p: nat, phase: Phase, id: DocId, outcome: Result<DocId, Err>)
    requires InRange(phase) && Posting(phase) && Sends(phase)
    ensures NewColumns(Exchanged(s, p, phase, Some(id), outcome), phase, id) == Request(phase).1
  {
    hide ParsedNumber, BlockColumns, TransactionColumns, EntryColumns, LogColumns, BuildBlock;
  }

  // The request is refused, stays in flight, and is committed after the call has failed.
  lemma CommittedLater(s: State, p: nat, id: DocId, wire: Wire)
    requires p < |s.pollers| && InRange(s.pollers[p]) && Posting(s.pollers[p]) && Sends(s.pollers[p])
    requires Fresh(s.store, id) && Unique(s.store, s.pollers[p]) && Returned(s.pollers[p], wire).Err?
    ensures Enabled(s, Step(p, Exchange(None, wire)))
    ensures
      var t := Apply(s, Step(p, Exchange(None, wire)));
      && |t.store.pending| > 0
      && var landing := Step(p, Land(|t.store.pending| - 1, id));
         Enabled(t, landing) && NewColumns(Apply(t, landing).store, s.pollers[p], id) == Request(s.pollers[p]).1
  {
    hide Next, Sends, Returned, Unique, Fresh, Request, Exchanged, Landed;
    RefusedCanLand(s.store, p, s.pollers[p], id, Returned(s.pollers[p], wire));
    NextInRange(s.pollers[p], Returned(s.pollers[p], wire));
  }

  // Nothing a refused request needs has changed.
  lemma RefusedCanLand(s: Store, p: nat, phase: Phase, id: DocId, outcome: Result<DocId, Err>)
    requires InRange(phase) && Posting(phase) && Sends(phase) && Fresh(s, id) && Unique(s, phase) && outcome.Err?
    ensures
      var t := Exchanged(s, p, phase, None, outcome);
      && |t.pending| > 0 && t.pending[|t.pending| - 1] == InFlight(p, phase)
      && LandEnabled(t, p, |t.pending| - 1, id)
      && NewColumns(Landed(t, |t.pending| - 1, id), phase, id) == Request(phase).1
  {
    hide ParsedNumber, PlainText, BuildBlock, Sends, BlockColumns, TransactionColumns, EntryColumns, LogColumns, Request, Commit;
    CommitsRequest(Exchanged(s, p, phase, None, outcome), p, phase, id);
  }

  lemma NextInRange(phase: Phase, outcome: Result<DocId, Err>)
    requires InRange(phase) && Posting(phase)
    ensures InRange(Next(phase, outcome))
  {
    hide Decide;
  }

  /**
   The store has all four choices for every admissible request: refuse it, commit it and answer, commit
   it and lose the answer, or commit it after the call has failed; and the exchange may fail in any way.
   The call reports the id exactly if the answer does. Whichever way it is committed, the document holds
   the columns sent.
   */
  lemma FourOutcomes(s: State, p: nat, id: DocId, reply: Wire, failing: Wire)
    requires p < |s.pollers| && InRange(s.pollers[p]) && Posting(s.pollers[p]) && Sends(s.pollers[p])
    requires Admissible(s.store, s.pollers[p], id)
    requires Reports(reply, "create_" + CollectionOf(s.pollers[p]), id)
    requires forall other :: !Reports(failing, "create_" + CollectionOf(s.pollers[p]), other)
    ensures
      var phase := s.pollers[p];
      var answered, lost, refused := Step(p, Exchange(Some(id), reply)), Step(p, Exchange(Some(id), failing)),
                                     Step(p, Exchange(None, failing));
      && Returned(phase, reply) == Ok(id) && Returned(phase, failing).Err?
      && Enabled(s, answered) && NewColumns(Apply(s, answered).store, phase, id) == Request(phase).1
      && Enabled(s, lost) && NewColumns(Apply(s, lost).store, phase, id) == Request(phase).1
      && Enabled(s, refused)
      && var t := Apply(s, refused);
         && |t.store.pending| > 0
         && var landing := Step(p, Land(|t.store.pending| - 1, id));
            Enabled(t, landing) && NewColumns(Apply(t, landing).store, phase, id) == Request(phase).1
  {
    hide Enabled, Apply, Sends, Returned, Admissible, Reports, Unique, Fresh, NewColumns, Request;
    var phase := s.pollers[p];
    AdmissibleFits(s.store, phase, id);
    CallSucceedsExactly(phase, reply, id);
    if Returned(phase, failing).Ok? {
      CallSucceedsExactly(phase, failing, Returned(phase, failing).value);
    }
    CommittedNow(s, p, id, reply);
    CommittedNow(s, p, id, failing);
    CommittedLater(s, p, id, failing);
  }

  /**
   Nothing else is ruled out either: at any moment any poller may crash, an idle one may get any block or
   none, and one that waits for a receipt may get any or none.
   */
  lemma NodeIsFree(s: State, p: nat, block: Option<GethBlock>, receipt: Option<GethReceipt>)
    requires p < |s.pollers| && InRange(s.pollers[p])
    requires block.Some? ==> RenderedBlock(block.value) && EthereumClient.Indexable(block.value)
    requires receipt.Some? ==> RenderedReceipt(receipt.value)
    ensures Enabled(s, Step(p, Crash)) && Apply(s, Step(p, Crash)) == State(s.store, s.pollers[p := Idle])
    ensures s.pollers[p].Idle? ==>
              && Enabled(s, Step(p, NodeBlock(block)))
              && Apply(s, Step(p, NodeBlock(block))) ==
                   if block.None? then s
                   else State(s.store, s.pollers[p := PostBlock(EthereumClient.BlockOf(block.value), 0)])
    ensures s.pollers[p].FetchReceipt? ==> Enabled(s, Step(p, NodeReceipt(receipt)))
  {
    hide EthereumClient.BlockOf, RenderedBlock, RenderedReceipt;
    assert s.pollers[p].Idle? ==> s.pollers[p := Idle] == s.pollers;
  }

  lemma CollectionNames()
    ensures IsName(CREATE + BLOCK) && IsName(CREATE + TRANSACTION) && IsName(CREATE + LOG)
  {
    assert IsName(BLOCK) && IsName(TRANSACTION) && IsName(LOG);
    NamePrefixed(BLOCK);
    NamePrefixed(TRANSACTION);
    NamePrefixed(LOG);
  }

  lemma EntryCollectionName()
    ensures IsName(CREATE + ACCESS_LIST_ENTRY)
  {
    assert IsName(ACCESS_LIST_ENTRY);
    NamePrefixed(ACCESS_LIST_ENTRY);
  }

  lemma NamePrefixed(name: string)
    requires IsName(name)
    ensures IsName(CREATE + name)
  {
    assert IsName(CREATE);
  }

  lemma RequestSendable(s: Store, p: nat, phase: Phase)
    requires Posting(phase) && ((PhaseTrue(s, p, phase) && Sends(phase)) || InFlightTrue(s, p, phase))
    ensures IsName(CREATE + Request(phase).0) && Sendable(Request(phase).1)
  {
    hide ParsedNumber, IsName, Sendable, PlainText, PlainBlock, PlainTransaction, PlainEntry, PlainLog,
      BlockColumns, TransactionColumns, EntryColumns, LogColumns;
    CollectionNames();
    EntryCollectionName();
    match phase
    case PostBlock(g, _) =>
      BuiltIsPlain(g);
      BlockColumnsSendable(BuildBlock(g), ParsedNumber(g.number).value);
    case PostTx(g, blockId, i) =>
      assert CoherentTransaction(g, g.transactions[i]);
      TransactionColumnsSendable(g.transactions[i], ParsedNumber(g.transactions[i].blockNumber).value, blockId);
    case PostEntry(g, _, i, txId, _, j) =>
      assert CoherentTransaction(g, g.transactions[i]);
      EntryColumnsSendable(g.transactions[i].accessList[j], txId);
    case PostLog(_, blockId, _, txId, receipt, k) =>
      LogColumnsSendable(receipt.logs[k], ParsedNumber(receipt.logs[k].blockNumber).value, blockId, txId);
  }

  lemma BuiltIsPlain(g: Block)
    requires PlainBlock(g)
    ensures PlainBlock(BuildBlock(g))
  {
    assert PlainText("");
  }

  // Poller p is about to send the request of this phase, or has sent it and it may still be committed.
  ghost predicate OnTheWay(s: State, p: nat, phase: Phase) {
    || (p < |s.pollers| && s.pollers[p] == phase && InRange(phase) && Posting(phase) && Sends(phase))
    || InFlight(p, phase) in s.store.pending
  }

  lemma OnTheWaySends(s: State, p: nat, phase: Phase)
    requires Inv(s) && OnTheWay(s, p, phase)
    ensures InRange(phase) && Posting(phase) && Sends(phase)
    ensures PhaseTrue(s.store, p, phase) || InFlightTrue(s.store, p, phase)
  {
    hide StoreTrue, Numbered, PhaseTrue, Sends, OwnsTx, OwnsBlock;
    if InFlight(p, phase) in s.store.pending {
      var i :| 0 <= i < |s.store.pending| && s.store.pending[i] == InFlight(p, phase);
      assert InFlightTrue(s.store, p, phase);
    }
  }

  /**
   Requests in flight are read as intended: in every reachable state, whatever request a poller is
   about to send or has on its way, the body it posts decodes and parses to exactly the collection it is
   meant for, with all columns of that collection and no other, holding what the document that the store
   adds for it holds, in whatever order they were printed.
   */
  lemma RequestArrivesAsStored(n: nat, steps: seq<Step>, p: nat, phase: Phase, order: seq<string>, w: Writer, id: DocId)
    requires ValidRun(n, steps) && OnTheWay(Final(n, steps), p, phase) && Sound(w)
    ensures InRange(phase) && Posting(phase) && Sends(phase)
    ensures
      var (collection, columns) := Request(phase);
      && (Visits(order, columns) ==>
            Deliver(RequestBody(MutationText(collection, FieldTexts(order, columns, w)))) ==
              Some((CollectionOf(phase), columns)))
      && columns.Keys == ColumnsOf(phase)
      && NewColumns(Commit(Final(n, steps).store, p, phase, id), phase, id) == columns
  {
    hide ValidRun, Final, ParsedNumber, StoreTrue, PhaseTrue, PendingTrue, InFlightTrue, OnTheWay, BlockColumns,
      TransactionColumns, EntryColumns, LogColumns, Deliver, RequestBody, MutationText, FieldTexts, IsName, Sendable, Visits,
      Sound, Sends, Request, CollectionOf, ColumnsOf;
    RunKeeps(n, steps);
    OnTheWaySends(Final(n, steps), p, phase);
    RequestSendable(Final(n, steps).store, p, phase);
    CommitsRequest(Final(n, steps).store, p, phase, id);
    RequestNamed(phase);
    if Visits(order, Request(phase).1) {
      ColumnsArrive(Request(phase).0, Request(phase).1, order, w);
    }
  }

  lemma CommitsRequest(s: Store, p: nat, phase: Phase, id: DocId)
    requires InRange(phase) && Posting(phase) && Sends(phase)
    ensures NewColumns(Commit(s, p, phase, id), phase, id) == Request(phase).1
  {
    hide ParsedNumber, BlockColumns, TransactionColumns, EntryColumns, LogColumns, BuildBlock;
  }

  // -------------------------------------------------------- from node to columns

  /**
   End to end: the columns stored for a block hold what the node said, through conversion, rebuilding
   and column printing. Only the three fields that the rebuilding leaves out are empty.
   */
  lemma StoredBlockReadsBack(b: GethBlock, n: int64)
    requires EthereumClient.Indexable(b) && ParsedNumber(EthereumClient.BlockOf(b).number) == Some(n)
    ensures
      var g := BlockFrom(BlockColumns(BuildBlock(EthereumClient.BlockOf(b)), n));
      && n == NumberU64(b) && DecimalOf(g.number) == Some(n)
      && DecimalOf(g.timestamp) == Some(b.time) && DecimalOf(g.difficulty) == Some(b.difficulty)
      && DecimalOf(g.gasUsed) == Some(b.gasUsed) && DecimalOf(g.gasLimit) == Some(b.gasLimit)
      && DecimalOf(g.size) == Some(b.size)
      && Unsigned(g.nonce) == b.nonce && Spells(g.logsBloom, b.bloom) && Spells(g.extraData, b.extra)
      && (Hash(g.hash), Hash(g.parentHash)) == (b.hash, b.parentHash)
      && (Hash(g.stateRoot), Hash(g.transactionsRoot), Hash(g.receiptsRoot)) == (b.root, b.txHash, b.receiptHash)
      && (Hash(g.sha3Uncles), Address(g.miner)) == (b.uncleHash, b.coinbase)
      && (g.totalDifficulty, g.baseFeePerGas, g.mixHash, g.uncles) == ("", "", "", None)
  {
    hide DecimalOf, Spells, FormatInt, BlockColumns, BlockFrom, ParsedNumber, Bytes2Hex;
    var built := BuildBlock(EthereumClient.BlockOf(b));
    BlockColumnsHoldBlock(built, n);
    BlockReadsBack(b);
    NumberOfDecimal(NumberU64(b));
  }

  // The same for a transaction that is sent.
  lemma StoredTransactionReadsBack(b: GethBlock, i: nat, n: int64, block_id: DocId)
    requires EthereumClient.Indexable(b) && i < |b.transactions| && ParsedNumber(FormatInt(b.number, 10)) == Some(n)
    ensures
      var tx := b.transactions[i];
      var t := TransactionFrom(TransactionColumns(EthereumClient.BlockOf(b).transactions[i], n, block_id));
      && n == b.number && DecimalOf(t.blockNumber) == Some(n) && t.transactionIndex == i
      && DecimalOf(t.value) == Some(tx.value) && DecimalOf(t.gas) == Some(tx.gas)
      && DecimalOf(t.txType) == Some(tx.txType)
      && DecimalOf(t.chainId) == tx.chainId && Unsigned(t.nonce) == tx.nonce && Spells(t.input, tx.data)
      && DecimalOf(t.v) == Some(tx.v) && DecimalOf(t.r) == Some(tx.r) && DecimalOf(t.s) == Some(tx.s)
      && (Hash(t.hash), Hash(t.blockHash)) == (tx.hash, b.hash)
      && Address(t.from) == EthereumClient.FromAddress(tx.recovered)
      && (tx.to.Some? ==> Address(t.to) == tx.to.value) && (tx.to.None? ==> t.to == "") && t.status
      && (if tx.txType == 2 then
            DecimalOf(t.gasPrice) == DecimalOf(t.maxFeePerGas) == Some(tx.gasFeeCap)
            && DecimalOf(t.maxPriorityFeePerGas) == Some(tx.gasTipCap)
          else
            DecimalOf(t.gasPrice) == Some(tx.gasPrice)
            && DecimalOf(t.maxFeePerGas) == DecimalOf(t.maxPriorityFeePerGas) == None)
      && (t.gasUsed, t.cumulativeGasUsed, t.effectiveGasPrice) == ("", "", "")
  {
    hide DecimalOf, Spells, FormatInt, TransactionColumns, TransactionFrom, ParsedNumber, Bytes2Hex,
      EthereumClient.FromAddress, EthereumClient.AccessListOf, TuplesOf;
    TransactionColumnsHoldTransaction(EthereumClient.BlockOf(b).transactions[i], n, block_id);
    TransactionReadsBack(b.transactions[i], b, i);
    NumberOfDecimal(b.number);
  }
}
