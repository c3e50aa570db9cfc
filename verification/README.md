# Verified model of the Shinzo block indexer

The indexer polls an Ethereum node for its latest block and writes the block, its transactions, their
access list entries and their logs into DefraDB with GraphQL mutations. This project models that
pipeline in Dafny 4.11 and proves what it guarantees when the node and the store can fail at any call
and any number of indexer processes run at the same time. `dafny verify dfyconfig.toml` checks
everything.

## How it is organised

Reading order, from the bottom up:

- `Strconv`, `Hex`, `Float64`: number printing and parsing, with the digit loop and overflow cutoff of
  `strconv`, and binary64 rounding of JSON integers.
- `Errors`, `RetryControl`, `Retry`: error chains and their classifiers, the retry loop of
  `createBlockWithRetry` for arbitrary errors, and the generic retry helper.
- `Types`, `Geth`, `EthereumClient`, `Conversion`, `ReadBack`: records, converters (the second
  implementation is `Conversion`), the walk-back to a readable block, and decoders for what the
  converters print.
- `StringLiterals`, `Mutation`, `Envelope`: the printed mutation and its JSON envelope, against a lexer
  and parser for the GraphQL fragment (October 2021 edition, sections 2.9.1, 2.9.3, 2.9.4, 2.9.5, 2.9.7
  and 2.9.8) and for JSON strings (section 7 of RFC 8259).
- `BlockHandler`, `BlockRetry`, `Columns`, `Requests`, `Highest`: the DefraDB client method by method, its
  errors composed with the retry loop, the columns it sends, and the highest-block query.
- `Ingest`, `IngestInvariant`, `IngestSteps`, `IngestSafety`, `IngestRequests`, `IngestReach`: the whole
  pipeline as a state machine, its inductive invariant, the proof that every step keeps it, the
  guarantees, the requests it sends, and what it can always still attain.
- `BlockPoster`: the imperative code of the poller, method by method, moving through that machine while
  other pollers interfere.

## The store and the node

The state machine has four collections, document ids that are fresh, non-empty and printable ASCII, and
unique indexes on the hashes of blocks and transactions. A create request may be refused, committed and
answered, committed with the answer lost, or left in flight and committed at any later time, also after
its poller has moved on or crashed; the server never reports an id it did not commit. A poller may crash
between any two calls and start again. Documents carry one field that is not a column, `poller`, naming
the process whose request created them; the store also keeps history that no code reads: reported block
creations, fetched receipts, which child creates were committed, and whether any commit came late.
Creation order is claimed for runs without late commits (`IngestSafety.Prompt`); everything else holds
for all runs.

The node answers each request with an arbitrary value. Hashes and addresses are represented by the text
their `Hex` methods render, which is assumed to consist of hexadecimal digits and `x` (`RenderedBlock`,
`RenderedReceipt`). Time is a count of nanoseconds slept.

## Where the code and its description differ

- The comment on `HexToInt` promises hexadecimal "with or without 0x prefix". Without the prefix the text
  is read as decimal (`Hex.UnprefixedHexIsDecimal` says exactly when the two agree).
- A block's own number column holds the low 64 bits of the header number, while its transactions carry
  the full number. "A block numbered 2^63 or more writes nothing" is therefore true exactly when the low
  64 bits are 2^63 or more (`IngestRequests.StoredExactlyBelow2To63`); `IngestRequests.WrappedNumberIsStored`
  is the counterexample.
- The two receipt converters disagree on the contract columns, on counters of 2^63 or more, on a missing
  block number and on statuses above 1 (`Conversion.ReceiptConvertersAgree`).

## Model

| member | source | states |
|---|---|---|
| `IngestSafety.ChildrenAtMostOnce` | cmd/block_poster/main.go:143-197 | over every run, late commits included, a Transaction document's Log documents are logs of its one fetched receipt and none is stored more often than the receipt has it; likewise access list entries; without late commits both are subsequences in creation order; one Transaction document per hash |
| `IngestSafety.ChildrenExactlyTheCommitted` | cmd/block_poster/main.go:171-197 | children stored are exactly those whose create was committed, so they are the whole lists if every create was made and committed; in order too without late commits |
| `IngestSafety.FinishedIsFinal` | cmd/block_poster/main.go:135-140 | once all entries and logs of a transaction were tried, no later call of any poller adds to its children; only its own requests still in flight can |
| `IngestSafety.RunGrowsHistory` | cmd/block_poster/main.go:155-167 | a fetched receipt is never replaced, what was tried stays tried and what was committed stays committed |
| `IngestSafety.OneFetchPerTransaction` | cmd/block_poster/main.go:155-161 | over the steps of a run, at most one receipt is fetched for each Transaction document |
| `IngestSafety.OneCallPerChild` | cmd/block_poster/main.go:171-197 | over the steps of a run, at most one create call is made for each access list entry and each log of a Transaction document |
| `IngestSafety.OneCallPerTransaction` | cmd/block_poster/main.go:136-145 | over the steps of a run, at most one create call is made for each transaction under each Block document |
| `IngestSafety.OneSuccessPerBlock` | cmd/block_poster/main.go:77-85 | at most one create per block hash ever reports success; every stored descendant, every poller about to post or fetch under a block, and every request in flight under it belongs to the poller it was reported to |
| `IngestSafety.LostBlockStaysChildless` | cmd/block_poster/main.go:95-133 | a Block whose reply was lost has no children in any later state, and no create for its hash ever succeeds |
| `IngestSafety.LostReplyIsFinal` | cmd/block_poster/main.go:95-133 | whichever way a Block document is committed without its poller being told, from that step on it is never reported, no create for its hash succeeds, and it has no transactions or logs |
| `IngestSafety.ReferencesResolve` | pkg/defra/block_handler.go:90-181 | every reference resolves, a log's block is its transaction's block, and a transaction's blockHash and blockNumber are its block's hash and number |
| `IngestReach.WholeExactly` | cmd/block_poster/main.go:135-197 | the at-most-once bounds are attained: some run ends with the block, all its transactions and all their access list entries and logs stored, each once and in order, if and only if every number fits an int64 and no two transactions share a hash |
| `IngestReach.AlwaysCanBecomeWhole` | cmd/block_poster/main.go:49-197 | from every reachable state any poller can still get there, for a block and transactions not yet stored, whatever was lost, refused or left in flight before |
| `IngestRequests.StoredExactlyBelow2To63` | pkg/defra/block_handler.go:44-48 | a converted block can be stored under a number if and only if the low 64 bits of its own are below 2^63 and are that number |
| `IngestRequests.OutOfRangeBlockIsDropped` | pkg/defra/block_handler.go:44-48 | a poller holding any other block makes one call that changes nothing and drops the block |
| `IngestRequests.TransactionSentExactly` | pkg/defra/block_handler.go:90-93 | a transaction is sent if and only if its block's full number is below 2^63 |
| `IngestRequests.WrappedNumberIsStored` | pkg/rpc/ethereum_client.go:202-267 | a concrete block numbered 2^64, with texts and bloom of the real lengths, that can be stored as block 0 and as no other, while its transaction is never sent |
| `IngestRequests.CallFollowsReply` | pkg/defra/block_handler.go:38-191 | a create call failing its checks fails the same way for every reply; otherwise it returns exactly the id in the reply, or wraps the reply's error |
| `IngestRequests.CallSucceedsExactly` | pkg/defra/block_handler.go:349-384 | a create call of the pipeline returns an id if and only if it passes its checks and the reply holds that id as data.create_X._docID, X being Block, Transaction, AccessListEntry or Log |
| `IngestRequests.FourOutcomes` | pkg/defra/block_handler.go:331-384 | every request whose id is unused and whose hash is new, where the schema makes hashes unique, can be refused, committed and answered, committed with the answer lost, or committed after the call has failed; the call returns the id exactly in the second case, and the document holds the columns sent |
| `IngestRequests.RequestArrivesAsStored` | pkg/defra/block_handler.go:300-403 | in every reachable state, the body about to be posted or still in flight decodes and parses to the collection the call is for, with exactly that collection's columns, holding what the document the store adds for it holds |
| `IngestRequests.StoredBlockReadsBack` | pkg/defra/block_handler.go:51-72 | the columns stored for a block decode to what the node said, through conversion, rebuilding and printing, but for the three fields the rebuilding drops |
| `IngestRequests.StoredTransactionReadsBack` | pkg/defra/block_handler.go:95-120 | the same for a transaction that is sent, fee columns by transaction type and status included |
| `IngestSteps.StepKeeps` | cmd/block_poster/main.go:49-197 | every step of every poller, and every late commit, keeps the invariant: unique hashes, true reports, linked and numbered documents, exact children, truthful program counters, at most one request in flight per child |
| `IngestSteps.RunKeeps` | cmd/block_poster/main.go:49-197 | every reachable state satisfies the invariant |
| `IngestSteps.RunGrows` | cmd/block_poster/main.go:49-197 | no document and no reported creation is ever taken back or changed |
| `IngestInvariant.ConvertedIsCoherent` | pkg/rpc/ethereum_client.go:200-285 | a converted block's transactions repeat its hash, and its number whenever that can be stored, and all its text is plain |
| `IngestInvariant.NumberOfDecimal` | pkg/utils/hex.go:16-26 | decimal text of any integer parses back to it exactly when it is an int64 |
| `BlockPoster.World.Interfere` | README.md:29 | other pollers' steps and late commits leave this poller's position and its own events alone |
| `BlockPoster.World.Call` | pkg/defra/block_handler.go:292-385 | one create call: the poller's one new event is that exchange, and store, outcome and next position are those of the state machine for it |
| `BlockPoster.PostBlockOnce` | cmd/block_poster/main.go:101 | one attempt to create the block: its one own event is the exchange whose wire gives CreateBlock's result |
| `BlockPoster.CreateBlockWithRetry` | cmd/block_poster/main.go:95-133 | its own events are exactly the create calls tried, and for their wires it makes the calls, sleeps the time and ends the way the retry control says |
| `BlockPoster.ReceiveReceipt` | cmd/block_poster/main.go:155-161 | its own event is the receipt, or the failure to get it, and the poller moves on as the machine does |
| `BlockPoster.ProcessAccessListEntries` | cmd/block_poster/main.go:171-182 | its own events are exactly one create call per entry, whatever becomes of the others |
| `BlockPoster.ProcessTransactionLogs` | cmd/block_poster/main.go:185-197 | its own events are exactly one create call per log, after which every entry and log of the transaction has been tried |
| `BlockPoster.ProcessSingleTransaction` | cmd/block_poster/main.go:143-168 | its own events are exactly the create call, then the node's receipt answer if an id came back, then one call for each entry and log if the receipt came; it asks the node for that receipt only |
| `BlockPoster.ProcessTransactions` | cmd/block_poster/main.go:136-140 | its own events are exactly one such pass over each transaction in order, receipts are asked for the created ones only, and each report read off the passes still holds at the end |
| `BlockPoster.BlockCalls` | cmd/block_poster/main.go:136-197 | the passes over a block make exactly one create call for each transaction and for each child of those whose receipt came |
| `BlockPoster.ReportsStay` | cmd/block_poster/main.go:136-140 | reports stay true under any later steps of any poller |
| `BlockPoster.ReceiveBlock` | cmd/block_poster/main.go:51-56 | its own event is the block, and the poller is about to post it |
| `BlockPoster.PollOnce` | cmd/block_poster/main.go:49-91 | one round asks the node exactly the walk-back's numbers; without a block it does nothing; otherwise its own events are exactly the block, the create calls of the retry loop and, if that succeeds, the passes over the transactions; it never dies or hits the unknown-error branch, and skips after one call, or four calls and three seconds |
| `BlockRetry.ComposedRetry` | cmd/block_poster/main.go:95-133 | with CreateBlock's real errors the Fatal and unknown branches are unreachable; failure means one call with a DataError or exactly 4 calls and 3 s |
| `RetryControl.RunShape` | cmd/block_poster/main.go:99-132 | what a run has to do with the outcomes it was fed |
| `RetryControl.RetryBound` | cmd/block_poster/main.go:99-132 | for every outcome sequence: at most 4 calls, one sleep between consecutive calls of that error's delay, at most 7 s in all |
| `RetryControl.RetryReturnsFirstSuccess` | cmd/block_poster/main.go:101-104 | an id is returned exactly if the first success comes after retried failures only, and it is that one |
| `RetryControl.NoSuccessNoDocument` | cmd/block_poster/main.go:101-132 | without a success no id is returned |
| `RetryControl.FatalExactly` | cmd/block_poster/main.go:109-132 | for the k-th call, exact conditions in terms of the unwrapped chain for each way to end: the process dies if the outermost IndexerError is critical and not retryable and no DataError is at any depth, with budget left; the block is skipped; the error is unknown |
| `RetryControl.OnlyConfigurationErrorsKill` | pkg/errors/constructors.go:37-148 | among chains built by the constructors only a configuration error at the head can be fatal |
| `Errors.ForeignHasNoKind` | pkg/errors/utils.go:36-51 | a chain without IndexerError matches no kind |
| `Errors.HasExactly` | pkg/errors/utils.go:36-51 | a kind matches if and only if unwrapping leads to an IndexerError of that kind after some number of steps |
| `Errors.FirstExactly` | pkg/errors/utils.go:9-34 | retry behaviour and severity are read off the outermost IndexerError, at whatever depth it is |
| `Errors.KindsByCode` | pkg/errors/constructors.go:37-148 | which of the four kinds each constructor's errors match, whatever they wrap |
| `Errors.GetRetryDelay` | pkg/errors/utils.go:63-84 | the doubling loop computes the closed-form delay without overflow |
| `Errors.DelayByHead` | pkg/errors/utils.go:63-84 | the delay by the code at the head of any constructed chain: min(2^n, 30) seconds for rate limits and unavailable services, one second for the other retried codes, none otherwise |
| `Errors.BackoffClosedForm` | pkg/errors/utils.go:71-79 | backoff is min(2^n, 30) seconds, monotone in the attempt count |
| `Errors.BackoffSumClosedForm` | pkg/errors/utils.go:71-79 | the first n delays add up to 2^n - 1 seconds for n up to 5, and 31 + 30(n - 5) above |
| `Errors.BuildContext` | pkg/errors/constructors.go:154-178 | the option loop folds the options into the context |
| `Errors.OptionsKeepLast` | pkg/errors/constructors.go:164-205 | the last option of each sort wins |
| `Errors.LogContext` | pkg/errors/utils.go:106-139 | the map-filling loop computes reserved entries overridden by metadata, in whatever map order |
| `Errors.WrappingKeepsFirst` | pkg/errors/utils.go:106-108 | any number of wrappers leaves the first IndexerError the same |
| `Errors.LogContextKeepsLast` | pkg/errors/utils.go:106-133 | every key of the log context, for every constructor, option list and wrapping: last metadata value, else last block number or hash, else the constructor's code, severity and retry texts, else absent |
| `Errors.ForeignLogContext` | pkg/errors/utils.go:135-138 | a chain without IndexerError is logged as a standard error, with its prefixes and its text |
| `Retry.RequestResourceWithRetries` | pkg/utils/retry.go:28-63 | the first success among the first MaxRetries + 1 calls, else an error wrapping the last failure; sleeps equal calls minus one |
| `Retry.GiveUpKeepsTheLastFailure` | pkg/utils/retry.go:62 | the final error keeps the last failure's class |
| `Strconv.ScanDigitsExact` | pkg/utils/hex.go:20-24 | the digit loop accepts exactly digit strings, underscores aside, whose true value fits 64 bits, and returns that value |
| `Strconv.ParseIntInvertsDecimal` | pkg/utils/hex.go:29-43 | parsing inverts decimal printing exactly on int64 |
| `Strconv.ParseIntIgnoresCase` | pkg/utils/hex.go:20-21 | upper-case and lower-case spellings of any text parse alike, base prefix included |
| `Strconv.FormatIntInjective` | pkg/utils/hex.go:29-31 | decimal printing is injective |
| `Hex.CodecErrorsAreDataErrors` | pkg/utils/hex.go:16-43 | every parse failure is a non-retryable DataError |
| `Hex.HexRoundTrip` | pkg/utils/hex.go:11-26 | NumberToHex prints 0x and lower-case digits, and HexToInt of it succeeds exactly for 0 <= n < 2^63 and then yields n |
| `Hex.HexIgnoresCase` | pkg/utils/hex.go:16-26 | every spelling of a number's hex text, upper-case, lower-case or mixed, is read as that number |
| `Hex.DecimalRoundTrip` | pkg/utils/hex.go:16-43 | both decoders invert IntToString on every int64 and refuse any other number |
| `Hex.UnprefixedHexIsDecimal` | pkg/utils/hex.go:15-26 | unprefixed hex comes back as the same number exactly below 10 |
| `Hex.PrefixNamesBase` | pkg/utils/hex.go:20-21 | HexToInt reads digits in the base their prefix names, in base 8 after a bare zero and in base 10 otherwise, and accepts exactly those that make a non-negative int64 |
| `Hex.StringToIntExactly` | pkg/utils/hex.go:34-43 | StringToInt accepts exactly an optional sign and decimal digits that make an int64 |
| `Float64.RoundIsNearest` | pkg/defra/block_handler.go:519-520 | nothing representable is nearer to n than its rounding |
| `Float64.RoundIsRepresentable` | pkg/defra/block_handler.go:519-520 | the rounding is representable, with an even significand on a tie |
| `Float64.RoundMonotone` | pkg/defra/block_handler.go:519-520 | rounding keeps order |
| `Float64.RoundBelow2To63` | pkg/defra/block_handler.go:519-520 | below 2^63 the error is at most 512, and the result is an int64 exactly up to 2^63 - 513 |
| `Highest.ErrorTellsWhy` | pkg/defra/block_handler.go:466-528 | which failures are retryable, which are DataErrors, and which are reported as DOCUMENT_NOT_FOUND; success needs data.Block[0].number |
| `Highest.AnswerExactly` | pkg/defra/block_handler.go:503-528 | which replies are answered with which number: 0x text, decimal text or a JSON number under data.Block[0].number, and nothing else |
| `Highest.TextIsExact` | pkg/defra/block_handler.go:506-517 | the decimal path is exact on every int64, the 0x path on every non-negative one |
| `Highest.NumberIsRounded` | pkg/defra/block_handler.go:519-520 | the JSON number path is exact if and only if binary64 has the number, within 512 up to 2^63 - 513, and meaningless above |
| `Highest.NumberIsMonotone` | pkg/defra/block_handler.go:519-520 | up to 2^63 - 513 the JSON number path keeps order |
| `Highest.HighestAgrees` | pkg/defra/block_handler.go:457-529 | in every reachable state the answer is "not found" exactly for an empty store, and otherwise agrees with the highest stored number as far as its spelling allows |
| `StringLiterals.ReadWritten` | pkg/defra/block_handler.go:304-316 | a printed string literal reads back exactly when every character survives, and is rejected otherwise |
| `Mutation.Render` | pkg/defra/block_handler.go:300-329 | the field loop prints every field once, in some order, and the query parses back to the collection and the map |
| `Mutation.MutationRoundTrip` | pkg/defra/block_handler.go:300-329 | for every field map and iteration order, parsing the printed mutation gives back the collection and the map, nil and empty lists kept apart |
| `Mutation.OnWireIsIdentity` | pkg/defra/block_handler.go:303-319 | only values outside the four printed types change on the way |
| `Envelope.BodyRoundTrip` | pkg/defra/block_handler.go:393-400 | the request body is an object with the one member "query", which decodes to the query text exactly |
| `Envelope.DeliveryRoundTrip` | pkg/defra/block_handler.go:300-400 | decode then parse inverts print then encode |
| `BlockHandler.DocIdExactly` | pkg/defra/block_handler.go:340-384 | exactly which replies yield which document id: data.create_X is an object, or an array starting with one, with a string _docID |
| `BlockHandler.BlockErrorsLogged` | pkg/defra/block_handler.go:38-82 | component, operation, code, severity and retry texts that monitoring sees of every error of CreateBlock |
| `BlockHandler.TransactionErrorsLogged` | pkg/defra/block_handler.go:84-129 | the same for CreateTransaction |
| `BlockHandler.EntryErrorsLogged` | pkg/defra/block_handler.go:131-154 | the same for CreateAccessListEntry |
| `BlockHandler.LogErrorsLogged` | pkg/defra/block_handler.go:156-191 | the same for CreateLog |
| `BlockHandler.PostErrorsLogged` | pkg/defra/block_handler.go:331-384 | the same for the PostToCollection error they wrap, and for the SendToGraphql error inside it when the exchange failed |
| `BlockHandler.PostErrorsAreStorageErrors` | pkg/defra/block_handler.go:331-384 | a failed post is a chain of storage errors down to a foreign one |
| `BlockHandler.StorageChainClass` | pkg/errors/constructors.go:115-120 | such a chain is retryable at a fixed delay, not critical, and holds no DataError |
| `BlockHandler.CreateBlockErrors` | pkg/defra/block_handler.go:38-82 | the exact classes of errors CreateBlock can return, and when |
| `Requests.SendableArrives` | pkg/defra/block_handler.go:300-400 | any map of names and printable ASCII texts, lists of those, numbers and booleans reaches the server unchanged, in any order |
| `Requests.BlockColumnsSendable` | pkg/defra/block_handler.go:51-72 | a plain block's columns are such a map |
| `Requests.TransactionColumnsSendable` | pkg/defra/block_handler.go:95-120 | a plain transaction's columns are such a map |
| `Requests.EntryColumnsSendable` | pkg/defra/block_handler.go:140-144 | a plain access list entry's columns are such a map |
| `Requests.LogColumnsSendable` | pkg/defra/block_handler.go:170-182 | a plain log's columns are such a map |
| `Requests.BlockIsPlain` | pkg/rpc/ethereum_client.go:200-222 | every text of a converted block lies in the common escape domain, its number included |
| `Requests.TransactionIsPlain` | pkg/rpc/ethereum_client.go:264-285 | every text of a converted transaction does, its block number and access list included |
| `Requests.LogIsPlain` | pkg/rpc/ethereum_client.go:144-154 | every text of a converted log does, its block number included |
| `Columns.BlockColumnsHoldBlock` | pkg/defra/block_handler.go:51-72 | reading a stored block's columns by name rebuilds the block, with the parsed number; the column names are exactly the ones listed |
| `Columns.TransactionColumnsHoldTransaction` | pkg/defra/block_handler.go:95-120 | reading a stored transaction's columns rebuilds the transaction and the block it links to; the column names are exactly the ones listed |
| `Columns.EntryColumnsHoldEntry` | pkg/defra/block_handler.go:140-144 | reading a stored access list entry's columns rebuilds the entry and the transaction it links to; the column names are exactly the ones listed |
| `Columns.LogColumnsHoldLog` | pkg/defra/block_handler.go:170-182 | reading a stored log's columns rebuilds the log and the two documents it links to; the column names are exactly the ones listed |
| `EthereumClient.ConvertGethLog` | pkg/rpc/ethereum_client.go:137-155 | the topic loop fills the log that the specification function describes |
| `EthereumClient.ConvertGethReceipt` | pkg/rpc/ethereum_client.go:112-134 | the log loop fills the receipt that the specification function describes, nil included |
| `EthereumClient.ConvertTransaction` | pkg/rpc/ethereum_client.go:226-288 | the gas price switch and the nested access list loops fill the transaction that the specification function describes |
| `EthereumClient.ConvertGethBlock` | pkg/rpc/ethereum_client.go:173-223 | the loops fill the block that the specification function describes, nil included |
| `EthereumClient.ConversionKeepsStructure` | pkg/rpc/ethereum_client.go:173-288 | no transaction dropped or reordered, each with its position and its block's hash; nested access lists element by element; block number texts agree exactly below 2^64 |
| `EthereumClient.ReceiptKeepsLogs` | pkg/rpc/ethereum_client.go:117-142 | logs keep their order with every field, and topics theirs |
| `EthereumClient.FromAddressIsFirstRecovered` | pkg/rpc/ethereum_client.go:291-307 | the sender is the one the first succeeding signer recovers, or the zero address if all fail |
| `EthereumClient.GetFromAddress` | pkg/rpc/ethereum_client.go:299-306 | the signer loop computes that sender |
| `EthereumClient.WalkBack` | pkg/rpc/ethereum_client.go:54-69 | the loop asks for head, head - 1, ... going on past the two transaction-type errors only, at most twice, and leaves with the answer it stops at |
| `EthereumClient.GetLatestBlock` | pkg/rpc/ethereum_client.go:42-72 | either an error or the conversion of the last block asked for; every request but the last was answered by one of the two transaction-type errors, and the last was not unless it is the third |
| `EthereumClient.WalkBackBound` | pkg/rpc/ethereum_client.go:56-69 | at most three requests, stepping back exactly after those two errors, never below zero from a head of at least 2 |
| `EthereumClient.GetTransactionReceipt` | pkg/rpc/ethereum_client.go:98-109 | one request, and its converted receipt or wrapped error |
| `ReadBack.SpeltOneWay` | pkg/rpc/ethereum_client.go:147 | bytes have only one spelling in lower-case digits, two for each; byte columns hold that one |
| `ReadBack.BlockReadsBack` | pkg/rpc/ethereum_client.go:200-222 | every column of a converted block, uncles included, decodes to the field it came from; bloom and extra data are lower-case hex |
| `ReadBack.TransactionReadsBack` | pkg/rpc/ethereum_client.go:231-285 | the same for a transaction, with its position, its access list, its lower-case input and the fee columns by transaction type |
| `ReadBack.ReceiptReadsBack` | pkg/rpc/ethereum_client.go:123-170 | the same for a receipt, with its block number present or not, its status, its contract address, empty for the zero address, and all its logs |
| `ReadBack.LogReadsBack` | pkg/rpc/ethereum_client.go:144-154 | the same for a log, lower-case data and topics included |
| `Conversion.ConvertLog` | pkg/types/conversion.go:98-115 | the second log converter fills the log its specification function describes |
| `Conversion.ConvertReceipt` | pkg/types/conversion.go:65-95 | the second receipt converter fills the receipt its specification function describes |
| `Conversion.LogConvertersAgree` | pkg/types/conversion.go:98-115 | the two log converters agree on all fields exactly when the block number is below 2^63 |
| `Conversion.ReceiptConvertersAgree` | pkg/types/conversion.go:65-95 | exactly when the two receipt converters agree, column by column |

## Left out

- HTTP, `ethclient`, logging, configuration and the clock: the store and the node are parameters or nondeterministic choices.
- Keccak hashing, address checksums and signature recovery of go-ethereum: hashes and addresses are the text they render.
- `AlchemyClient`, `GetBlockByNumber`, `GetNetworkID` (its result is unused), the test servers and `pkg/testutils`.
- `UpdateTransactionRelationships`, `UpdateLogRelationships`, `UpdateEventRelationships` and `parseGraphQLResponse`: the pipeline does not call them.
- `ConvertBlock` and `ConvertTransaction` of `pkg/types/conversion.go`: single record expressions without loops.
- `WrapError` on a plain error: it passes a nil option that `newBaseError` would call.
- A nil log passed to `CreateLog`: the pointer is read before its nil check, so the model takes a log, not an option.
- The never-taken branch of `convertGethBlock` that skips a transaction whose conversion fails: `convertTransaction` always returns a nil error.
- Acceptance of a request by the schema: the store may refuse or accept any request, and enforces only the unique hashes.
- How DefraDB derives document ids from content: ids are arbitrary fresh ones.
- The two input checks of `PostToCollection`, for an empty collection and nil data: all its callers pass both.
- Liveness and completeness over time: only the latest block is polled, and a failed receipt drops the children of its transaction.
- The endless main loop: `BlockPoster.PollOnce` is one round of it, started from any reachable state.
- String literals with surrogate escapes, block strings, comments, floats, variables and nested objects in the GraphQL and JSON readers: the printer never emits them.
- JSON numbers with a fraction or exponent, and literals beyond the binary64 range, in a server reply.
- Chains with several causes (`errors.Join`), and errors with their own `As` or `Is` methods.
- `input_data` of most client errors: it repeats the request in Go syntax and is only logged.
- RequestResourceWithRetries: does not model a `MaxRetries` equal to the largest int, where the loop counter itself would wrap.
- `Error()` texts of the indexer's own errors: they only go into free-text log lines.
- SendableArrives: strings outside printable ASCII are not claimed to arrive, because `%q` prints some of them with escapes that GraphQL strings do not have; `StringLiterals.ReadWritten` says exactly which do.
