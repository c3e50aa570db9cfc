/**
 The indexer's errors (pkg/errors): chains of errors, the classifiers that walk them,
 the constructors, the retry delay and the structured log context.
 */
module Errors {
  import opened Powers
  import opened Wrappers

  datatype Severity = Info | Warning | Error | Critical
  {
    function Text(): string {
      match this
      case Info => "INFO"
      case Warning => "WARNING"
      case Error => "ERROR"
      case Critical => "CRITICAL"
    }
  }

  datatype RetryBehavior = NonRetryable | Retryable | RetryableWithBackoff
  {
    function Text(): string {
      match this
      case NonRetryable => "NON_RETRYABLE"
      case Retryable => "RETRYABLE"
      case RetryableWithBackoff => "RETRYABLE_WITH_BACKOFF"
    }
  }

  // The four struct types that implement IndexerError.
  datatype Kind = Network | Data | Storage | System

  datatype Code =
    | HttpError | RpcTimeout | RpcConnectionFailed | RateLimited
    | InvalidHex | InvalidBlockFormat | InvalidInputFormat | ParsingFailed
    | DbConnectionFailed | QueryFailed | DocumentNotFound
    | ConfigurationError | ServiceUnavailable
  {
    function Text(): string {
      match this
      case HttpError => "HTTP_ERROR"
      case RpcTimeout => "RPC_TIMEOUT"
      case RpcConnectionFailed => "RPC_CONNECTION_FAILED"
      case RateLimited => "RATE_LIMITED"
      case InvalidHex => "INVALID_HEX"
      case InvalidBlockFormat => "INVALID_BLOCK_FORMAT"
      case InvalidInputFormat => "INVALID_INPUT_FORMAT"
      case ParsingFailed => "PARSING_FAILED"
      case DbConnectionFailed => "DB_CONNECTION_FAILED"
      case QueryFailed => "QUERY_FAILED"
      case DocumentNotFound => "DOCUMENT_NOT_FOUND"
      case ConfigurationError => "CONFIGURATION_ERROR"
      case ServiceUnavailable => "SERVICE_UNAVAILABLE"
    }
  }

  // The values an error context or a log context can hold.
  datatype Datum = Text(text: string) | Number(number: int) | Moment(nanoseconds: int)

  datatype Context = Context(
    component: string,
    operation: string,
    blockNumber: Option<int>,
    txHash: Option<string>,
    timestamp: int,
    metadata: map<string, Datum>)

  /**
   An error chain. Indexer is one of the four IndexerError structs over a baseError,
   Wrapped is what fmt.Errorf builds with %w, Plain is any error that unwraps to nothing.
   */
  datatype Err =
    | Indexer(kind: Kind, code: Code, detail: string, severity: Severity, retryable: RetryBehavior,
              context: Context, input: string, underlying: Option<Err>)
    | Wrapped(prefix: string, inner: Err)
    | Plain(text: string)

  // ------------------------------------------------------------- classifiers

  // errors.As with an IndexerError target: the first such error down the chain.
  function First(e: Err): (r: Option<Err>)
    ensures r.Some? ==> r.value.Indexer?
  {
    match e
    case Indexer(_, _, _, _, _, _, _, _) => Some(e)
    case Wrapped(_, inner) => First(inner)
    case Plain(_) => None
  }

  // errors.As with a target of one concrete struct type: any depth counts.
  predicate Has(e: Err, kind: Kind) {
    match e
    case Indexer(k, _, _, _, _, _, _, underlying) => k == kind || (underlying.Some? && Has(underlying.value, kind))
    case Wrapped(_, inner) => Has(inner, kind)
    case Plain(_) => false
  }

  predicate IsRetryable(e: Err) {
    var first := First(e);
    first.Some? && first.value.retryable != NonRetryable
  }

  predicate IsRetryableWithBackoff(e: Err) {
    var first := First(e);
    first.Some? && first.value.retryable == RetryableWithBackoff
  }

  predicate IsCritical(e: Err) {
    var first := First(e);
    first.Some? && first.value.severity == Critical
  }

  predicate IsDataError(e: Err) {
    Has(e, Data)
  }

  // No IndexerError anywhere: what the HTTP, JSON and strconv packages return.
  predicate Foreign(e: Err) {
    First(e).None?
  }

  lemma {:induction false} ForeignHasNoKind(e: Err, kind: Kind)
    requires Foreign(e)
    ensures !Has(e, kind)
  {
    if e.Wrapped? {
      ForeignHasNoKind(e.inner, kind);
    }
  }

  // errors.Unwrap.
  function Unwrap(e: Err): Option<Err> {
    match e
    case Indexer(_, _, _, _, _, _, _, underlying) => underlying
    case Wrapped(_, inner) => Some(inner)
    case Plain(_) => None
  }

  // The error that so many calls of errors.Unwrap lead to.
  function Inside(e: Err, depth: nat): Option<Err>
    decreases depth
  {
    if depth == 0 then Some(e) else if Unwrap(e).None? then None else Inside(Unwrap(e).value, depth - 1)
  }

  predicate IndexerAt(e: Err, depth: nat) {
    Inside(e, depth).Some? && Inside(e, depth).value.Indexer?
  }

  predicate KindAt(e: Err, depth: nat, kind: Kind) {
    IndexerAt(e, depth) && Inside(e, depth).value.kind == kind
  }

  // The IndexerError at this depth is the outermost one.
  predicate HeadAt(e: Err, depth: nat) {
    IndexerAt(e, depth) && forall i | 0 <= i < depth :: !IndexerAt(e, i)
  }

  // Every depth counts, whatever the chain is made of.
  lemma {:induction false} HasExactly(e: Err, kind: Kind)
    ensures Has(e, kind) <==> exists depth: nat :: KindAt(e, depth, kind)
  {
    if Unwrap(e).Some? {
      HasExactly(Unwrap(e).value, kind);
    }
    if Has(e, kind) {
      if e.Indexer? && e.kind == kind {
        assert KindAt(e, 0, kind);
      } else {
        var depth: nat :| KindAt(Unwrap(e).value, depth, kind);
        assert KindAt(e, depth + 1, kind);
      }
    }
    if depth: nat :| KindAt(e, depth, kind) {
      if depth > 0 {
        assert KindAt(Unwrap(e).value, depth - 1, kind);
      }
    }
  }

  // Only the outermost IndexerError counts.
  lemma {:induction false} FirstExactly(e: Err, depth: nat)
    ensures HeadAt(e, depth) ==> First(e) == Inside(e, depth)
    ensures First(e).Some? ==> exists d: nat :: HeadAt(e, d) && First(e) == Inside(e, d)
    decreases e
  {
    if e.Wrapped? {
      assert !IndexerAt(e, 0);
      FirstExactly(e.inner, if depth > 0 then depth - 1 else 0);
      if depth > 0 && HeadAt(e, depth) {
        forall i | 0 <= i < depth - 1 ensures !IndexerAt(e.inner, i) { assert !IndexerAt(e, i + 1); }
      }
      if First(e).Some? {
        var d: nat :| HeadAt(e.inner, d) && First(e.inner) == Inside(e.inner, d);
        forall i | 0 <= i < d + 1 ensures !IndexerAt(e, i) { if i > 0 { assert !IndexerAt(e.inner, i - 1); } }
        assert HeadAt(e, d + 1);
      }
    } else if e.Indexer? {
      assert HeadAt(e, 0);
      assert depth > 0 ==> !HeadAt(e, depth) by { assert IndexerAt(e, 0); }
    } else {
      assert depth > 0 ==> Inside(e, depth).None?;
    }
  }

  // ---------------------------------------------------------- context options

  datatype ContextOption =
    | WithBlockNumber(blockNumber: int)
    | WithTxHash(txHash: string)
    | WithMetadata(key: string, value: Datum)

  function ApplyOption(c: Context, o: ContextOption): Context {
    match o
    case WithBlockNumber(n) => c.(blockNumber := Some(n))
    case WithTxHash(h) => c.(txHash := Some(h))
    case WithMetadata(k, v) => c.(metadata := c.metadata[k := v])
  }

  function ApplyOptions(c: Context, options: seq<ContextOption>): Context {
    if options == [] then c
    else ApplyOption(ApplyOptions(c, options[..|options| - 1]), options[|options| - 1])
  }

  function NewContext(component: string, operation: string, options: seq<ContextOption>, now: int): Context {
    ApplyOptions(Context(component, operation, None, None, now, map[]), options)
  }

  // The option loop of newBaseError.
  method BuildContext(component: string, operation: string, options: seq<ContextOption>, now: int)
    returns (context: Context)
    ensures context == NewContext(component, operation, options, now)
  {
    context := Context(component, operation, None, None, now, map[]);
    for i := 0 to |options|
      invariant context == NewContext(component, operation, options[..i], now)
    {
      assert options[..i + 1][..i] == options[..i];
      context := ApplyOption(context, options[i]);
    }
    assert options[..|options|] == options;
  }

  // ------------------------------------------------------------- constructors

  function New(kind: Kind, code: Code, detail: string, severity: Severity, retryable: RetryBehavior,
               component: string, operation: string, input: string, underlying: Option<Err>,
               options: seq<ContextOption>, now: int): Err
  {
    Indexer(kind, code, detail, severity, retryable, NewContext(component, operation, options, now), input, underlying)
  }

  // Kind, severity and retry behaviour that the constructor of each code fixes.
  function Profile(code: Code): (Kind, Severity, RetryBehavior) {
    match code
    case HttpError => (Network, Error, Retryable)
    case RpcTimeout => (Network, Error, Retryable)
    case RpcConnectionFailed => (Network, Error, Retryable)
    case RateLimited => (Network, Warning, RetryableWithBackoff)
    case InvalidHex => (Data, Error, NonRetryable)
    case InvalidBlockFormat => (Data, Error, NonRetryable)
    case InvalidInputFormat => (Data, Error, NonRetryable)
    case ParsingFailed => (Data, Error, NonRetryable)
    case DbConnectionFailed => (Storage, Critical, Retryable)
    case QueryFailed => (Storage, Error, Retryable)
    case DocumentNotFound => (Storage, Warning, NonRetryable)
    case ConfigurationError => (System, Critical, NonRetryable)
    case ServiceUnavailable => (System, Critical, RetryableWithBackoff)
  }

  /**
   The exported constructors, one per code: NewInvalidHex is Make(InvalidHex, ...), and so on.
   detail is the argument that goes into the message text, for the codes that have one; the texts
   themselves are not part of the model.
   */
  function Make(code: Code, component: string, operation: string, detail: string, input: string,
                underlying: Option<Err>, options: seq<ContextOption> := [], now: int := 0): Err
  {
    var (kind, severity, retryable) := Profile(code);
    New(kind, code, detail, severity, retryable, component, operation, input, underlying, options, now)
  }

  // Every IndexerError in the chain came out of one of the constructors.
  predicate Constructed(e: Err) {
    match e
    case Indexer(kind, code, _, severity, retryable, _, _, underlying) =>
      Profile(code) == (kind, severity, retryable) && (underlying.Some? ==> Constructed(underlying.value))
    case Wrapped(_, inner) => Constructed(inner)
    case Plain(_) => true
  }

  // Which kinds an error built by a constructor matches: its own, and those of the error it wraps.
  lemma KindsByCode(code: Code, component: string, operation: string, detail: string, input: string,
          underlying: Option<Err>, kind: Kind)
    ensures
      var own := match code
        case HttpError | RpcTimeout | RpcConnectionFailed | RateLimited => Network
        case InvalidHex | InvalidBlockFormat | InvalidInputFormat | ParsingFailed => Data
        case DbConnectionFailed | QueryFailed | DocumentNotFound => Storage
        case ConfigurationError | ServiceUnavailable => System;
      Has(Make(code, component, operation, detail, input, underlying), kind) <==>
        kind == own || (underlying.Some? && Has(underlying.value, kind))
  {
    assert Make(code, component, operation, detail, input, underlying).underlying == underlying;
  }

  // --------------------------------------------------------------- retry delay

  const SECOND: nat := 1_000_000_000

  // min(2^n, 30) seconds, in nanoseconds.
  function Backoff(attempts: int): nat {
    if attempts >= 5 then 30 * SECOND else if attempts <= 0 then SECOND else Pow2(attempts) * SECOND
  }

  function RetryDelay(e: Err, attempts: int): nat {
    if !IsRetryable(e) then 0
    else if IsRetryableWithBackoff(e) then Backoff(attempts)
    else SECOND
  }

  // GetRetryDelay, with its doubling loop; each product is a valid int64 duration.
  method GetRetryDelay(e: Err, attemptCount: int) returns (delay: int)
    ensures delay == RetryDelay(e, attemptCount)
  {
    if !IsRetryable(e) {
      return 0;
    }
    var baseDelay := SECOND;
    if IsRetryableWithBackoff(e) {
      delay := baseDelay;
      var i := 0;
      while i < attemptCount && delay < 30 * SECOND
        invariant 0 <= i && (i <= attemptCount || i == 0) && i <= 5
        invariant delay == Pow2(i) * SECOND
        decreases 5 - i
      {
        assert 0 <= delay * 2 < 0x8000_0000_0000_0000;
        delay := delay * 2;
        i := i + 1;
      }
      if i <= 4 { Pow2Monotone(i, 4); }
      if delay > 30 * SECOND {
        delay := 30 * SECOND;
      }
      return;
    }
    return baseDelay;
  }

  function Min(a: int, b: int): int {
    if a <= b then a else b
  }

  // Backoff is min(2^n, 30) seconds for every attempt count, and never decreases.
  lemma {:induction false} BackoffClosedForm(n: nat, m: nat)
    ensures Backoff(n) == Min(Pow2(n), 30) * SECOND
    ensures n <= m ==> Backoff(n) <= Backoff(m) <= 30 * SECOND
  {
    if n >= 5 { Pow2Monotone(5, n); } else { Pow2Monotone(n, 4); }
    if m >= 5 { Pow2Monotone(5, m); } else { Pow2Monotone(m, 4); }
    if n <= m { Pow2Monotone(n, m); }
  }

  lemma {:induction false} ConstructedFirst(e: Err)
    requires Constructed(e)
    ensures First(e).Some? ==>
              Profile(First(e).value.code) == (First(e).value.kind, First(e).value.severity, First(e).value.retryable)
  {
    if e.Wrapped? {
      ConstructedFirst(e.inner);
    }
  }

  /**
   The delay by the code at the head of a chain: min(2^n, 30) seconds for a rate limit or an unavailable
   service, one second for the other codes that are retried, none otherwise.
   */
  lemma DelayByHead(e: Err, n: nat)
    requires Constructed(e)
    ensures
      var head := First(e);
      RetryDelay(e, n) ==
        if head.None? then 0
        else if head.value.code in {RateLimited, ServiceUnavailable} then Min(Pow2(n), 30) * 1_000_000_000
        else if head.value.code in {HttpError, RpcTimeout, RpcConnectionFailed, DbConnectionFailed, QueryFailed} then
          1_000_000_000
        else 0
  {
    ConstructedFirst(e);
    BackoffClosedForm(n, n);
  }

  // Total waiting time of the first n backoff delays.
  function BackoffSum(n: nat): nat {
    if n == 0 then 0 else BackoffSum(n - 1) + Backoff(n - 1)
  }

  lemma {:induction false} BackoffSumClosedForm(n: nat)
    ensures BackoffSum(n) == if n <= 5 then (Pow2(n) - 1) * SECOND else (31 + 30 * (n - 5)) * SECOND
  {
    if n > 0 {
      BackoffSumClosedForm(n - 1);
    }
  }

  // --------------------------------------------------------------- log context

  // Error() of a chain without IndexerError; LogContext prints no other.
  function ErrorText(e: Err): string
    requires Foreign(e)
  {
    match e
    case Wrapped(prefix, inner) => prefix + ErrorText(inner)
    case Plain(text) => text
  }

  // The entries LogContext writes before it copies the metadata.
  function Reserved(i: Err): map<string, Datum>
    requires i.Indexer?
  {
    var fixed := map[
      "error_code" := Text(i.code.Text()),
      "severity" := Text(i.severity.Text()),
      "retryable" := Text(i.retryable.Text()),
      "component" := Text(i.context.component),
      "operation" := Text(i.context.operation),
      "timestamp" := Moment(i.context.timestamp)];
    var numbered := if i.context.blockNumber.Some? then fixed["block_number" := Number(i.context.blockNumber.value)] else fixed;
    if i.context.txHash.Some? then numbered["tx_hash" := Text(i.context.txHash.value)] else numbered
  }

  function ContextOf(e: Err): map<string, Datum> {
    var first := First(e);
    if first.Some? then Reserved(first.value) + first.value.context.metadata
    else map["error" := Text(ErrorText(e)), "error_type" := Text("standard_error")]
  }

  // LogContext, visiting the metadata in whatever order the map yields it.
  method LogContext(e: Err) returns (logCtx: map<string, Datum>)
    ensures logCtx == ContextOf(e)
  {
    var first := First(e);
    if first.Some? {
      logCtx := Reserved(first.value);
      var metadata := first.value.context.metadata;
      var left := metadata.Keys;
      while left != {}
        invariant left <= metadata.Keys
        invariant logCtx == Reserved(first.value) + (metadata - left)
      {
        var k :| k in left;
        ghost var before := left;
        logCtx := logCtx[k := metadata[k]];
        left := left - {k};
        assert metadata - left == (metadata - before)[k := metadata[k]];
      }
      assert metadata - {} == metadata;
    } else {
      logCtx := map["error" := Text(ErrorText(e)), "error_type" := Text("standard_error")];
    }
  }

  // Index of the last option that is WithMetadata on this key, or -1.
  function LastMetadata(options: seq<ContextOption>, key: string): (i: int)
    ensures -1 <= i < |options|
    ensures i >= 0 ==> options[i].WithMetadata? && options[i].key == key
    ensures forall j | i < j < |options| :: !(options[j].WithMetadata? && options[j].key == key)
  {
    if options == [] then -1
    else
      var last := |options| - 1;
      if options[last].WithMetadata? && options[last].key == key then last
      else LastMetadata(options[..last], key)
  }

  function LastBlockNumber(options: seq<ContextOption>): (i: int)
    ensures -1 <= i < |options|
    ensures i >= 0 ==> options[i].WithBlockNumber?
    ensures forall j | i < j < |options| :: !options[j].WithBlockNumber?
  {
    if options == [] then -1
    else
      var last := |options| - 1;
      if options[last].WithBlockNumber? then last else LastBlockNumber(options[..last])
  }

  function LastTxHash(options: seq<ContextOption>): (i: int)
    ensures -1 <= i < |options|
    ensures i >= 0 ==> options[i].WithTxHash?
    ensures forall j | i < j < |options| :: !options[j].WithTxHash?
  {
    if options == [] then -1
    else
      var last := |options| - 1;
      if options[last].WithTxHash? then last else LastTxHash(options[..last])
  }

  // Looking one key up among the reserved entries.
  lemma ReservedLookup(i: Err, key: string)
    requires i.Indexer?
    ensures
      var found := if key in Reserved(i) then Some(Reserved(i)[key]) else None;
      found == (
        if key == "block_number" then (if i.context.blockNumber.Some? then Some(Number(i.context.blockNumber.value)) else None)
        else if key == "tx_hash" then (if i.context.txHash.Some? then Some(Text(i.context.txHash.value)) else None)
        else if key == "component" then Some(Text(i.context.component))
        else if key == "operation" then Some(Text(i.context.operation))
        else if key == "error_code" then Some(Text(i.code.Text()))
        else if key == "severity" then Some(Text(i.severity.Text()))
        else if key == "retryable" then Some(Text(i.retryable.Text()))
        else if key == "timestamp" then Some(Moment(i.context.timestamp))
        else None)
  {
    assert |"block_number"| == 12 && |"tx_hash"| == 7 && |"component"| == 9 && |"operation"| == 9;
    assert |"error_code"| == 10 && |"severity"| == 8 && |"retryable"| == 9 && |"timestamp"| == 9;
    assert "component"[0] == 'c' && "operation"[0] == 'o' && "retryable"[0] == 'r' && "timestamp"[0] == 't';
  }

  // What the option fold leaves in a context: the last option of each sort wins.
  lemma {:induction false} OptionsKeepLast(component: string, operation: string, options: seq<ContextOption>,
          now: int, key: string)
    ensures var c := NewContext(component, operation, options, now);
            && c.component == component && c.operation == operation && c.timestamp == now
            && (key in c.metadata <==> LastMetadata(options, key) >= 0)
            && (key in c.metadata ==> c.metadata[key] == options[LastMetadata(options, key)].value)
            && c.blockNumber == (if LastBlockNumber(options) >= 0
                                 then Some(options[LastBlockNumber(options)].blockNumber) else None)
            && c.txHash == (if LastTxHash(options) >= 0 then Some(options[LastTxHash(options)].txHash) else None)
  {
    if options != [] {
      OptionsKeepLast(component, operation, options[..|options| - 1], now, key);
    }
  }

  // A chain of %w wrappers, outermost prefix first.
  function WrapAll(prefixes: seq<string>, e: Err): Err {
    if prefixes == [] then e else Wrapped(prefixes[0], WrapAll(prefixes[1..], e))
  }

  lemma {:induction false} WrappingKeepsFirst(prefixes: seq<string>, e: Err)
    ensures First(WrapAll(prefixes, e)) == First(e)
  {
    if prefixes != [] {
      WrappingKeepsFirst(prefixes[1..], e);
    }
  }

  function Concat(texts: seq<string>): string {
    if texts == [] then "" else texts[0] + Concat(texts[1..])
  }

  // A chain without IndexerError is logged by its text: the prefixes of its wrappers and the text they wrap.
  lemma {:induction false} ForeignLogContext(prefixes: seq<string>, text: string)
    ensures var e := WrapAll(prefixes, Plain(text));
            && Foreign(e) && ErrorText(e) == Concat(prefixes) + text
            && ContextOf(e) == map["error" := Text(Concat(prefixes) + text), "error_type" := Text("standard_error")]
  {
    if prefixes != [] {
      ForeignLogContext(prefixes[1..], text);
    }
  }

  // The monitoring texts of each constructor: code, severity and retry behaviour.
  function Logged(code: Code): (string, string, string) {
    match code
    case HttpError => ("HTTP_ERROR", "ERROR", "RETRYABLE")
    case RpcTimeout => ("RPC_TIMEOUT", "ERROR", "RETRYABLE")
    case RpcConnectionFailed => ("RPC_CONNECTION_FAILED", "ERROR", "RETRYABLE")
    case RateLimited => ("RATE_LIMITED", "WARNING", "RETRYABLE_WITH_BACKOFF")
    case InvalidHex => ("INVALID_HEX", "ERROR", "NON_RETRYABLE")
    case InvalidBlockFormat => ("INVALID_BLOCK_FORMAT", "ERROR", "NON_RETRYABLE")
    case InvalidInputFormat => ("INVALID_INPUT_FORMAT", "ERROR", "NON_RETRYABLE")
    case ParsingFailed => ("PARSING_FAILED", "ERROR", "NON_RETRYABLE")
    case DbConnectionFailed => ("DB_CONNECTION_FAILED", "CRITICAL", "RETRYABLE")
    case QueryFailed => ("QUERY_FAILED", "ERROR", "RETRYABLE")
    case DocumentNotFound => ("DOCUMENT_NOT_FOUND", "WARNING", "NON_RETRYABLE")
    case ConfigurationError => ("CONFIGURATION_ERROR", "CRITICAL", "NON_RETRYABLE")
    case ServiceUnavailable => ("SERVICE_UNAVAILABLE", "CRITICAL", "RETRYABLE_WITH_BACKOFF")
  }

  lemma TextsAsLogged(code: Code)
    ensures (code.Text(), Profile(code).1.Text(), Profile(code).2.Text()) == Logged(code)
  {
  }

  /**
   Context fold: for every option list, the log context of a constructed error, under any
   number of %w wrappers, gives a key its last WithMetadata value even when the key is one of
   the reserved ones; otherwise block_number and tx_hash are the last ones given, and a key
   that is neither reserved nor given is absent.
   */
  lemma LogContextKeepsLast(prefixes: seq<string>, code: Code, component: string, operation: string, detail: string,
                            input: string, underlying: Option<Err>, options: seq<ContextOption>, now: int, key: string)
    ensures
      var logCtx := ContextOf(WrapAll(prefixes, Make(code, component, operation, detail, input, underlying, options, now)));
      var m, b, h := LastMetadata(options, key), LastBlockNumber(options), LastTxHash(options);
      if m >= 0 then key in logCtx && logCtx[key] == options[m].value
      else if key == "block_number" then
        (key in logCtx <==> b >= 0) && (b >= 0 ==> logCtx[key] == Number(options[b].blockNumber))
      else if key == "tx_hash" then
        (key in logCtx <==> h >= 0) && (h >= 0 ==> logCtx[key] == Text(options[h].txHash))
      else if key == "component" then key in logCtx && logCtx[key] == Text(component)
      else if key == "operation" then key in logCtx && logCtx[key] == Text(operation)
      else if key == "error_code" then key in logCtx && logCtx[key] == Text(Logged(code).0)
      else if key == "severity" then key in logCtx && logCtx[key] == Text(Logged(code).1)
      else if key == "retryable" then key in logCtx && logCtx[key] == Text(Logged(code).2)
      else if key == "timestamp" then key in logCtx && logCtx[key] == Moment(now)
      else key !in logCtx
  {
    var e := Make(code, component, operation, detail, input, underlying, options, now);
    TextsAsLogged(code);
    WrappingKeepsFirst(prefixes, e);
    OptionsKeepLast(component, operation, options, now, key);
    ReservedLookup(e, key);
  }
}
