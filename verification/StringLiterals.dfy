/**
 String literals on the wire: the two ways the indexer writes them (Go's %q and encoding/json) and
 the two ways a server reads them (GraphQL section 2.9.4, RFC 8259 section 7). A string is a
 sequence of Unicode scalar values, that is, valid UTF-8 before its bytes are laid out.
 */
module StringLiterals {
  import opened Wrappers
  import opened Strconv

  datatype Dialect = InGraphQL | InJson

  const QUOTE: char := '"'
  const BACKSLASH: char := '\\'

  // Decoded text and what follows the closing quote; None when the literal is malformed.
  type Reading = Option<(string, string)>

  function Push(c: char, r: Reading): Reading {
    match r
    case None => None
    case Some((text, rest)) => Some(([c] + text, rest))
  }

  // ----------------------------------------------------------------- reading

  // Characters that stand for themselves between the quotes.
  predicate Raw(c: char, d: Dialect) {
    && c != QUOTE && c != BACKSLASH
    && match d
       case InJson => c >= ' '
       case InGraphQL => c == '\t' || ' ' <= c <= '\U{FFFF}'
  }

  // The character a two-character escape stands for.
  function Unescape(c: char): Option<char> {
    if c == QUOTE || c == BACKSLASH || c == '/' then Some(c)
    else if c == 'b' then Some('\U{8}')
    else if c == 'f' then Some('\U{C}')
    else if c == 'n' then Some('\n')
    else if c == 'r' then Some('\r')
    else if c == 't' then Some('\t')
    else None
  }

  function HexDigit(c: char): Option<nat> {
    var d := DigitOf(c);
    if d.Some? && d.value < 16 then d else None
  }

  // The character of a \uXXXX escape. Halves of a surrogate pair are refused: neither writer emits them.
  function FourDigits(s: string): Option<char> {
    if |s| < 4 then None
    else match (HexDigit(s[0]), HexDigit(s[1]), HexDigit(s[2]), HexDigit(s[3]))
      case (Some(a), Some(b), Some(c), Some(d)) =>
        var n := (a * 16 + b) * 256 + (c * 16 + d);
        if n < 0xD800 || n > 0xDFFF then Some(n as char) else None
      case _ => None
  }

  // The literal whose opening quote has just been read.
  function ReadBody(s: string, d: Dialect): (r: Reading)
    ensures r.Some? ==> |r.value.1| < |s|
  {
    if s == [] then None
    else if s[0] == QUOTE then Some(("", s[1..]))
    else if s[0] == BACKSLASH then
      if |s| < 2 then None
      else if s[1] == 'u' then
        match FourDigits(s[2..])
        case None => None
        case Some(c) => Push(c, ReadBody(s[6..], d))
      else
        match Unescape(s[1])
        case None => None
        case Some(c) => Push(c, ReadBody(s[2..], d))
    else if Raw(s[0], d) then Push(s[0], ReadBody(s[1..], d))
    else None
  }

  // ----------------------------------------------------------------- writing

  function Hex2(n: nat): (s: string)
    requires n < 0x100
    ensures |s| == 2 && HexDigit(s[0]) == Some(n / 16) && HexDigit(s[1]) == Some(n % 16)
  {
    [DigitChar(n / 16), DigitChar(n % 16)]
  }

  function Hex4(n: nat): string
    requires n < 0x10000
  {
    Hex2(n / 256) + Hex2(n % 256)
  }

  // The letter of the escapes %q and encoding/json share with GraphQL.
  function ShortEscape(c: char): Option<char> {
    if c == '\U{8}' then Some('b')
    else if c == '\U{C}' then Some('f')
    else if c == '\n' then Some('n')
    else if c == '\r' then Some('r')
    else if c == '\t' then Some('t')
    else None
  }

  // unicode.IsPrint, of which only the ASCII part matters here.
  ghost predicate IsPrintTable(printable: char -> bool) {
    forall c: char | c < '\U{80}' :: printable(c) <==> ' ' <= c <= '~'
  }

  // One character of strconv.Quote.
  function QuoteChar(c: char, printable: char -> bool): string {
    if c == QUOTE || c == BACKSLASH then [BACKSLASH, c]
    else if printable(c) then [c]
    else if c == '\U{7}' then [BACKSLASH, 'a']
    else if c == '\U{B}' then [BACKSLASH, 'v']
    else if ShortEscape(c).Some? then [BACKSLASH, ShortEscape(c).value]
    else if c < ' ' || c == '\U{7F}' then [BACKSLASH, 'x'] + Hex2(c as int)
    else if c as int < 0x10000 then [BACKSLASH, 'u'] + Hex4(c as int)
    else [BACKSLASH, 'U', '0', '0'] + Hex2(c as int / 0x10000) + Hex4(c as int % 0x10000)
  }

  // One character of an encoding/json string, with its HTML escaping.
  function JsonChar(c: char): string {
    if c == QUOTE || c == BACKSLASH then [BACKSLASH, c]
    else if ShortEscape(c).Some? then [BACKSLASH, ShortEscape(c).value]
    else if c < ' ' || c == '<' || c == '>' || c == '&' || c == '\U{2028}' || c == '\U{2029}' then
      [BACKSLASH, 'u'] + Hex4(c as int)
    else [c]
  }

  datatype Writer = Percent(printable: char -> bool) | Marshal

  function WriteChar(c: char, w: Writer): string {
    match w
    case Percent(printable) => QuoteChar(c, printable)
    case Marshal => JsonChar(c)
  }

  function WriteBody(s: string, w: Writer): string {
    if s == [] then "" else WriteChar(s[0], w) + WriteBody(s[1..], w)
  }

  // %q of a string, or encoding/json of one.
  function Quoted(s: string, w: Writer): string {
    [QUOTE] + WriteBody(s, w) + [QUOTE]
  }

  // -------------------------------------------------------------- agreement

  /**
   The characters a writer passes through a reader's dialect unharmed. encoding/json loses nothing
   to a JSON reader, and to a GraphQL reader only what lies beyond U+FFFF; %q also has four kinds
   of escape that GraphQL lacks.
   */
  predicate Survives(c: char, w: Writer, d: Dialect) {
    match d
    case InJson => w.Marshal?
    case InGraphQL =>
      && c as int < 0x10000
      && (w.Percent? ==> ShortEscape(c).Some? || (c >= ' ' && c != '\U{7F}'))
  }

  ghost predicate Sound(w: Writer) {
    w.Percent? ==> IsPrintTable(w.printable)
  }

  lemma Hex4Read(n: nat, rest: string)
    requires n < 0xD800 || 0xDFFF < n < 0x10000
    ensures FourDigits(Hex4(n) + rest) == Some(n as char)
  {
    var s, high, low := Hex4(n) + rest, Hex2(n / 256), Hex2(n % 256);
    assert s[0] == high[0] && s[1] == high[1] && s[2] == low[0] && s[3] == low[1];
  }

  lemma ReadUnicodeEscape(c: char, rest: string, d: Dialect)
    requires c as int < 0x10000
    ensures ReadBody([BACKSLASH, 'u'] + Hex4(c as int) + rest, d) == Push(c, ReadBody(rest, d))
  {
    var s := [BACKSLASH, 'u'] + Hex4(c as int) + rest;
    assert s[2..] == Hex4(c as int) + rest;
    assert s[6..] == rest;
    Hex4Read(c as int, rest);
  }

  // Nothing written inside a literal starts with a quote.
  lemma WriteCharOpens(c: char, w: Writer)
    ensures WriteChar(c, w) != [] && WriteChar(c, w)[0] != QUOTE
  {
  }

  lemma ReadRaw(c: char, rest: string, d: Dialect)
    requires c != QUOTE && c != BACKSLASH
    ensures ReadBody([c] + rest, d) == if Raw(c, d) then Push(c, ReadBody(rest, d)) else None
  {
    assert ([c] + rest)[1..] == rest;
  }

  lemma ReadEscape(e: string, rest: string, d: Dialect)
    requires |e| >= 2 && e[0] == BACKSLASH && e[1] != 'u' && (|e| > 2 ==> Unescape(e[1]).None?)
    ensures ReadBody(e + rest, d) == if Unescape(e[1]).Some? then Push(Unescape(e[1]).value, ReadBody(rest, d)) else None
  {
    var s := e + rest;
    assert s[0] == e[0] && s[1] == e[1];
    if |e| == 2 { assert s[2..] == rest; }
  }

  lemma ReadMarshalled(c: char, d: Dialect, rest: string)
    ensures ReadBody(JsonChar(c) + rest, d) == if Survives(c, Marshal, d) then Push(c, ReadBody(rest, d)) else None
  {
    if c == QUOTE || c == BACKSLASH || ShortEscape(c).Some? {
      ReadEscape(JsonChar(c), rest, d);
    } else if JsonChar(c) == [c] {
      ReadRaw(c, rest, d);
    } else {
      ReadUnicodeEscape(c, rest, d);
    }
  }

  lemma ReadPercentQ(c: char, printable: char -> bool, rest: string)
    requires IsPrintTable(printable)
    ensures ReadBody(QuoteChar(c, printable) + rest, InGraphQL) ==
              if Survives(c, Percent(printable), InGraphQL) then Push(c, ReadBody(rest, InGraphQL)) else None
  {
    var e := QuoteChar(c, printable);
    if c == QUOTE || c == BACKSLASH {
      ReadEscape(e, rest, InGraphQL);
    } else if printable(c) {
      ReadRaw(c, rest, InGraphQL);
    } else if ShortEscape(c).Some? || c < ' ' || c == '\U{7F}' || c as int >= 0x10000 {
      ReadEscape(e, rest, InGraphQL);
    } else {
      ReadUnicodeEscape(c, rest, InGraphQL);
    }
  }

  // One written character reads back as itself, or spoils the literal.
  lemma ReadChar(c: char, w: Writer, d: Dialect, rest: string)
    requires Sound(w) && (d == InJson ==> w.Marshal?)
    ensures ReadBody(WriteChar(c, w) + rest, d) == if Survives(c, w, d) then Push(c, ReadBody(rest, d)) else None
  {
    match w
    case Marshal => ReadMarshalled(c, d, rest);
    case Percent(printable) => ReadPercentQ(c, printable, rest);
  }

  predicate AllSurvive(s: string, w: Writer, d: Dialect) {
    forall i | 0 <= i < |s| :: Survives(s[i], w, d)
  }

  lemma AllSurviveCons(s: string, w: Writer, d: Dialect)
    requires s != []
    ensures AllSurvive(s, w, d) <==> Survives(s[0], w, d) && AllSurvive(s[1..], w, d)
  {
    if Survives(s[0], w, d) && AllSurvive(s[1..], w, d) {
      assert forall i | 0 < i < |s| :: s[i] == s[1..][i - 1];
    }
  }

  lemma WriteBodyCons(s: string, w: Writer, rest: string)
    requires s != []
    ensures WriteBody(s, w) + [QUOTE] + rest == WriteChar(s[0], w) + (WriteBody(s[1..], w) + [QUOTE] + rest)
  {
  }

  /**
   A written string reads back exactly when every character survives; otherwise the reader
   rejects the literal rather than returning another string.
   */
  lemma {:induction false} ReadWritten(s: string, w: Writer, d: Dialect, rest: string)
    requires Sound(w) && (d == InJson ==> w.Marshal?)
    ensures ReadBody(WriteBody(s, w) + [QUOTE] + rest, d) == if AllSurvive(s, w, d) then Some((s, rest)) else None
  {
    if s == [] {
      assert WriteBody(s, w) + [QUOTE] + rest == [QUOTE] + rest;
      assert ([QUOTE] + rest)[1..] == rest;
    } else {
      WriteBodyCons(s, w, rest);
      ReadChar(s[0], w, d, WriteBody(s[1..], w) + [QUOTE] + rest);
      ReadWritten(s[1..], w, d, rest);
      AllSurviveCons(s, w, d);
      assert [s[0]] + s[1..] == s;
    }
  }
}
