/**
 The create mutation that PostToCollection prints, and a GraphQL reader for it: lexical tokens
 (specification of October 2021, section 2.1), names, integers, booleans, null, lists and input
 objects (section 2.9).
 */
module Mutation {
  import opened Wrappers
  import opened Strconv
  import opened Types
  import opened StringLiterals

  // A field value by its Go type; Other is any type the switch sends to its default branch, by its Sprint text.
  datatype Value = Str(text: string) | Bool(flag: bool) | Int(number: int64) | Strs(texts: Strings) | Other(sprint: string)

  type Fields = map<string, Value>

  // ---------------------------------------------------------------- printing

  function Join(parts: seq<string>, separator: string): string {
    if parts == [] then ""
    else if |parts| == 1 then parts[0]
    else parts[0] + separator + Join(parts[1..], separator)
  }

  function QuotedAll(texts: seq<string>): seq<string> {
    seq(|texts|, i requires 0 <= i < |texts| => Quoted(texts[i], Marshal))
  }

  function ValueText(v: Value, w: Writer): string {
    match v
    case Str(text) => Quoted(text, w)
    case Bool(flag) => if flag then "true" else "false"
    case Int(number) => FormatInt(number, 10)
    case Strs(None) => "null"
    case Strs(Some(texts)) => "[" + Join(QuotedAll(texts), ",") + "]"
    case Other(sprint) => Quoted(sprint, w)
  }

  function FieldText(key: string, v: Value, w: Writer): string {
    key + ": " + ValueText(v, w)
  }

  function FieldTexts(order: seq<string>, data: Fields, w: Writer): seq<string>
    requires forall i | 0 <= i < |order| :: order[i] in data
  {
    seq(|order|, i requires 0 <= i < |order| => FieldText(order[i], data[order[i]], w))
  }

  function MutationText(collection: string, inputFields: seq<string>): string {
    "mutation {\n\t\tcreate_" + collection + "(input: { " + Join(inputFields, ", ") + " }) {\n\t\t\t_docID\n\t\t}\n\t}"
  }

  // Every key of the map exactly once, in the order an iteration happened to visit them.
  predicate Visits(order: seq<string>, data: Fields) {
    && (forall i | 0 <= i < |order| :: order[i] in data)
    && (forall i, j | 0 <= i < j < |order| :: order[i] != order[j])
    && |order| == |data|
  }

  // ------------------------------------------------------------------- lexer

  datatype Token = Punct(mark: char) | Name(name: string) | IntLit(value: int) | StrLit(text: string)

  predicate Ignored(c: char) {
    c == ' ' || c == '\t' || c == '\n' || c == '\r' || c == ',' || c == '\U{FEFF}'
  }

  predicate IsPunct(c: char) {
    || c == '!' || c == '$' || c == '&' || c == '(' || c == ')' || c == ':' || c == '=' || c == '@'
    || c == '[' || c == ']' || c == '{' || c == '|' || c == '}'
  }

  predicate IsDigit(c: char) {
    '0' <= c <= '9'
  }

  predicate NameStart(c: char) {
    'a' <= c <= 'z' || 'A' <= c <= 'Z' || c == '_'
  }

  predicate NameContinue(c: char) {
    NameStart(c) || IsDigit(c)
  }

  predicate IsName(s: string) {
    s != [] && NameStart(s[0]) && forall i | 0 <= i < |s| :: NameContinue(s[i])
  }

  // Length of the longest prefix made of digits, or of name characters.
  function RunLength(s: string, digits: bool): (n: nat)
    ensures n <= |s|
    ensures forall i | 0 <= i < n :: if digits then IsDigit(s[i]) else NameContinue(s[i])
  {
    if s == [] || !(if digits then IsDigit(s[0]) else NameContinue(s[0])) then 0
    else 1 + RunLength(s[1..], digits)
  }

  // An IntValue at the start of s, without its sign.
  function ReadDigits(s: string): (r: Option<(nat, string)>)
    ensures r.Some? ==> |r.value.1| < |s|
  {
    var n := RunLength(s, true);
    if n == 0 || (n > 1 && s[0] == '0') then None
    else if n < |s| && (NameStart(s[n]) || s[n] == '.') then None
    else Some((Worth(0, s[..n], 10), s[n..]))
  }

  function Add(t: Token, r: Option<seq<Token>>): Option<seq<Token>> {
    match r
    case None => None
    case Some(tokens) => Some([t] + tokens)
  }

  // Source text to tokens. Comments, block strings and floats are refused: the printer emits none.
  function Lex(s: string): Option<seq<Token>>
    decreases |s|
  {
    if s == [] then Some([])
    else if Ignored(s[0]) then Lex(s[1..])
    else if IsPunct(s[0]) then Add(Punct(s[0]), Lex(s[1..]))
    else if NameStart(s[0]) then
      var n := RunLength(s, false);
      Add(Name(s[..n]), Lex(s[n..]))
    else if s[0] == QUOTE then
      if |s| >= 3 && s[1] == QUOTE && s[2] == QUOTE then None
      else
        match ReadBody(s[1..], InGraphQL)
        case None => None
        case Some((text, rest)) => Add(StrLit(text), Lex(rest))
    else if s[0] == '-' then
      match ReadDigits(s[1..])
      case None => None
      case Some((n, rest)) => Add(IntLit(0 - n), Lex(rest))
    else
      match ReadDigits(s)
      case None => None
      case Some((n, rest)) => Add(IntLit(n), Lex(rest))
  }

  // Text that a name, a number or a string may be followed by.
  predicate Separates(rest: string) {
    rest == [] || Ignored(rest[0]) || IsPunct(rest[0])
  }

  lemma LexMark(c: char, rest: string)
    requires IsPunct(c)
    ensures Lex([c] + rest) == Add(Punct(c), Lex(rest))
  {
    assert ([c] + rest)[1..] == rest;
  }

  lemma {:induction false} LexGap(gap: string, rest: string)
    requires forall i | 0 <= i < |gap| :: Ignored(gap[i])
    ensures Lex(gap + rest) == Lex(rest)
  {
    if gap == [] {
      assert gap + rest == rest;
    } else {
      assert (gap + rest)[1..] == gap[1..] + rest;
      LexGap(gap[1..], rest);
    }
  }

  lemma SeparatorEndsRun(c: char)
    requires Ignored(c) || IsPunct(c)
    ensures !NameContinue(c)
  {
  }

  lemma {:induction false} RunStops(run: string, rest: string, digits: bool)
    requires forall i | 0 <= i < |run| :: if digits then IsDigit(run[i]) else NameContinue(run[i])
    requires Separates(rest)
    ensures RunLength(run + rest, digits) == |run|
  {
    var s := run + rest;
    if run == [] {
      assert s == rest;
      if rest != [] { SeparatorEndsRun(rest[0]); }
    } else {
      assert s[0] == run[0] && s[1..] == run[1..] + rest;
      RunStops(run[1..], rest, digits);
    }
  }

  lemma LexWord(name: string, rest: string)
    requires IsName(name) && Separates(rest)
    ensures Lex(name + rest) == Add(Name(name), Lex(rest))
  {
    RunStops(name, rest, false);
    assert (name + rest)[..|name|] == name && (name + rest)[|name|..] == rest;
  }

  lemma ReadPrinted(n: nat, rest: string)
    requires Separates(rest)
    ensures ReadDigits(Digits(n, 10) + rest) == Some((n, rest))
  {
    var text := Digits(n, 10);
    DigitsShape(n, 10);
    DigitsWorth(n, 10);
    RunStops(text, rest, true);
    assert (text + rest)[..|text|] == text && (text + rest)[|text|..] == rest;
    assert n == 0 ==> text == "0";
  }

  lemma LexDigits(n: nat, rest: string)
    requires Separates(rest)
    ensures Lex(Digits(n, 10) + rest) == Add(IntLit(n), Lex(rest))
  {
    ReadPrinted(n, rest);
    DigitsShape(n, 10);
    assert IsDigit((Digits(n, 10) + rest)[0]);
  }

  lemma LexMinus(n: nat, rest: string)
    requires Separates(rest)
    ensures Lex("-" + Digits(n, 10) + rest) == Add(IntLit(0 - n), Lex(rest))
  {
    var s := "-" + Digits(n, 10) + rest;
    assert s[0] == '-' && s[1..] == Digits(n, 10) + rest;
    ReadPrinted(n, rest);
  }

  lemma LexNumber(n: int, rest: string)
    requires Separates(rest)
    ensures Lex(FormatInt(n, 10) + rest) == Add(IntLit(n), Lex(rest))
  {
    if n < 0 { LexMinus(-n, rest); } else { LexDigits(n, rest); }
  }

  lemma LexQuoted(text: string, w: Writer, rest: string)
    requires Sound(w) && AllSurvive(text, w, InGraphQL) && Separates(rest)
    ensures Lex(Quoted(text, w) + rest) == Add(StrLit(text), Lex(rest))
  {
    var s := Quoted(text, w) + rest;
    assert s[0] == QUOTE && s[1..] == WriteBody(text, w) + [QUOTE] + rest;
    ReadWritten(text, w, InGraphQL, rest);
    if text == [] {
      assert s[1] == QUOTE && s[2..] == rest;
    } else {
      WriteCharOpens(text[0], w);
      assert s[1] == WriteChar(text[0], w)[0];
    }
  }

  // ------------------------------------------------------------------ parser

  // The values of a list of strings, up to its closing bracket.
  function ParseStrings(ts: seq<Token>): (r: Option<(seq<string>, seq<Token>)>)
    ensures r.Some? ==> |r.value.1| < |ts|
  {
    if ts == [] then None
    else if ts[0] == Punct(']') then Some(([], ts[1..]))
    else if ts[0].StrLit? then
      match ParseStrings(ts[1..])
      case None => None
      case Some((texts, rest)) => Some(([ts[0].text] + texts, rest))
    else None
  }

  function ParseValue(ts: seq<Token>): (r: Option<(Value, seq<Token>)>)
    ensures r.Some? ==> |r.value.1| < |ts|
  {
    if ts == [] then None
    else match ts[0]
      case StrLit(text) => Some((Str(text), ts[1..]))
      case IntLit(n) => if -TWO_63 <= n < TWO_63 then Some((Int(n), ts[1..])) else None
      case Name(name) =>
        if name == "true" then Some((Bool(true), ts[1..]))
        else if name == "false" then Some((Bool(false), ts[1..]))
        else if name == "null" then Some((Strs(None), ts[1..]))
        else None
      case Punct(c) =>
        if c != '[' then None
        else match ParseStrings(ts[1..])
          case None => None
          case Some((texts, rest)) => Some((Strs(Some(texts)), rest))
  }

  // The fields of an input object, up to its closing brace.
  function ParseFields(ts: seq<Token>): (r: Option<(seq<(string, Value)>, seq<Token>)>)
    ensures r.Some? ==> |r.value.1| < |ts|
    decreases |ts|
  {
    if ts == [] then None
    else if ts[0] == Punct('}') then Some(([], ts[1..]))
    else if |ts| < 3 || !ts[0].Name? || ts[1] != Punct(':') then None
    else match ParseValue(ts[2..])
      case None => None
      case Some((v, rest)) =>
        match ParseFields(rest)
        case None => None
        case Some((fields, after)) => Some(([(ts[0].name, v)] + fields, after))
  }

  // Input object fields are unique (section 5.6.3).
  function Collect(pairs: seq<(string, Value)>): Option<Fields> {
    if pairs == [] then Some(map[])
    else
      var last := pairs[|pairs| - 1];
      match Collect(pairs[..|pairs| - 1])
      case None => None
      case Some(m) => if last.0 in m then None else Some(m[last.0 := last.1])
  }

  const CREATE := "create_"
  const OPENING: seq<Token> := [Punct('('), Name("input"), Punct(':'), Punct('{')]
  const CLOSING: seq<Token> := [Punct(')'), Punct('{'), Name("_docID"), Punct('}'), Punct('}')]

  // A whole request document: the collection and the fields of the document to create.
  function ParseMutation(ts: seq<Token>): Option<(string, Fields)> {
    if |ts| < 7 || !ts[2].Name? || ts[..7] != [Name("mutation"), Punct('{'), ts[2]] + OPENING then None
    else if |ts[2].name| < 7 || ts[2].name[..7] != CREATE then None
    else match ParseFields(ts[7..])
      case None => None
      case Some((pairs, rest)) =>
        if rest != CLOSING then None
        else match Collect(pairs)
          case None => None
          case Some(fields) => Some((ts[2].name[7..], fields))
  }

  function ParseRequest(query: string): Option<(string, Fields)> {
    match Lex(query)
    case None => None
    case Some(ts) => ParseMutation(ts)
  }

  // -------------------------------------------------------------- round trip

  // What a value is on the wire: a default-branch value is indistinguishable from its text.
  function Received(v: Value): Value {
    match v
    case Other(sprint) => Str(sprint)
    case _ => v
  }

  predicate Printable(v: Value, w: Writer) {
    match v
    case Str(text) => AllSurvive(text, w, InGraphQL)
    case Other(sprint) => AllSurvive(sprint, w, InGraphQL)
    case Strs(Some(texts)) => forall i | 0 <= i < |texts| :: AllSurvive(texts[i], Marshal, InGraphQL)
    case _ => true
  }

  function StringTokens(texts: seq<string>): seq<Token> {
    if texts == [] then [] else [StrLit(texts[0])] + StringTokens(texts[1..])
  }

  function ValueTokens(v: Value): seq<Token> {
    match v
    case Str(text) => [StrLit(text)]
    case Bool(flag) => [Name(if flag then "true" else "false")]
    case Int(number) => [IntLit(number)]
    case Strs(None) => [Name("null")]
    case Strs(Some(texts)) => [Punct('[')] + StringTokens(texts) + [Punct(']')]
    case Other(sprint) => [StrLit(sprint)]
  }

  function FieldTokens(key: string, v: Value): seq<Token> {
    [Name(key), Punct(':')] + ValueTokens(v)
  }

  function AllFieldTokens(order: seq<string>, data: Fields): seq<Token>
    requires forall i | 0 <= i < |order| :: order[i] in data
  {
    if order == [] then [] else FieldTokens(order[0], data[order[0]]) + AllFieldTokens(order[1..], data)
  }

  /**
   Wherever this text appears, the lexer turns it into these tokens and goes on with what follows.
   A solid text (a name, a number, a string) needs a separator after it.
   */
  ghost predicate Lexes(text: string, ts: seq<Token>, solid: bool) {
    forall rest: string | solid ==> Separates(rest) :: Lex(text + rest) == AddAll(ts, Lex(rest))
  }

  function AddAll(ts: seq<Token>, r: Option<seq<Token>>): Option<seq<Token>> {
    match r
    case None => None
    case Some(tokens) => Some(ts + tokens)
  }

  predicate Opens(text: string) {
    text != [] && Separates(text)
  }

  lemma Then(a: string, ta: seq<Token>, aSolid: bool, b: string, tb: seq<Token>, bSolid: bool)
    requires Lexes(a, ta, aSolid) && Lexes(b, tb, bSolid) && (aSolid ==> Opens(b))
    ensures Lexes(a + b, ta + tb, bSolid)
  {
    hide Lex, Ignored, IsPunct;
    forall rest: string | bSolid ==> Separates(rest) ensures Lex((a + b) + rest) == AddAll(ta + tb, Lex(rest)) {
      assert (a + b) + rest == a + (b + rest);
      assert aSolid ==> Separates(b + rest);
      assert Lex(b + rest) == AddAll(tb, Lex(rest));
      assert Lex(rest).Some? ==> ta + (tb + Lex(rest).value) == (ta + tb) + Lex(rest).value;
    }
  }

  lemma WordLexes(name: string)
    requires IsName(name)
    ensures Lexes(name, [Name(name)], true)
  {
    forall rest: string | Separates(rest) ensures Lex(name + rest) == AddAll([Name(name)], Lex(rest)) {
      LexWord(name, rest);
    }
  }

  lemma MarkLexes(c: char)
    requires IsPunct(c)
    ensures Lexes([c], [Punct(c)], false)
  {
    forall rest: string ensures Lex([c] + rest) == AddAll([Punct(c)], Lex(rest)) {
      LexMark(c, rest);
    }
  }

  lemma GapLexes(gap: string)
    requires forall i | 0 <= i < |gap| :: Ignored(gap[i])
    ensures Lexes(gap, [], false)
  {
    forall rest: string ensures Lex(gap + rest) == AddAll([], Lex(rest)) {
      LexGap(gap, rest);
      assert Lex(rest).Some? ==> [] + Lex(rest).value == Lex(rest).value;
    }
  }

  lemma NumberLexes(n: int)
    ensures Lexes(FormatInt(n, 10), [IntLit(n)], true)
  {
    forall rest: string | Separates(rest) ensures Lex(FormatInt(n, 10) + rest) == AddAll([IntLit(n)], Lex(rest)) {
      LexNumber(n, rest);
    }
  }

  lemma QuotedLexes(text: string, w: Writer)
    requires Sound(w) && AllSurvive(text, w, InGraphQL)
    ensures Lexes(Quoted(text, w), [StrLit(text)], true)
  {
    forall rest: string | Separates(rest) ensures Lex(Quoted(text, w) + rest) == AddAll([StrLit(text)], Lex(rest)) {
      LexQuoted(text, w, rest);
    }
  }

  // Two solid texts with ignored characters between them.
  lemma Listed(a: string, ta: seq<Token>, gap: string, b: string, tb: seq<Token>)
    requires Lexes(a, ta, true) && Lexes(b, tb, true)
    requires gap != [] && forall i | 0 <= i < |gap| :: Ignored(gap[i])
    ensures Lexes(a + gap + b, ta + tb, true)
  {
    GapLexes(gap);
    Then(a, ta, true, gap, [], false);
    assert ta + [] == ta;
    Then(a + gap, ta, false, b, tb, true);
  }

  lemma {:induction false} StringsLex(texts: seq<string>)
    requires forall i | 0 <= i < |texts| :: AllSurvive(texts[i], Marshal, InGraphQL)
    ensures Lexes(Join(QuotedAll(texts), ","), StringTokens(texts), true)
  {
    var parts := QuotedAll(texts);
    if texts == [] {
      GapLexes("");
    } else {
      QuotedLexes(texts[0], Marshal);
      assert [StrLit(texts[0])] + [] == [StrLit(texts[0])];
      if |texts| == 1 {
        assert StringTokens(texts[1..]) == [];
      } else {
        StringsLex(texts[1..]);
        assert parts[1..] == QuotedAll(texts[1..]);
        Listed(parts[0], [StrLit(texts[0])], ",", Join(parts[1..], ","), StringTokens(texts[1..]));
      }
    }
  }

  lemma ValueLexes(v: Value, w: Writer)
    requires Sound(w) && Printable(v, w)
    ensures Lexes(ValueText(v, w), ValueTokens(v), true)
  {
    match v
    case Str(text) => QuotedLexes(text, w);
    case Other(sprint) => QuotedLexes(sprint, w);
    case Bool(flag) => WordLexes(if flag then "true" else "false");
    case Int(number) => NumberLexes(number);
    case Strs(None) => WordLexes("null");
    case Strs(Some(texts)) => ListLexes(texts);
  }

  lemma ListLexes(texts: seq<string>)
    requires forall i | 0 <= i < |texts| :: AllSurvive(texts[i], Marshal, InGraphQL)
    ensures Lexes("[" + Join(QuotedAll(texts), ",") + "]", [Punct('[')] + StringTokens(texts) + [Punct(']')], true)
  {
    var inner := Join(QuotedAll(texts), ",");
    MarkLexes('[');
    MarkLexes(']');
    StringsLex(texts);
    Then("[", [Punct('[')], false, inner, StringTokens(texts), true);
    Then("[" + inner, [Punct('[')] + StringTokens(texts), true, "]", [Punct(']')], false);
  }

  lemma FieldLexes(key: string, v: Value, w: Writer)
    requires Sound(w) && IsName(key) && Printable(v, w)
    ensures Lexes(FieldText(key, v, w), FieldTokens(key, v), true)
  {
    WordLexes(key);
    MarkLexes(':');
    GapLexes(" ");
    ValueLexes(v, w);
    Then(":", [Punct(':')], false, " ", [], false);
    assert ":" + " " == ": " && [Punct(':')] + [] == [Punct(':')];
    Then(key, [Name(key)], true, ": ", [Punct(':')], false);
    Then(key + ": ", [Name(key)] + [Punct(':')], false, ValueText(v, w), ValueTokens(v), true);
    assert [Name(key)] + [Punct(':')] == [Name(key), Punct(':')];
  }

  lemma JoinFields(order: seq<string>, data: Fields, w: Writer)
    requires |order| > 1 && forall i | 0 <= i < |order| :: order[i] in data
    ensures Join(FieldTexts(order, data, w), ", ") ==
              FieldText(order[0], data[order[0]], w) + ", " + Join(FieldTexts(order[1..], data, w), ", ")
  {
    assert FieldTexts(order, data, w)[1..] == FieldTexts(order[1..], data, w);
  }

  lemma {:induction false} FieldsLex(order: seq<string>, data: Fields, w: Writer)
    requires Sound(w)
    requires forall i | 0 <= i < |order| :: order[i] in data && IsName(order[i]) && Printable(data[order[i]], w)
    ensures Lexes(Join(FieldTexts(order, data, w), ", "), AllFieldTokens(order, data), true)
  {
    if order == [] {
      GapLexes("");
    } else {
      var key, v := order[0], data[order[0]];
      FieldLexes(key, v, w);
      if |order| == 1 {
        assert AllFieldTokens(order, data) == FieldTokens(key, v) + [] == FieldTokens(key, v);
        assert Join(FieldTexts(order, data, w), ", ") == FieldText(key, v, w);
      } else {
        FieldsLex(order[1..], data, w);
        JoinFields(order, data, w);
        Listed(FieldText(key, v, w), FieldTokens(key, v), ", ",
               Join(FieldTexts(order[1..], data, w), ", "), AllFieldTokens(order[1..], data));
      }
    }
  }

  // A mark followed by white space, the unit the fixed parts of a request are made of.
  lemma MarkGapLexes(c: char, gap: string)
    requires IsPunct(c) && forall i | 0 <= i < |gap| :: Ignored(gap[i])
    ensures Lexes([c] + gap, [Punct(c)], false)
  {
    MarkLexes(c);
    GapLexes(gap);
    Then([c], [Punct(c)], false, gap, [], false);
    assert [Punct(c)] + [] == [Punct(c)];
  }

  lemma WordGapLexes(name: string, gap: string)
    requires IsName(name) && gap != [] && forall i | 0 <= i < |gap| :: Ignored(gap[i])
    ensures Lexes(name + gap, [Name(name)], false)
  {
    WordLexes(name);
    GapLexes(gap);
    Then(name, [Name(name)], true, gap, [], false);
    assert [Name(name)] + [] == [Name(name)];
  }

  predicate IsGap(gap: string) {
    gap != [] && forall i | 0 <= i < |gap| :: Ignored(gap[i])
  }

  // The shapes of the fixed parts, whatever their words and white space.
  lemma HeadShape(m: string, g1: string, g2: string, n: string)
    requires IsName(m) && IsName(n) && IsGap(g1) && IsGap(g2)
    ensures Lexes(((m + g1) + ("{" + g2)) + n, [Name(m), Punct('{'), Name(n)], true)
  {
    WordGapLexes(m, g1);
    MarkGapLexes('{', g2);
    WordLexes(n);
    Then(m + g1, [Name(m)], false, "{" + g2, [Punct('{')], false);
    Then((m + g1) + ("{" + g2), [Name(m)] + [Punct('{')], false, n, [Name(n)], true);
    assert [Name(m)] + [Punct('{')] + [Name(n)] == [Name(m), Punct('{'), Name(n)];
  }

  lemma OpeningShape(n: string, g: string)
    requires IsName(n) && IsGap(g)
    ensures Lexes((("(" + n) + (":" + g)) + ("{" + g), [Punct('('), Name(n), Punct(':'), Punct('{')], false)
  {
    MarkLexes('(');
    WordLexes(n);
    MarkGapLexes(':', g);
    MarkGapLexes('{', g);
    Then("(", [Punct('(')], false, n, [Name(n)], true);
    Then("(" + n, [Punct('(')] + [Name(n)], true, ":" + g, [Punct(':')], false);
    Then(("(" + n) + (":" + g), [Punct('(')] + [Name(n)] + [Punct(':')], false, "{" + g, [Punct('{')], false);
    assert [Punct('(')] + [Name(n)] + [Punct(':')] + [Punct('{')] == [Punct('('), Name(n), Punct(':'), Punct('{')];
  }

  lemma TailShape1(g1: string, g2: string)
    requires IsGap(g1) && IsGap(g2)
    ensures Lexes(((g1 + "}") + (")" + g1)) + ("{" + g2), [Punct('}'), Punct(')'), Punct('{')], false)
  {
    GapLexes(g1);
    MarkLexes('}');
    MarkGapLexes(')', g1);
    MarkGapLexes('{', g2);
    Then(g1, [], false, "}", [Punct('}')], false);
    Then(g1 + "}", [] + [Punct('}')], false, ")" + g1, [Punct(')')], false);
    Then((g1 + "}") + (")" + g1), [] + [Punct('}')] + [Punct(')')], false, "{" + g2, [Punct('{')], false);
    assert [] + [Punct('}')] + [Punct(')')] + [Punct('{')] == [Punct('}'), Punct(')'), Punct('{')];
  }

  lemma TailShape2(n: string, g1: string, g2: string)
    requires IsName(n) && IsGap(g1) && IsGap(g2)
    ensures Lexes(((n + g1) + ("}" + g2)) + "}", [Name(n), Punct('}'), Punct('}')], false)
  {
    WordGapLexes(n, g1);
    MarkGapLexes('}', g2);
    MarkLexes('}');
    Then(n + g1, [Name(n)], false, "}" + g2, [Punct('}')], false);
    Then((n + g1) + ("}" + g2), [Name(n)] + [Punct('}')], false, "}", [Punct('}')], false);
    assert [Name(n)] + [Punct('}')] + [Punct('}')] == [Name(n), Punct('}'), Punct('}')];
  }

  lemma HeadLexes(collection: string)
    requires IsName(CREATE + collection)
    ensures Lexes("mutation {\n\t\t" + (CREATE + collection), [Name("mutation"), Punct('{'), Name(CREATE + collection)], true)
  {
    HeadShape("mutation", " ", "\n\t\t", CREATE + collection);
    assert ("mutation" + " ") + ("{" + "\n\t\t") == "mutation {\n\t\t";
  }

  lemma OpeningLexes()
    ensures Lexes("(input: { ", OPENING, false)
  {
    OpeningShape("input", " ");
    assert (("(" + "input") + (":" + " ")) + ("{" + " ") == "(input: { ";
  }

  const TAIL_1 := " }) {\n\t\t\t"
  const TAIL_2 := "_docID\n\t\t}\n\t}"

  lemma Tail1Lexes()
    ensures Lexes(TAIL_1, [Punct('}'), Punct(')'), Punct('{')], false)
  {
    TailShape1(" ", "\n\t\t\t");
    assert ((" " + "}") + (")" + " ")) + ("{" + "\n\t\t\t") == TAIL_1;
  }

  lemma Tail2Lexes()
    ensures Lexes(TAIL_2, [Name("_docID"), Punct('}'), Punct('}')], false)
  {
    TailShape2("_docID", "\n\t\t", "\n\t");
    assert (("_docID" + "\n\t\t") + ("}" + "\n\t")) + "}" == TAIL_2;
  }

  lemma TailLexes()
    ensures Lexes(TAIL_1 + TAIL_2, [Punct('}')] + CLOSING, false)
  {
    Tail1Lexes();
    Tail2Lexes();
    Then(TAIL_1, [Punct('}'), Punct(')'), Punct('{')], false, TAIL_2, [Name("_docID"), Punct('}'), Punct('}')], false);
    ClosingTokens();
  }

  lemma ClosingTokens()
    ensures [Punct('}'), Punct(')'), Punct('{')] + [Name("_docID"), Punct('}'), Punct('}')] == [Punct('}')] + CLOSING
  {
  }

  lemma {:induction false} ParseStringTokens(texts: seq<string>, rest: seq<Token>)
    ensures ParseStrings(StringTokens(texts) + [Punct(']')] + rest) == Some((texts, rest))
  {
    var ts := StringTokens(texts) + [Punct(']')] + rest;
    if texts == [] {
      assert ts[1..] == rest;
    } else {
      assert ts[0] == StrLit(texts[0]) && ts[1..] == StringTokens(texts[1..]) + [Punct(']')] + rest;
      ParseStringTokens(texts[1..], rest);
      assert [texts[0]] + texts[1..] == texts;
    }
  }

  lemma ParseOneToken(v: Value, rest: seq<Token>)
    requires !(v.Strs? && v.texts.Some?)
    ensures ParseValue(ValueTokens(v) + rest) == Some((Received(v), rest))
  {
    var ts := ValueTokens(v) + rest;
    assert ts[0] == ValueTokens(v)[0] && ts[1..] == rest;
    assert |"true"| == |"null"| == 4 && |"false"| == 5 && "true"[0] == 't' && "null"[0] == 'n';
  }

  lemma ParseValueTokens(v: Value, rest: seq<Token>)
    ensures ParseValue(ValueTokens(v) + rest) == Some((Received(v), rest))
  {
    if v.Strs? && v.texts.Some? {
      var ts := ValueTokens(v) + rest;
      assert ts[0] == Punct('[') && ts[1..] == StringTokens(v.texts.value) + [Punct(']')] + rest;
      ParseStringTokens(v.texts.value, rest);
    } else {
      ParseOneToken(v, rest);
    }
  }

  function ReceivedPairs(order: seq<string>, data: Fields): seq<(string, Value)>
    requires forall i | 0 <= i < |order| :: order[i] in data
  {
    seq(|order|, i requires 0 <= i < |order| => (order[i], Received(data[order[i]])))
  }

  function ReceivedMap(order: seq<string>, data: Fields): Fields
    requires forall i | 0 <= i < |order| :: order[i] in data
  {
    map k | k in order :: Received(data[k])
  }

  lemma ParseOneField(key: string, v: Value, after: seq<Token>)
    ensures ParseFields(FieldTokens(key, v) + after) ==
              if ParseFields(after).None? then None
              else Some(([(key, Received(v))] + ParseFields(after).value.0, ParseFields(after).value.1))
  {
    var ts := FieldTokens(key, v) + after;
    assert ts[0] == Name(key) && ts[1] == Punct(':') && ts[2..] == ValueTokens(v) + after;
    ParseValueTokens(v, after);
  }

  lemma {:induction false} ParseFieldTokens(order: seq<string>, data: Fields, end: seq<Token>)
    requires forall i | 0 <= i < |order| :: order[i] in data
    requires end != [] && end[0] == Punct('}')
    ensures ParseFields(AllFieldTokens(order, data) + end) == Some((ReceivedPairs(order, data), end[1..]))
  {
    if order == [] {
      assert AllFieldTokens(order, data) + end == end;
      assert ReceivedPairs(order, data) == [];
    } else {
      var key, v := order[0], data[order[0]];
      var after := AllFieldTokens(order[1..], data) + end;
      assert AllFieldTokens(order, data) + end == FieldTokens(key, v) + after;
      ParseOneField(key, v, after);
      ParseFieldTokens(order[1..], data, end);
      assert ReceivedPairs(order, data) == [(key, Received(v))] + ReceivedPairs(order[1..], data);
    }
  }

  lemma {:induction false} CollectPairs(order: seq<string>, data: Fields)
    requires forall i | 0 <= i < |order| :: order[i] in data
    requires forall i, j | 0 <= i < j < |order| :: order[i] != order[j]
    ensures Collect(ReceivedPairs(order, data)) == Some(ReceivedMap(order, data))
  {
    if order != [] {
      var init, last := order[..|order| - 1], order[|order| - 1];
      assert ReceivedPairs(order, data)[..|order| - 1] == ReceivedPairs(init, data);
      CollectPairs(init, data);
      assert forall k :: k in order <==> k in init || k == last;
      assert last !in init;
      assert ReceivedMap(order, data) == ReceivedMap(init, data)[last := Received(data[last])];
    }
  }

  lemma VisitsCoversKeys(order: seq<string>, data: Fields)
    requires Visits(order, data)
    ensures forall k :: k in order <==> k in data
  {
    var seen := set k | k in order;
    DistinctCount(order);
    assert seen <= data.Keys && |seen| == |data.Keys|;
    SubsetSameSize(seen, data.Keys);
  }

  lemma {:induction false} DistinctCount(order: seq<string>)
    requires forall i, j | 0 <= i < j < |order| :: order[i] != order[j]
    ensures |set k | k in order| == |order|
  {
    if order != [] {
      var init, last := order[..|order| - 1], order[|order| - 1];
      DistinctCount(init);
      assert (set k | k in order) == (set k | k in init) + {last};
      assert last !in init;
    }
  }

  lemma SubsetSameSize<T>(a: set<T>, b: set<T>)
    requires a <= b && |a| == |b|
    ensures a == b
  {
    assert |b - a| == |b| - |a|;
  }

  // The fields as a reader recovers them; the same map when no value went through the default branch.
  function OnWire(data: Fields): Fields {
    map k | k in data :: Received(data[k])
  }

  function RequestTokens(collection: string, order: seq<string>, data: Fields): seq<Token>
    requires forall i | 0 <= i < |order| :: order[i] in data
  {
    [Name("mutation"), Punct('{'), Name(CREATE + collection)] + OPENING + AllFieldTokens(order, data) + ([Punct('}')] + CLOSING)
  }

  lemma MutationTextCut(collection: string, body: string)
    ensures "mutation {\n\t\tcreate_" + collection + "(input: { " + body + " }) {\n\t\t\t_docID\n\t\t}\n\t}" ==
              ((("mutation {\n\t\t" + (CREATE + collection)) + "(input: { ") + body) + (TAIL_1 + TAIL_2)
  {
    assert "mutation {\n\t\tcreate_" == "mutation {\n\t\t" + CREATE;
    assert " }) {\n\t\t\t_docID\n\t\t}\n\t}" == TAIL_1 + TAIL_2;
    Reassociate("mutation {\n\t\t", CREATE, collection);
  }

  lemma Reassociate(a: string, b: string, c: string)
    ensures (a + b) + c == a + (b + c)
  {
  }

  lemma RequestLexes(collection: string, order: seq<string>, data: Fields, w: Writer)
    requires Sound(w) && IsName(CREATE + collection)
    requires forall i | 0 <= i < |order| :: order[i] in data && IsName(order[i]) && Printable(data[order[i]], w)
    ensures Lex(MutationText(collection, FieldTexts(order, data, w))) == Some(RequestTokens(collection, order, data))
  {
    var head, body := "mutation {\n\t\t" + (CREATE + collection), Join(FieldTexts(order, data, w), ", ");
    var headTokens := [Name("mutation"), Punct('{'), Name(CREATE + collection)];
    HeadLexes(collection);
    OpeningLexes();
    FieldsLex(order, data, w);
    TailLexes();
    Then(head, headTokens, true, "(input: { ", OPENING, false);
    Then(head + "(input: { ", headTokens + OPENING, false, body, AllFieldTokens(order, data), true);
    Then((head + "(input: { ") + body, headTokens + OPENING + AllFieldTokens(order, data), true, TAIL_1 + TAIL_2,
         [Punct('}')] + CLOSING, false);
    MutationTextCut(collection, body);
    Finish(MutationText(collection, FieldTexts(order, data, w)),
         headTokens + OPENING + AllFieldTokens(order, data) + ([Punct('}')] + CLOSING));
  }

  lemma Finish(text: string, ts: seq<Token>)
    requires Lexes(text, ts, false)
    ensures Lex(text) == Some(ts)
  {
    assert text + "" == text && ts + [] == ts;
    assert Lex(text + "") == AddAll(ts, Lex(""));
  }

  // The wire form is the map itself exactly when no value went through the default branch.
  lemma OnWireIsIdentity(data: Fields)
    ensures OnWire(data) == data <==> forall k | k in data :: !data[k].Other?
  {
    if forall k | k in data :: !data[k].Other? {
      assert OnWire(data) == data;
    }
  }

  /**
   Mutation round trip: for every field map with GraphQL names as keys and printable strings, and
   for every iteration order, parsing the printed request gives back the collection and the map,
   with a nil list (null) kept apart from an empty one.
   */
  lemma MutationRoundTrip(collection: string, data: Fields, order: seq<string>, w: Writer)
    requires Sound(w) && IsName(CREATE + collection) && Visits(order, data)
    requires forall k | k in data :: IsName(k) && Printable(data[k], w)
    ensures ParseRequest(MutationText(collection, FieldTexts(order, data, w))) == Some((collection, OnWire(data)))
  {
    RequestLexes(collection, order, data, w);
    ParseTokens(collection, order, data);
    VisitsCoversKeys(order, data);
    assert OnWire(data) == ReceivedMap(order, data);
  }

  lemma ParseTokens(collection: string, order: seq<string>, data: Fields)
    requires Visits(order, data)
    ensures ParseMutation(RequestTokens(collection, order, data)) == Some((collection, ReceivedMap(order, data)))
  {
    var ts := RequestTokens(collection, order, data);
    var head := [Name("mutation"), Punct('{'), Name(CREATE + collection)] + OPENING;
    assert |head| == 7 && head[2] == Name(CREATE + collection);
    var end := [Punct('}')] + CLOSING;
    assert ts == head + (AllFieldTokens(order, data) + end);
    assert ts[..7] == head && ts[7..] == AllFieldTokens(order, data) + end && end[1..] == CLOSING;
    CreatePrefix(collection);
    ParseFieldTokens(order, data, end);
    CollectPairs(order, data);
  }

  lemma CreatePrefix(collection: string)
    ensures |CREATE| == 7 && (CREATE + collection)[..7] == CREATE && (CREATE + collection)[7..] == collection
  {
  }

  /**
   The field loop of PostToCollection and the query it ends with. The map is visited in whatever
   order it yields its keys; the query parses back to the collection and the map all the same.
   */
  method Render(collection: string, data: Fields, w: Writer) returns (query: string, ghost order: seq<string>)
    ensures Visits(order, data)
    ensures query == MutationText(collection, FieldTexts(order, data, w))
    ensures Sound(w) && IsName(CREATE + collection) && (forall k | k in data :: IsName(k) && Printable(data[k], w)) ==>
              ParseRequest(query) == Some((collection, OnWire(data)))
  {
    hide ParseRequest, MutationText, IsName, Printable, Sound, OnWire;
    var inputFields: seq<string> := [];
    order := [];
    var left := data.Keys;
    while left != {}
      invariant left <= data.Keys && |order| + |left| == |data|
      invariant forall i | 0 <= i < |order| :: order[i] in data && order[i] !in left
      invariant forall i, j | 0 <= i < j < |order| :: order[i] != order[j]
      invariant inputFields == FieldTexts(order, data, w)
    {
      var key :| key in left;
      inputFields := inputFields + [FieldText(key, data[key], w)];
      order := order + [key];
      left := left - {key};
    }
    query := MutationText(collection, inputFields);
    if Sound(w) && IsName(CREATE + collection) && forall k | k in data :: IsName(k) && Printable(data[k], w) {
      MutationRoundTrip(collection, data, order, w);
    }
  }
}
