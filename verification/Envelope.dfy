/** The JSON request body of SendToGraphql, and what a server gets out of it. */
module Envelope {
  import opened Wrappers
  import opened StringLiterals
  import opened Mutation

  const MEMBER := "query"

  // json.Marshal of struct { Query string `json:"query"` }.
  function RequestBody(query: string): string {
    ObjectText(MEMBER, query)
  }

  function ObjectText(name: string, value: string): string {
    "{" + Quoted(name, Marshal) + ":" + Quoted(value, Marshal) + "}"
  }

  function SkipSpace(s: string): (t: string)
    ensures |t| <= |s|
  {
    if s != [] && (s[0] == ' ' || s[0] == '\t' || s[0] == '\n' || s[0] == '\r') then SkipSpace(s[1..]) else s
  }

  function Expect(s: string, c: char): Option<string> {
    var t := SkipSpace(s);
    if t != [] && t[0] == c then Some(t[1..]) else None
  }

  function ReadString(s: string): Reading {
    match Expect(s, QUOTE)
    case None => None
    case Some(body) => ReadBody(body, InJson)
  }

  function DecodeBody(body: string): Option<string> {
    DecodeMember(body, "query")
  }

  // The value of a JSON object's one member, which must have this name; white space is allowed between tokens.
  function DecodeMember(body: string, member: string): Option<string> {
    match Expect(body, '{')
    case None => None
    case Some(s) =>
      match ReadString(s)
      case None => None
      case Some((name, t)) =>
        if name != member then None
        else match Expect(t, ':')
          case None => None
          case Some(u) =>
            match ReadString(u)
            case None => None
            case Some((value, v)) =>
              match Expect(v, '}')
              case None => None
              case Some(end) => if SkipSpace(end) == [] then Some(value) else None
  }

  lemma ReadStringWritten(text: string, rest: string)
    ensures ReadString(Quoted(text, Marshal) + rest) == Some((text, rest))
  {
    var s := Quoted(text, Marshal) + rest;
    assert s[0] == QUOTE && s[1..] == WriteBody(text, Marshal) + [QUOTE] + rest;
    ReadWritten(text, Marshal, InJson, rest);
  }

  lemma ExpectWritten(c: char, rest: string)
    requires c == '{' || c == ':' || c == '}'
    ensures Expect([c] + rest, c) == Some(rest)
  {
    assert ([c] + rest)[1..] == rest;
  }

  /**
   Two-layer encoding, outer layer: decoding the body gives back exactly the query text, for every
   text, although the encoder rewrites quotes, controls, angle brackets and ampersands.
   */
  lemma BodyRoundTrip(query: string)
    ensures DecodeMember(RequestBody(query), "query") == Some(query)
  {
    MemberRoundTrip(MEMBER, query);
  }

  lemma MemberRoundTrip(name: string, value: string)
    ensures DecodeMember(ObjectText(name, value), name) == Some(value)
  {
    var v := "}" + "";
    var u := Quoted(value, Marshal) + v;
    var t := ":" + u;
    var s := Quoted(name, Marshal) + t;
    assert ObjectText(name, value) == "{" + s;
    ExpectWritten('{', s);
    ReadStringWritten(name, t);
    ExpectWritten(':', u);
    ReadStringWritten(value, v);
    ExpectWritten('}', "");
    Assemble(ObjectText(name, value), name, value, s, t, u, v);
  }

  lemma Assemble(body: string, name: string, value: string, s: string, t: string, u: string, v: string)
    requires Expect(body, '{') == Some(s) && ReadString(s) == Some((name, t))
    requires Expect(t, ':') == Some(u) && ReadString(u) == Some((value, v))
    requires Expect(v, '}') == Some("")
    ensures DecodeMember(body, name) == Some(value)
  {
  }

  // What a GraphQL server makes of a request body: the collection and the document's fields.
  function Deliver(body: string): Option<(string, Fields)> {
    match DecodeBody(body)
    case None => None
    case Some(query) => ParseRequest(query)
  }

  // Both layers: decode and parse invert print and encode.
  lemma DeliveryRoundTrip(collection: string, data: Fields, order: seq<string>, w: Writer)
    requires Sound(w) && IsName(CREATE + collection) && Visits(order, data)
    requires forall k | k in data :: IsName(k) && Printable(data[k], w)
    ensures Deliver(RequestBody(MutationText(collection, FieldTexts(order, data, w)))) == Some((collection, OnWire(data)))
  {
    BodyRoundTrip(MutationText(collection, FieldTexts(order, data, w)));
    MutationRoundTrip(collection, data, order, w);
  }
}
