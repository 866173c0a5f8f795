/** The strict JSON object decoder: one object, no duplicate names at any depth, nothing after it.
    It consumes the token stream of a lexer that is a parameter. */
module StrictJson {
  import opened Prelude

  datatype Token =
    | OpenObject | CloseObject | OpenArray | CloseArray
    | Text(text: string) | Number(literal: string) | Boolean(b: bool) | Null
  {
    predicate Scalar() { Text? || Number? || Boolean? || Null? }
  }

  /** What decoding returns: objects forget the order of their members. */
  datatype Value = Atom(token: Token) | Object(members: map<string, Value>) | Array(items: seq<Value>)

  // ---------------------------------------------------------------- documents and their tokens

  datatype Doc = Leaf(token: Token) | Obj(members: Members) | Arr(items: Items)

  datatype Members = NoMembers | Member(name: string, value: Doc, rest: Members)

  datatype Items = NoItems | Item(value: Doc, rest: Items)

  /** Section 4 of RFC 8259, with the commas and colons that the lexer already checked left out. */
  function Flatten(doc: Doc): seq<Token> {
    match doc
    case Leaf(token) => [token]
    case Obj(members) => [OpenObject] + FlattenMembers(members) + [CloseObject]
    case Arr(items) => [OpenArray] + FlattenItems(items) + [CloseArray]
  }

  function FlattenMembers(members: Members): seq<Token> {
    match members
    case NoMembers => []
    case Member(name, value, rest) => [Text(name)] + Flatten(value) + FlattenMembers(rest)
  }

  function FlattenItems(items: Items): seq<Token> {
    match items
    case NoItems => []
    case Item(value, rest) => Flatten(value) + FlattenItems(rest)
  }

  function Names(members: Members): set<string> {
    match members
    case NoMembers => {}
    case Member(name, _, rest) => {name} + Names(rest)
  }

  /** Leaves are scalars, and no object names a member twice, at any depth. */
  predicate WellFormed(doc: Doc) {
    match doc
    case Leaf(token) => token.Scalar()
    case Obj(members) => WellFormedMembers(members)
    case Arr(items) => WellFormedItems(items)
  }

  predicate WellFormedMembers(members: Members) {
    match members
    case NoMembers => true
    case Member(name, value, rest) => name !in Names(rest) && WellFormed(value) && WellFormedMembers(rest)
  }

  predicate WellFormedItems(items: Items) {
    match items
    case NoItems => true
    case Item(value, rest) => WellFormed(value) && WellFormedItems(rest)
  }

  function Meaning(doc: Doc): Value {
    match doc
    case Leaf(token) => Atom(token)
    case Obj(members) => Object(MeaningOfMembers(members, map[]))
    case Arr(items) => Array(MeaningOfItems(items, []))
  }

  function MeaningOfMembers(members: Members, known: map<string, Value>): map<string, Value>
    decreases members
  {
    match members
    case NoMembers => known
    case Member(name, value, rest) => MeaningOfMembers(rest, known[name := Meaning(value)])
  }

  function MeaningOfItems(items: Items, known: seq<Value>): seq<Value>
    decreases items
  {
    match items
    case NoItems => known
    case Item(value, rest) => MeaningOfItems(rest, known + [Meaning(value)])
  }

  // ---------------------------------------------------------------- decoding as a function

  type Parsed = (Value, seq<Token>)

  /** json.Decoder.More */
  predicate More(tokens: seq<Token>) {
    tokens != [] && !tokens[0].CloseObject? && !tokens[0].CloseArray?
  }

  function ParseValue(tokens: seq<Token>): (result: Result<Parsed>)
    ensures result.Ok? ==> |result.value.1| < |tokens|
    decreases |tokens|, 0
  {
    if tokens == [] then Err
    else if tokens[0].Scalar() then Ok((Atom(tokens[0]), tokens[1..]))
    else if tokens[0].OpenObject? then ParseMembers(tokens[1..], map[])
    else if tokens[0].OpenArray? then ParseItems(tokens[1..], [])
    else Err
  }

  function ParseMembers(tokens: seq<Token>, known: map<string, Value>): (result: Result<Parsed>)
    ensures result.Ok? ==> |result.value.1| < |tokens|
    decreases |tokens|, 1
  {
    if !More(tokens) then
      if tokens != [] && tokens[0].CloseObject? then Ok((Object(known), tokens[1..])) else Err
    else if !tokens[0].Text? || tokens[0].text in known then Err
    else
      match ParseValue(tokens[1..])
      case Ok((value, rest)) => ParseMembers(rest, known[tokens[0].text := value])
      case Err => Err
  }

  function ParseItems(tokens: seq<Token>, known: seq<Value>): (result: Result<Parsed>)
    ensures result.Ok? ==> |result.value.1| < |tokens|
    decreases |tokens|, 1
  {
    if !More(tokens) then
      if tokens != [] && tokens[0].CloseArray? then Ok((Array(known), tokens[1..])) else Err
    else
      match ParseValue(tokens)
      case Ok((value, rest)) => ParseItems(rest, known + [value])
      case Err => Err
  }

  /** `clean` tells a stream that ends from one the lexer gave up on. */
  function ParseObject(tokens: seq<Token>, clean: bool): Result<map<string, Value>> {
    match ParseValue(tokens)
    case Ok((value, rest)) => if rest == [] && clean && value.Object? then Ok(value.members) else Err
    case Err => Err
  }

  /** The spelling of objects and arrays, and what their values are. */
  lemma SpellingOfDocuments(name: string, value: Doc, members: Members, items: Items)
    ensures Flatten(Obj(NoMembers)) == [OpenObject, CloseObject] && Flatten(Arr(NoItems)) == [OpenArray, CloseArray]
    ensures FlattenMembers(Member(name, value, members)) == [Text(name)] + (Flatten(value) + FlattenMembers(members))
    ensures Meaning(Arr(Item(Leaf(Null), Item(value, NoItems)))) == Array([Atom(Null), Meaning(value)])
    ensures Meaning(Obj(Member(name, value, NoMembers))) == Object(map[name := Meaning(value)])
  {
    assert MeaningOfMembers(NoMembers, map[name := Meaning(value)]) == map[name := Meaning(value)];
    assert [OpenObject] + [] + [CloseObject] == [OpenObject, CloseObject];
    assert [OpenArray] + [] + [CloseArray] == [OpenArray, CloseArray];
    Associates([Text(name)], Flatten(value), FlattenMembers(members));
    assert [Atom(Null)] + [Meaning(value)] == [Atom(Null), Meaning(value)];
    assert [] + [Meaning(Leaf(Null))] == [Atom(Null)];
    assert MeaningOfItems(Item(value, NoItems), [Atom(Null)]) == [Atom(Null)] + [Meaning(value)];
  }

  // ---------------------------------------------------------------- flatten, then decode

  lemma FirstToken(doc: Doc)
    requires WellFormed(doc)
    ensures More(Flatten(doc)) && Flatten(doc) != []
  {
  }

  lemma {:induction false} DecodesValue(doc: Doc, rest: seq<Token>)
    requires WellFormed(doc)
    ensures ParseValue(Flatten(doc) + rest) == Ok((Meaning(doc), rest))
    decreases doc
  {
    var tokens := Flatten(doc) + rest;
    match doc
    case Leaf(token) => assert tokens[1..] == rest;
    case Obj(members) =>
      assert tokens[1..] == FlattenMembers(members) + ([CloseObject] + rest);
      DecodesMembers(members, map[], rest);
    case Arr(items) =>
      assert tokens[1..] == FlattenItems(items) + ([CloseArray] + rest);
      DecodesItems(items, [], rest);
  }

  lemma {:induction false} DecodesMembers(members: Members, known: map<string, Value>, rest: seq<Token>)
    requires WellFormedMembers(members) && Names(members) !! known.Keys
    ensures ParseMembers(FlattenMembers(members) + ([CloseObject] + rest), known)
         == Ok((Object(MeaningOfMembers(members, known)), rest))
    decreases members
  {
    var tokens := FlattenMembers(members) + ([CloseObject] + rest);
    match members
    case NoMembers =>
      assert tokens == [CloseObject] + rest && tokens[1..] == rest;
    case Member(name, value, more) =>
      assert tokens[0] == Text(name);
      assert tokens[1..] == Flatten(value) + (FlattenMembers(more) + ([CloseObject] + rest));
      DecodesValue(value, FlattenMembers(more) + ([CloseObject] + rest));
      DecodesMembers(more, known[name := Meaning(value)], rest);
  }

  lemma {:induction false} DecodesItems(items: Items, known: seq<Value>, rest: seq<Token>)
    requires WellFormedItems(items)
    ensures ParseItems(FlattenItems(items) + ([CloseArray] + rest), known) == Ok((Array(MeaningOfItems(items, known)), rest))
    decreases items
  {
    var tokens := FlattenItems(items) + ([CloseArray] + rest);
    match items
    case NoItems =>
      assert tokens == [CloseArray] + rest && tokens[1..] == rest;
    case Item(value, more) =>
      FirstToken(value);
      assert tokens == Flatten(value) + (FlattenItems(more) + ([CloseArray] + rest));
      assert tokens[0] == Flatten(value)[0];
      DecodesValue(value, FlattenItems(more) + ([CloseArray] + rest));
      DecodesItems(more, known + [Meaning(value)], rest);
  }

  // ---------------------------------------------------------------- only flattenings decode

  lemma Wrapped(open: Token, inner: seq<Token>, close: Token, rest: seq<Token>)
    ensures [open] + (inner + ([close] + rest)) == [open] + inner + [close] + rest
  {
  }

  lemma Regrouped(a: seq<Token>, b: seq<Token>, c: seq<Token>, d: seq<Token>)
    ensures a + (b + (c + d)) == a + b + c + d
  {
  }

  lemma {:induction false} ValueWasFlattened(tokens: seq<Token>) returns (doc: Doc)
    requires ParseValue(tokens).Ok?
    ensures WellFormed(doc)
    ensures var (value, rest) := ParseValue(tokens).value; tokens == Flatten(doc) + rest && value == Meaning(doc)
    decreases |tokens|, 0
  {
    var rest := ParseValue(tokens).value.1;
    assert tokens == [tokens[0]] + tokens[1..];
    if tokens[0].OpenObject? {
      var members := MembersWereFlattened(tokens[1..], map[]);
      doc := Obj(members);
      Wrapped(OpenObject, FlattenMembers(members), CloseObject, rest);
    } else if tokens[0].OpenArray? {
      var items := ItemsWereFlattened(tokens[1..], []);
      doc := Arr(items);
      Wrapped(OpenArray, FlattenItems(items), CloseArray, rest);
    } else {
      doc := Leaf(tokens[0]);
    }
  }

  lemma {:induction false} MembersWereFlattened(tokens: seq<Token>, known: map<string, Value>) returns (members: Members)
    requires ParseMembers(tokens, known).Ok?
    ensures WellFormedMembers(members) && Names(members) !! known.Keys
    ensures var (value, rest) := ParseMembers(tokens, known).value;
            tokens == FlattenMembers(members) + ([CloseObject] + rest) && value == Object(MeaningOfMembers(members, known))
    decreases |tokens|, 1
  {
    assert tokens == [tokens[0]] + tokens[1..];
    if !More(tokens) {
      members := NoMembers;
    } else {
      var name := tokens[0].text;
      var (value, rest) := ParseValue(tokens[1..]).value;
      var doc := ValueWasFlattened(tokens[1..]);
      var more := MembersWereFlattened(rest, known[name := value]);
      members := Member(name, doc, more);
      var left := ParseMembers(tokens, known).value.1;
      Regrouped([Text(name)], Flatten(doc), FlattenMembers(more), [CloseObject] + left);
    }
  }

  lemma {:induction false} ItemsWereFlattened(tokens: seq<Token>, known: seq<Value>) returns (items: Items)
    requires ParseItems(tokens, known).Ok?
    ensures WellFormedItems(items)
    ensures var (value, rest) := ParseItems(tokens, known).value;
            tokens == FlattenItems(items) + ([CloseArray] + rest) && value == Array(MeaningOfItems(items, known))
    decreases |tokens|, 1
  {
    if !More(tokens) {
      items := NoItems;
      assert tokens == [tokens[0]] + tokens[1..];
    } else {
      var (value, rest) := ParseValue(tokens).value;
      var doc := ValueWasFlattened(tokens);
      var more := ItemsWereFlattened(rest, known + [value]);
      items := Item(doc, more);
      var left := ParseItems(tokens, known).value.1;
      assert Flatten(doc) + (FlattenItems(more) + ([CloseArray] + left)) == FlattenItems(items) + ([CloseArray] + left);
    }
  }

  /** Flattening an object with distinct names and decoding it gives the object back. */
  lemma FlattenThenDecode(members: Members)
    requires WellFormedMembers(members)
    ensures ParseObject(Flatten(Obj(members)), true) == Ok(MeaningOfMembers(members, map[]))
  {
    DecodesValue(Obj(members), []);
    assert Flatten(Obj(members)) + [] == Flatten(Obj(members));
  }

  ghost predicate Flattens(members: Members, tokens: seq<Token>) {
    WellFormedMembers(members) && tokens == Flatten(Obj(members))
  }

  /** A stream decodes exactly when it ends cleanly and is the flattening of one object in which no
      object at any depth repeats a name; what it decodes to is that object. */
  lemma DecodesExactlyObjects(tokens: seq<Token>, clean: bool)
    ensures ParseObject(tokens, clean).Ok? <==> clean && exists members :: Flattens(members, tokens)
    ensures forall members :: Flattens(members, tokens) && clean ==>
              ParseObject(tokens, clean) == Ok(MeaningOfMembers(members, map[]))
  {
    if ParseObject(tokens, clean).Ok? {
      var doc := ValueWasFlattened(tokens);
      assert Flatten(doc) + [] == Flatten(doc);
      assert doc.Obj? && Flattens(doc.members, tokens);
    }
    forall members | Flattens(members, tokens) && clean
      ensures ParseObject(tokens, clean) == Ok(MeaningOfMembers(members, map[]))
    {
      FlattenThenDecode(members);
    }
  }

  lemma {:induction false} MeaningEntries(members: Members, known: map<string, Value>)
    requires WellFormedMembers(members) && Names(members) !! known.Keys
    ensures MeaningOfMembers(members, known).Keys == known.Keys + Names(members)
    ensures forall name :: name in known ==> MeaningOfMembers(members, known)[name] == known[name]
  {
    if members.Member? { MeaningEntries(members.rest, known[members.name := Meaning(members.value)]); }
  }

  // ---------------------------------------------------------------- the decoder as it runs

  /** json.Decoder, reduced to the tokens it still has to deliver. */
  class Decoder {
    var tokens: seq<Token>
    const clean: bool

    constructor (tokens: seq<Token>, clean: bool)
      ensures this.tokens == tokens && this.clean == clean
    {
      this.tokens, this.clean := tokens, clean;
    }

    /** Nothing is delivered at the end of the stream or where the lexer gives up. */
    method Next() returns (token: Option<Token>)
      modifies this
      ensures old(tokens) == [] ==> token.None? && tokens == []
      ensures old(tokens) != [] ==> token == Some(old(tokens)[0]) && tokens == old(tokens)[1..]
    {
      if tokens == [] { return None; }
      token := Some(tokens[0]);
      tokens := tokens[1..];
    }
  }

  method DecodeValue(decoder: Decoder) returns (result: Result<Value>)
    modifies decoder
    ensures result.Ok? <==> ParseValue(old(decoder.tokens)).Ok?
    ensures result.Ok? ==> ParseValue(old(decoder.tokens)) == Ok((result.value, decoder.tokens))
    decreases |decoder.tokens|, 0
  {
    var token := decoder.Next();
    if token.None? { return Err; }
    if token.value.Scalar() { return Ok(Atom(token.value)); }
    if token.value.OpenObject? {
      result := DecodeMembers(decoder);
    } else if token.value.OpenArray? {
      result := DecodeItems(decoder);
    } else {
      result := Err;
    }
  }

  method DecodeMembers(decoder: Decoder) returns (result: Result<Value>)
    modifies decoder
    ensures result.Ok? <==> ParseMembers(old(decoder.tokens), map[]).Ok?
    ensures result.Ok? ==> ParseMembers(old(decoder.tokens), map[]) == Ok((result.value, decoder.tokens))
    decreases |decoder.tokens|, 1
  {
    var members: map<string, Value> := map[];
    while More(decoder.tokens)
      invariant |decoder.tokens| <= |old(decoder.tokens)|
      invariant ParseMembers(old(decoder.tokens), map[]) == ParseMembers(decoder.tokens, members)
      decreases |decoder.tokens|
    {
      var key := decoder.Next();
      if !key.value.Text? || key.value.text in members { return Err; }
      var value := DecodeValue(decoder);
      if value.Err? { return Err; }
      members := members[key.value.text := value.value];
    }
    var end := decoder.Next();
    if end != Some(CloseObject) { return Err; }
    result := Ok(Object(members));
  }

  method DecodeItems(decoder: Decoder) returns (result: Result<Value>)
    modifies decoder
    ensures result.Ok? <==> ParseItems(old(decoder.tokens), []).Ok?
    ensures result.Ok? ==> ParseItems(old(decoder.tokens), []) == Ok((result.value, decoder.tokens))
    decreases |decoder.tokens|, 1
  {
    var items: seq<Value> := [];
    while More(decoder.tokens)
      invariant |decoder.tokens| <= |old(decoder.tokens)|
      invariant ParseItems(old(decoder.tokens), []) == ParseItems(decoder.tokens, items)
      decreases |decoder.tokens|
    {
      var value := DecodeValue(decoder);
      if value.Err? { return Err; }
      items := items + [value.value];
    }
    var end := decoder.Next();
    if end != Some(CloseArray) { return Err; }
    result := Ok(Array(items));
  }

  /** UTF-8 validity and the lexer. */
  datatype Lexer = Lexer(utf8: Bytes -> bool, tokens: Bytes -> seq<Token>, clean: Bytes -> bool)

  method DecodeStrictJSONObject(lexer: Lexer, raw: Bytes) returns (result: Result<map<string, Value>>)
    ensures result == if lexer.utf8(raw) then ParseObject(lexer.tokens(raw), lexer.clean(raw)) else Err
  {
    if !lexer.utf8(raw) { return Err; }
    var decoder := new Decoder(lexer.tokens(raw), lexer.clean(raw));
    var value := DecodeValue(decoder);
    if value.Err? { return Err; }
    var trailing := decoder.Next();
    if trailing.Some? || !decoder.clean { return Err; }
    if !value.value.Object? { return Err; }
    result := Ok(value.value.members);
  }
}
