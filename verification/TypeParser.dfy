/** The type parser of src/frontend/parser/parser.c: a written type becomes the text of its type. */
module TypeParser {
  import opened Wrappers

  datatype Token =
    | Word(name: string) | Ident(name: string) | LBrace | RBrace | LBracket | RBracket | Colon | Comma | Other

  type Tokens = seq<Token>

  datatype Parsed = Bad | Parsed(text: string, next: nat)

  type Aliases = map<string, string>

  predicate Has(t: Tokens, i: nat, token: Token) {
    i < |t| && t[i] == token
  }

  // ----- as functions -----

  /** A written type from `i` on, as text. Aliases stand for the text they were declared with. */
  function ParseTypeName(t: Tokens, i: nat, aliases: Aliases): (r: Parsed)
    requires i <= |t|
    ensures r.Parsed? ==> i < r.next <= |t|
    decreases |t| - i, 1
  {
    if i == |t| then Bad
    else
      match t[i]
      case Word(name) => Suffixes(t, i + 1, name)
      case Ident(name) => if name in aliases then Suffixes(t, i + 1, aliases[name]) else Bad
      case LBrace =>
        (match ParseObject(t, i + 1, aliases)
         case Bad => Bad
         case Parsed(text, j) => Suffixes(t, j, text))
      case _ => Bad
  }

  /** Each pair of brackets wraps the type in an array. */
  function Suffixes(t: Tokens, i: nat, text: string): (r: Parsed)
    requires i <= |t|
    ensures r.Parsed? && i <= r.next <= |t|
    decreases |t| - i
  {
    if Has(t, i, LBracket) && Has(t, i + 1, RBracket) then Suffixes(t, i + 2, "array<"
      + (text + ">")) else Parsed(text, i)
  }

  function ParseObject(t: Tokens, i: nat, aliases: Aliases): (r: Parsed)
    requires i <= |t|
    ensures r.Parsed? ==> i < r.next <= |t|
    decreases |t| - i, 4
  {
    if Has(t, i, RBrace) then Parsed("object{" + "}", i + 1) else ParseFields(t, i, aliases, "object{")
  }

  /** A key, a colon and a type. */
  function ParseField(t: Tokens, i: nat, aliases: Aliases): (r: Parsed)
    requires i <= |t|
    ensures r.Parsed? ==> i < r.next <= |t|
    decreases |t| - i, 2
  {
    if !(i < |t| && t[i].Ident? && Has(t, i + 1, Colon)) then Bad
    else
      match ParseTypeName(t, i + 2, aliases)
      case Bad => Bad
      case Parsed(text, j) => Parsed(t[i].name + (":" + text), j)
  }

  /** The fields from `i` on, after what was written before. A comma before the closing brace is
      accepted. */
  function ParseFields(t: Tokens, i: nat, aliases: Aliases, before: string): (r: Parsed)
    requires i <= |t|
    ensures r.Parsed? ==> i < r.next <= |t|
    decreases |t| - i, 3
  {
    match ParseField(t, i, aliases)
    case Bad => Bad
    case Parsed(field, j) =>
      if Has(t, j, Comma) && !Has(t, j + 1, RBrace) then ParseFields(t, j + 1, aliases, before + field + ",")
      else
        var k := if Has(t, j, Comma) then j + 1 else j;
        if Has(t, k, RBrace) then Parsed(before + field + "}", k + 1) else Bad
  }

  // ----- as methods -----

  class Parser {
    const tokens: Tokens
    const aliases: Aliases
    var index: nat
    var error: bool

    constructor (tokens: Tokens, aliases: Aliases)
      ensures this.tokens == tokens && this.aliases == aliases && index == 0 && !error
    {
      this.tokens, this.aliases, index, error := tokens, aliases, 0, false;
    }

    predicate Valid()
      reads this
    {
      !error && index <= |tokens|
    }

    ghost predicate Did(r: Parsed, text: Option<string>)
      reads this
    {
      match r
      case Bad => text.None? && error
      case Parsed(s, j) => text == Some(s) && Valid() && index == j
    }

    method ParseTypeNameHere() returns (result: Option<string>)
      requires Valid()
      modifies this
      ensures Did(ParseTypeName(tokens, old(index), aliases), result)
      decreases |tokens| - index, 1
    {
      if index >= |tokens| {
        error := true;
        return None;
      }
      var token := tokens[index];
      var text: string;
      if token.Word? {
        text := token.name;
        index := index + 1;
      } else if token.Ident? {
        if token.name !in aliases {
          error := true;
          return None;
        }
        text := aliases[token.name];
        index := index + 1;
      } else if token.LBrace? {
        var object_ := ParseObjectHere();
        if object_.None? {
          return None;
        }
        text := object_.value;
      } else {
        error := true;
        return None;
      }
      while index < |tokens| && tokens[index] == LBracket && index + 1 < |tokens| && tokens[index + 1] == RBracket
        invariant Valid() && old(index) < index
        invariant Suffixes(tokens, index, text) == ParseTypeName(tokens, old(index), aliases)
      {
        index := index + 2;
        text := "array<" + (text + ">");
      }
      return Some(text);
    }

    method ParseFieldHere() returns (result: Option<string>)
      requires Valid()
      modifies this
      ensures Did(ParseField(tokens, old(index), aliases), result)
      decreases |tokens| - index, 2
    {
      if !(index < |tokens| && tokens[index].Ident?) {
        error := true;
        return None;
      }
      var key := tokens[index].name;
      index := index + 1;
      if !Has(tokens, index, Colon) {
        error := true;
        return None;
      }
      index := index + 1;
      var type_ := ParseTypeNameHere();
      return if type_.None? then None else Some(key + (":" + type_.value));
    }

    /** The opening brace is at the index. */
    method ParseObjectHere() returns (result: Option<string>)
      requires Valid() && Has(tokens, index, LBrace)
      modifies this
      ensures Did(ParseObject(tokens, old(index) + 1, aliases), result)
      decreases |tokens| - index, 0
    {
      index := index + 1;
      var buffer := "object{";
      if !Has(tokens, index, RBrace) {
        while true
          invariant Valid() && old(index) < index
          invariant ParseFields(tokens, index, aliases, buffer) == ParseObject(tokens, old(index) + 1, aliases)
          decreases |tokens| - index
        {
          var field := ParseFieldHere();
          if field.None? {
            return None;
          }
          buffer := buffer + field.value;
          if !Has(tokens, index, Comma) {
            break;
          }
          index := index + 1;
          if Has(tokens, index, RBrace) {
            break;
          }
          buffer := buffer + ",";
        }
      }
      if !Has(tokens, index, RBrace) {
        error := true;
        return None;
      }
      index := index + 1;
      return Some(buffer + "}");
    }
  }
}
