/** JSON values, the parser of libs/json/parse.adn and the printers of libs/json/stringify.adn, as
    functions. */
module Json {
  import opened Wrappers
  import opened Bytes

  /** How the text of a number is converted to a floating-point value, and a value to text. */
  datatype Floats<!N> = Floats(read: Text -> N, show: N -> Text)

  datatype Value<N> =
    | Null
    | Bool(b: bool)
    | Number(n: N)
    | Str(s: Text)
    | Arr(items: seq<Value<N>>)
    | Obj(members: seq<Member<N>>)

  datatype Member<N> = Member(key: Text, value: Value<N>)

  function Size<N>(v: Value<N>): nat
    decreases v
  {
    match v
    case Arr(items) => 1 + SizeItems(items)
    case Obj(members) => 1 + SizeMembers(members)
    case _ => 1
  }

  function SizeItems<N>(items: seq<Value<N>>): nat
    decreases items
  {
    if items == [] then 0 else 1 + Size(items[0]) + SizeItems(items[1..])
  }

  function SizeMembers<N>(members: seq<Member<N>>): nat
    decreases members
  {
    if members == [] then 0 else 1 + Size(members[0].value) + SizeMembers(members[1..])
  }

  const QUOTE: Byte := 34
  const SLASH: Byte := 47
  const NEWLINE: Byte := 10
  const SPACE: Byte := 32
  const MINUS: Byte := 45
  const CLOSE_BRACKET: Byte := 93

  const TRUE: Text := [116, 114, 117, 101]
  const FALSE: Text := [102, 97, 108, 115, 101]
  const NULL: Text := [110, 117, 108, 108]

  // ----- parsing -----

  datatype Parsed<T> = Fail | Ok(value: T, next: nat)

  predicate IsWhitespace(c: Byte) {
    c == SPACE || c == 9 || c == NEWLINE || c == 13
  }

  function SkipWs(t: Text, i: nat): (r: nat)
    requires i <= |t|
    ensures i <= r <= |t| && (r < |t| ==> !IsWhitespace(t[r]))
    decreases |t| - i
  {
    if i < |t| && IsWhitespace(t[i]) then SkipWs(t, i + 1) else i
  }

  /** The character an escape letter stands for. */
  function Unescape(c: Byte): Option<Byte> {
    if c == QUOTE || c == BACKSLASH || c == SLASH then Some(c)
    else if c == Ch('b') then Some(8)
    else if c == Ch('f') then Some(12)
    else if c == Ch('n') then Some(NEWLINE)
    else if c == Ch('r') then Some(13)
    else if c == Ch('t') then Some(9)
    else None
  }

  function ParseStringRest(t: Text, i: nat, result: Text): (r: Parsed<Text>)
    requires i <= |t|
    ensures r.Ok? ==> i < r.next <= |t|
    decreases |t| - i
  {
    if i == |t| then Fail
    else if t[i] == QUOTE then Ok(result, i + 1)
    else if t[i] == BACKSLASH then
      if i + 1 >= |t| then Fail
      else
        match Unescape(t[i + 1])
        case None => Fail
        case Some(c) => ParseStringRest(t, i + 2, result + [c])
    else ParseStringRest(t, i + 1, result + [t[i]])
  }

  function ParseString(t: Text, i: nat): (r: Parsed<Text>)
    requires i <= |t|
    ensures r.Ok? ==> i < r.next <= |t|
  {
    if At(t, i, QUOTE) then ParseStringRest(t, i + 1, []) else Fail
  }

  function DigitsEnd(t: Text, i: nat): (r: nat)
    requires i <= |t|
    ensures i <= r <= |t| && (r < |t| ==> !IsDigit(t[r]))
    ensures forall j | i <= j < r :: IsDigit(t[j])
    decreases |t| - i
  {
    if i < |t| && IsDigit(t[i]) then DigitsEnd(t, i + 1) else i
  }

  predicate IsExponent(c: Byte) {
    c == Ch('e') || c == Ch('E')
  }

  /** Where the fraction ends, after the whole digits between `start` and `whole`, and whether there
      was a digit before it or in it. */
  function FractionEnd(t: Text, start: nat, whole: nat): (r: (nat, bool))
    requires start <= whole <= |t|
    ensures whole <= r.0 <= |t| && (r.1 ==> start < r.0)
  {
    if At(t, whole, DOT) then
      var end := DigitsEnd(t, whole + 1);
      (end, whole > start || end > whole + 1)
    else (whole, whole > start)
  }

  /** Where the sign, the digits and the fraction end, and whether there was a digit. */
  function MantissaEnd(t: Text, i: nat): (r: (nat, bool))
    requires i <= |t|
    ensures i <= r.0 <= |t| && (r.1 ==> i < r.0)
  {
    var start := if At(t, i, MINUS) then i + 1 else i;
    FractionEnd(t, start, DigitsEnd(t, start))
  }

  /** Where the exponent that may start at `i` ends. */
  function ExponentEnd(t: Text, i: nat): (r: Option<nat>)
    requires i <= |t|
    ensures r.Some? ==> i <= r.value <= |t|
  {
    if i < |t| && IsExponent(t[i]) then
      var start := if At(t, i + 1, PLUS) || At(t, i + 1, MINUS) then i + 2 else i + 1;
      var end := DigitsEnd(t, start);
      if end == start then None else Some(end)
    else Some(i)
  }

  /** Where the number that starts at `i` ends. */
  function NumberEnd(t: Text, i: nat): (r: Option<nat>)
    requires i <= |t|
    ensures r.Some? ==> i < r.value <= |t|
  {
    var (mantissa, sawDigit) := MantissaEnd(t, i);
    if sawDigit then ExponentEnd(t, mantissa) else None
  }

  predicate Word(t: Text, i: nat, w: Text) {
    i + |w| <= |t| && t[i..i + |w|] == w
  }

  function ParseValue<N>(f: Floats<N>, t: Text, i: nat): (r: Parsed<Value<N>>)
    requires i <= |t|
    ensures r.Ok? ==> i < r.next <= |t|
    decreases |t| - i, 1
  {
    var c := SkipWs(t, i);
    if c == |t| then Fail
    else if t[c] == QUOTE then
      match ParseString(t, c)
      case Fail => Fail
      case Ok(s, next) => Ok(Str(s), next)
    else if t[c] == OPEN_BRACE then ParseObject(f, t, c)
    else if t[c] == OPEN_BRACKET then ParseArray(f, t, c)
    else if Word(t, c, TRUE) then Ok(Bool(true), c + 4)
    else if Word(t, c, FALSE) then Ok(Bool(false), c + 5)
    else if Word(t, c, NULL) then Ok(Null, c + 4)
    else
      match NumberEnd(t, c)
      case None => Fail
      case Some(end) => Ok(Number(f.read(t[c..end])), end)
  }

  function ParseArray<N>(f: Floats<N>, t: Text, i: nat): (r: Parsed<Value<N>>)
    requires i <= |t|
    ensures r.Ok? ==> i < r.next <= |t|
    decreases |t| - i, 0
  {
    if !At(t, i, OPEN_BRACKET) then Fail
    else
      var c := SkipWs(t, i + 1);
      if At(t, c, CLOSE_BRACKET) then Ok(Arr([]), c + 1) else ParseItems(f, t, c, [])
  }

  function ParseItems<N>(f: Floats<N>, t: Text, i: nat, items: seq<Value<N>>): (r: Parsed<Value<N>>)
    requires i <= |t|
    ensures r.Ok? ==> i < r.next <= |t|
    decreases |t| - i, 2
  {
    if i == |t| then Fail
    else
      match ParseValue(f, t, i)
      case Fail => Fail
      case Ok(item, next) =>
        var c := SkipWs(t, next);
        if At(t, c, COMMA) then ParseItems(f, t, SkipWs(t, c + 1), items + [item])
        else if At(t, c, CLOSE_BRACKET) then Ok(Arr(items + [item]), c + 1)
        else Fail
  }

  function ParseObject<N>(f: Floats<N>, t: Text, i: nat): (r: Parsed<Value<N>>)
    requires i <= |t|
    ensures r.Ok? ==> i < r.next <= |t|
    decreases |t| - i, 0
  {
    if !At(t, i, OPEN_BRACE) then Fail
    else
      var c := SkipWs(t, i + 1);
      if At(t, c, CLOSE_BRACE) then Ok(Obj([]), c + 1) else ParseMembers(f, t, c, [])
  }

  /** A key, its colon, and where the value after it may start. */
  function ParseKey(t: Text, i: nat): (r: Parsed<Text>)
    requires i <= |t|
    ensures r.Ok? ==> i < r.next <= |t|
  {
    match ParseString(t, i)
    case Fail => Fail
    case Ok(key, next) =>
      var c := SkipWs(t, next);
      if At(t, c, COLON) then Ok(key, SkipWs(t, c + 1)) else Fail
  }

  function ParseMember<N>(f: Floats<N>, t: Text, i: nat): (r: Parsed<Member<N>>)
    requires i <= |t|
    ensures r.Ok? ==> i < r.next <= |t|
    decreases |t| - i, 2
  {
    match ParseKey(t, i)
    case Fail => Fail
    case Ok(key, start) =>
      match ParseValue(f, t, start)
      case Fail => Fail
      case Ok(value, next) => Ok(Member(key, value), next)
  }

  function ParseMembers<N>(f: Floats<N>, t: Text, i: nat, members: seq<Member<N>>): (r: Parsed<Value<N>>)
    requires i <= |t|
    ensures r.Ok? ==> i < r.next <= |t|
    decreases |t| - i, 3
  {
    match ParseMember(f, t, i)
    case Fail => Fail
    case Ok(member, next) =>
      var c := SkipWs(t, next);
      if At(t, c, COMMA) then ParseMembers(f, t, SkipWs(t, c + 1), members + [member])
      else if At(t, c, CLOSE_BRACE) then Ok(Obj(members + [member]), c + 1)
      else Fail
  }

  /** The value of the whole text, if it is valid. */
  function Whole<N>(f: Floats<N>, t: Text): Option<Value<N>> {
    match ParseValue(f, t, 0)
    case Fail => None
    case Ok(v, next) => if SkipWs(t, next) == |t| then Some(v) else None
  }

  /** What `parse` answers: text that is not valid is null. */
  function Parse<N>(f: Floats<N>, t: Text): Value<N> {
    if Whole(f, t).Some? then Whole(f, t).value else Null
  }

  // ----- printing -----

  function Indent(level: nat): Text {
    if level == 0 then [] else Indent(level - 1) + [SPACE, SPACE]
  }

  /** The line break before an element or a closing bracket. */
  function Break(level: nat, pretty: bool): Text {
    if pretty then [NEWLINE] + Indent(level) else []
  }

  function EscapeByte(c: Byte): (r: Text)
    ensures |r| > 0
  {
    if c == QUOTE || c == BACKSLASH then [BACKSLASH, c]
    else if c == 8 then [BACKSLASH, Ch('b')]
    else if c == 12 then [BACKSLASH, Ch('f')]
    else if c == NEWLINE then [BACKSLASH, Ch('n')]
    else if c == 13 then [BACKSLASH, Ch('r')]
    else if c == 9 then [BACKSLASH, Ch('t')]
    else [c]
  }

  function EscapeAll(s: Text): Text {
    if s == [] then [] else EscapeByte(s[0]) + EscapeAll(s[1..])
  }

  function Quote(s: Text): Text {
    [QUOTE] + (EscapeAll(s) + [QUOTE])
  }

  function Print<N>(f: Floats<N>, v: Value<N>, level: nat, pretty: bool): Text
    decreases Size(v)
  {
    match v
    case Null => NULL
    case Bool(b) => if b then TRUE else FALSE
    case Number(n) => f.show(n)
    case Str(s) => Quote(s)
    case Arr(items) =>
      if items == [] then [OPEN_BRACKET, CLOSE_BRACKET]
      else [OPEN_BRACKET] + (PrintItems(f, items, true, level, pretty) + (Break(level, pretty) + [CLOSE_BRACKET]))
    case Obj(members) =>
      if members == [] then [OPEN_BRACE, CLOSE_BRACE]
      else [OPEN_BRACE] + (PrintMembers(f, members, true, level, pretty) + (Break(level, pretty) + [CLOSE_BRACE]))
  }

  function PrintItems<N>(f: Floats<N>, items: seq<Value<N>>, first: bool, level: nat, pretty: bool): Text
    decreases SizeItems(items)
  {
    if items == [] then []
    else
      (if first then [] else [COMMA]) + (Break(level + 1, pretty)
      + (Print(f, items[0], level + 1, pretty) + PrintItems(f, items[1..], false, level, pretty)))
  }

  function PrintColon(pretty: bool): Text {
    if pretty then [COLON, SPACE] else [COLON]
  }

  function PrintMembers<N>(f: Floats<N>, members: seq<Member<N>>, first: bool, level: nat, pretty: bool): Text
    decreases SizeMembers(members)
  {
    if members == [] then []
    else
      (if first then [] else [COMMA]) + (Break(level + 1, pretty)
      + (Quote(members[0].key) + (PrintColon(pretty)
      + (Print(f, members[0].value, level + 1, pretty) + PrintMembers(f, members[1..], false, level, pretty)))))
  }

  function Stringify<N>(f: Floats<N>, v: Value<N>): Text {
    Print(f, v, 0, false)
  }

  function Pretty<N>(f: Floats<N>, v: Value<N>): Text {
    Print(f, v, 0, true)
  }
}
