/** The recursive-descent pattern parser of libs/regex/regex.c, as functions of the pattern and the
    position in it. RegexParser.dfy runs it on a parser object. */
module RegexParse {
  import opened Wrappers
  import opened RegexMatch
  import opened RegexFind
  import opened Bytes
  import opened RegexText

  datatype Parsed = Bad | Parsed(node: Node, index: nat, count: nat)

  /** How a bracketed class is read: the class and the index after it. */
  datatype Brackets = Brackets(read: (Text, nat) -> Option<(CharClass, nat)>)

  function FromItems(items: seq<Node>): Node {
    if items == [] then Empty else if |items| == 1 then items[0] else Sequence(items)
  }

  function FromBranches(branches: seq<Node>): Node {
    if branches == [] then Empty else if |branches| == 1 then branches[0] else Alternation(branches)
  }

  // ----- escapes -----

  function HexValue(b: Byte): Option<nat> {
    if Ch('0') <= b <= Ch('9') then Some(b as int - 48)
    else if Ch('a') <= b <= Ch('f') then Some(b as int - 87)
    else if Ch('A') <= b <= Ch('F') then Some(b as int - 55)
    else None
  }

  function HexDigits(p: Text, i: nat, digits: nat, value: nat): Option<nat>
    requires i + digits <= |p|
    decreases digits
  {
    if digits == 0 then Some(value)
    else
      match HexValue(p[i])
      case None => None
      case Some(d) => HexDigits(p, i + 1, digits - 1, value * 16 + d)
  }

  /** The code point of an escape whose character after the backslash is at `i`, and the index after it. */
  function LiteralEscape(p: Text, i: nat): (r: Option<(nat, nat)>)
    requires i < |p|
    ensures r.Some? ==> i < r.value.1 <= |p|
  {
    var c := p[i];
    if c == Ch('n') then Some((10, i + 1))
    else if c == Ch('r') then Some((13, i + 1))
    else if c == Ch('t') then Some((9, i + 1))
    else if c == Ch('f') then Some((12, i + 1))
    else if c == Ch('v') then Some((11, i + 1))
    else if c == Ch('0') then Some((0, i + 1))
    else if c == Ch('x') || c == Ch('u') || c == Ch('U') then
      var digits := if c == Ch('x') then 2 else if c == Ch('u') then 4 else 8;
      if i + 1 + digits > |p| then None
      else
        match HexDigits(p, i + 1, digits, 0)
        case None => None
        case Some(x) => Some((x, i + 1 + digits))
    else Some((c, i + 1))
  }

  function BuiltinClass(c: Byte): Option<CharClass> {
    if c == Ch('d') then Some(CharClass(false, {Digit}, []))
    else if c == Ch('D') then Some(CharClass(true, {Digit}, []))
    else if c == Ch('s') then Some(CharClass(false, {Space}, []))
    else if c == Ch('S') then Some(CharClass(true, {Space}, []))
    else if c == Ch('w') then Some(CharClass(false, {Word}, []))
    else if c == Ch('W') then Some(CharClass(true, {Word}, []))
    else None
  }

  /** An escape with its backslash at `i`. */
  function ParseEscape(p: Text, i: nat, count: nat): (r: Parsed)
    requires i < |p|
    ensures r.Parsed? ==> i < r.index <= |p|
  {
    if i + 1 >= |p| then Bad
    else
      var c := p[i + 1];
      if IsDigit(c) && c != Ch('0') then
        var (value, next) := Number(p, i + 1, 0);
        Parsed(Backref(value), next, count)
      else if BuiltinClass(c).Some? then Parsed(Class(BuiltinClass(c).value), i + 2, count)
      else if c == Ch('b') then Parsed(WordBoundary, i + 2, count)
      else if c == Ch('B') then Parsed(NotWordBoundary, i + 2, count)
      else
        match LiteralEscape(p, i + 1)
        case None => Bad
        case Some((x, next)) => Parsed(Literal(x), next, count)
  }

  // ----- groups and quantifiers -----

  /** What an opening parenthesis opens. */
  datatype Opening = Capturing | Plain | Ahead(positive: bool) | Behind(positive: bool)

  /** The kind of group whose parenthesis is just before `i`, and where its body starts. */
  function GroupHead(p: Text, i: nat): (r: Option<(Opening, nat)>)
    requires i <= |p|
    ensures r.Some? ==> i <= r.value.1 <= |p|
  {
    if !At(p, i, QUESTION) then Some((Capturing, i))
    else if At(p, i + 1, COLON) then Some((Plain, i + 2))
    else if At(p, i + 1, EQUALS) then Some((Ahead(true), i + 2))
    else if At(p, i + 1, BANG) then Some((Ahead(false), i + 2))
    else if At(p, i + 1, LESS) && At(p, i + 2, EQUALS) then Some((Behind(true), i + 3))
    else if At(p, i + 1, LESS) && At(p, i + 2, BANG) then Some((Behind(false), i + 3))
    else None
  }

  /** Everything but a plain group takes the next number, look-arounds too. */
  function Numbers(o: Opening): nat {
    if o.Plain? then 0 else 1
  }

  function Close(o: Opening, child: Node, number: nat): Node {
    match o
    case Capturing => Group(child, true, number)
    case Plain => Group(child, false, 0)
    case Ahead(positive) => Look(child, positive, false)
    case Behind(positive) => Look(child, positive, true)
  }

  datatype Quantifier = Absent | Malformed | Times(min: nat, max: Option<nat>, index: nat)

  /** A count in braces, its opening brace at `i`. Without the closing brace there is no count. */
  function Braces(p: Text, i: nat): (r: Quantifier)
    requires i < |p|
    ensures r.Times? ==> i < r.index <= |p|
  {
    var (first, j) := Number(p, i + 1, 0);
    if j == i + 1 then Malformed
    else if At(p, j, COMMA) then
      if At(p, j + 1, CLOSE_BRACE) then Times(first, None, j + 2)
      else
        var (second, k) := Number(p, j + 1, 0);
        if k == j + 1 then Malformed
        else if At(p, k, CLOSE_BRACE) then Times(first, Some(second), k + 1)
        else Absent
    else if At(p, j, CLOSE_BRACE) then Times(first, Some(first), j + 1)
    else Absent
  }

  function ParseQuantifier(p: Text, i: nat): (r: Quantifier)
    requires i <= |p|
    ensures r.Times? ==> i < r.index <= |p|
  {
    if At(p, i, STAR) then Times(0, None, i + 1)
    else if At(p, i, PLUS) then Times(1, None, i + 1)
    else if At(p, i, QUESTION) then Times(0, Some(1), i + 1)
    else if At(p, i, OPEN_BRACE) then Braces(p, i)
    else Absent
  }

  // ----- the grammar -----

  function ParseAtom(p: Text, i: nat, count: nat, k: Brackets): (r: Parsed)
    requires i < |p|
    ensures r.Parsed? ==> i < r.index <= |p|
    decreases |p| - i, 0
  {
    if At(p, i, CARET) then Parsed(AssertStart, i + 1, count)
    else if At(p, i, DOLLAR) then Parsed(AssertEnd, i + 1, count)
    else if At(p, i, DOT) then Parsed(Dot, i + 1, count)
    else if At(p, i, OPEN_BRACKET) then
      match k.read(p, i)
      case None => Bad
      case Some((class_, next)) => if i < next <= |p| then Parsed(Class(class_), next, count) else Bad
    else if At(p, i, OPEN_PAREN) then
      match GroupHead(p, i + 1)
      case None => Bad
      case Some((opening, start)) =>
        var number := count + Numbers(opening);
        (match ParseExpression(p, start, number, k)
         case Bad => Bad
         case Parsed(child, next, after) =>
           if At(p, next, CLOSE_PAREN) then Parsed(Close(opening, child, number), next + 1, after) else Bad)
    else if At(p, i, BACKSLASH) then ParseEscape(p, i, count)
    else if At(p, i, BAR) || At(p, i, CLOSE_PAREN) || At(p, i, STAR) || At(p, i, PLUS) || At(p, i, QUESTION) then Bad
    else
      var (x, next) := Decode(p, i);
      Parsed(Literal(x), next, count)
  }

  function ParseTerm(p: Text, i: nat, count: nat, k: Brackets): (r: Parsed)
    requires i < |p|
    ensures r.Parsed? ==> i < r.index <= |p|
    decreases |p| - i, 1
  {
    match ParseAtom(p, i, count, k)
    case Bad => Bad
    case Parsed(atom, next, after) =>
      match ParseQuantifier(p, next)
      case Malformed => Bad
      case Absent => Parsed(atom, next, after)
      case Times(min, max, end) =>
        if At(p, end, QUESTION) then Parsed(Repeat(atom, min, max, false), end + 1, after)
        else Parsed(Repeat(atom, min, max, true), end, after)
  }

  predicate EndsSequence(p: Text, i: nat) {
    i >= |p| || At(p, i, BAR) || At(p, i, CLOSE_PAREN)
  }

  function ParseSequence(p: Text, i: nat, count: nat, k: Brackets, items: seq<Node>): (r: Parsed)
    requires i <= |p|
    ensures r.Parsed? ==> i <= r.index <= |p| && EndsSequence(p, r.index)
    decreases |p| - i, 2
  {
    if EndsSequence(p, i) then Parsed(FromItems(items), i, count)
    else
      match ParseTerm(p, i, count, k)
      case Bad => Bad
      case Parsed(term, next, after) => ParseSequence(p, next, after, k, items + [term])
  }

  function ParseBranches(p: Text, i: nat, count: nat, k: Brackets, branches: seq<Node>): (r: Parsed)
    requires i <= |p|
    ensures r.Parsed? ==> i <= r.index <= |p|
    decreases |p| - i, 3
  {
    if !At(p, i, BAR) then Parsed(FromBranches(branches), i, count)
    else
      match ParseSequence(p, i + 1, count, k, [])
      case Bad => Bad
      case Parsed(branch, next, after) => ParseBranches(p, next, after, k, branches + [branch])
  }

  function ParseExpression(p: Text, i: nat, count: nat, k: Brackets): (r: Parsed)
    requires i <= |p|
    ensures r.Parsed? ==> i <= r.index <= |p|
    decreases |p| - i, 4
  {
    match ParseSequence(p, i, count, k, [])
    case Bad => Bad
    case Parsed(first, next, after) => ParseBranches(p, next, after, k, [first])
  }

  /** A whole pattern: all of it must be read. */
  function Compile(p: Text, k: Brackets): Option<Program> {
    match ParseExpression(p, 0, 0, k)
    case Bad => None
    case Parsed(root, next, count) => if next == |p| then Some(Program(root, count)) else None
  }
}
