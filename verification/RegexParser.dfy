/** The pattern parser as libs/regex/regex.c runs it: an object whose index and capture count advance. */
module RegexParser {
  import opened Wrappers
  import opened RegexMatch
  import opened RegexFind
  import opened Bytes
  import opened RegexText
  import opened RegexParse

  class Parser {
    const pattern: Text
    const brackets: Brackets
    var index: nat
    var error: bool
    var captureCount: nat

    constructor (pattern: Text, brackets: Brackets)
      ensures this.pattern == pattern && this.brackets == brackets
      ensures index == 0 && !error && captureCount == 0
    {
      this.pattern, this.brackets := pattern, brackets;
      index, error, captureCount := 0, false, 0;
    }

    predicate Valid()
      reads this
    {
      !error && index <= |pattern|
    }

    /** The outcome of a call that answered `node`. */
    ghost predicate Did(r: Parsed, node: Option<Node>)
      reads this
    {
      match r
      case Bad => node.None? && error
      case Parsed(n, i, count) => node == Some(n) && Valid() && index == i && captureCount == count
    }

    method Sees(c: Byte) returns (b: bool)
      ensures b == At(pattern, index, c)
    {
      return index < |pattern| && pattern[index] == c;
    }

    method ParseHexDigits(digits: nat) returns (r: Option<nat>)
      requires Valid()
      modifies this`index
      ensures index == old(index) + (if r.Some? then digits else 0)
      ensures r == if old(index) + digits > |pattern| then None else HexDigits(pattern, old(index), digits, 0)
      ensures Valid()
    {
      if index + digits > |pattern| {
        return None;
      }
      var value := 0;
      var i := 0;
      while i < digits
        invariant 0 <= i <= digits
        invariant HexDigits(pattern, index + i, digits - i, value) == HexDigits(pattern, index, digits, 0)
      {
        var digit := HexValue(pattern[index + i]);
        if digit.None? {
          return None;
        }
        value := value * 16 + digit.value;
        i := i + 1;
      }
      index := index + digits;
      return Some(value);
    }

    method ParseLiteralEscape() returns (r: Option<nat>)
      requires Valid() && index < |pattern|
      modifies this`index
      ensures match LiteralEscape(pattern, old(index))
        case None => r.None?
        case Some((x, next)) => r == Some(x) && index == next && Valid()
    {
      var ch := pattern[index];
      index := index + 1;
      if ch == Ch('n') {
        return Some(10);
      } else if ch == Ch('r') {
        return Some(13);
      } else if ch == Ch('t') {
        return Some(9);
      } else if ch == Ch('f') {
        return Some(12);
      } else if ch == Ch('v') {
        return Some(11);
      } else if ch == Ch('0') {
        return Some(0);
      } else if ch == Ch('x') {
        r := ParseHexDigits(2);
      } else if ch == Ch('u') {
        r := ParseHexDigits(4);
      } else if ch == Ch('U') {
        r := ParseHexDigits(8);
      } else {
        return Some(ch);
      }
    }

    method ParseEscapeAtom() returns (node: Option<Node>)
      requires Valid() && index < |pattern|
      modifies this
      ensures Did(ParseEscape(pattern, old(index), old(captureCount)), node)
    {
      index := index + 1;
      if index >= |pattern| {
        error := true;
        return None;
      }
      var ch := pattern[index];
      if Ch('1') <= ch <= Ch('9') {
        var value;
        value, index := ReadNumber(pattern, index);
        return Some(Backref(value));
      }
      var class_ := BuiltinClass(ch);
      if class_.Some? {
        index := index + 1;
        return Some(Class(class_.value));
      }
      if ch == Ch('b') || ch == Ch('B') {
        index := index + 1;
        return Some(if ch == Ch('b') then WordBoundary else NotWordBoundary);
      }
      var codepoint := ParseLiteralEscape();
      if codepoint.None? {
        error := true;
        return None;
      }
      return Some(Literal(codepoint.value));
    }

    /** The parenthesis is behind the index. */
    method ParseOpening() returns (opening: Opening)
      requires Valid()
      modifies this
      ensures captureCount == old(captureCount)
      ensures match GroupHead(pattern, old(index))
        case None => error
        case Some((o, start)) => opening == o && index == start && Valid()
    {
      opening := Capturing;
      var question := Sees(QUESTION);
      if question {
        index := index + 1;
        if index >= |pattern| {
          error := true;
        } else if pattern[index] == COLON {
          opening := Plain;
          index := index + 1;
        } else if pattern[index] == EQUALS {
          opening := Ahead(true);
          index := index + 1;
        } else if pattern[index] == BANG {
          opening := Ahead(false);
          index := index + 1;
        } else if pattern[index] == LESS && index + 1 < |pattern|
          && (pattern[index + 1] == EQUALS || pattern[index + 1] == BANG) {
          opening := Behind(pattern[index + 1] == EQUALS);
          index := index + 2;
        } else {
          error := true;
        }
      }
    }

    method ParseGroup() returns (node: Option<Node>)
      requires Valid() && At(pattern, index, OPEN_PAREN)
      modifies this
      ensures Did(ParseAtom(pattern, old(index), old(captureCount), brackets), node)
      decreases |pattern| - index, 0
    {
      index := index + 1;
      var opening := ParseOpening();
      if error {
        return None;
      }
      if !opening.Plain? {
        captureCount := captureCount + 1;
      }
      var number := captureCount;
      var child := ParseExpressionHere();
      if error {
        return None;
      }
      var closed := Sees(CLOSE_PAREN);
      if !closed {
        error := true;
        return None;
      }
      index := index + 1;
      return Some(Close(opening, child.value, number));
    }

    method ParseAtomHere() returns (node: Option<Node>)
      requires Valid() && index < |pattern|
      modifies this
      ensures Did(ParseAtom(pattern, old(index), old(captureCount), brackets), node)
      decreases |pattern| - index, 1
    {
      var ch := pattern[index];
      if ch == CARET {
        index := index + 1;
        return Some(AssertStart);
      }
      if ch == DOLLAR {
        index := index + 1;
        return Some(AssertEnd);
      }
      if ch == DOT {
        index := index + 1;
        return Some(Dot);
      }
      if ch == OPEN_BRACKET {
        var r := brackets.read(pattern, index);
        if r.None? || !(index < r.value.1 <= |pattern|) {
          error := true;
          return None;
        }
        index := r.value.1;
        return Some(Class(r.value.0));
      }
      if ch == OPEN_PAREN {
        node := ParseGroup();
        return;
      }
      if ch == BACKSLASH {
        node := ParseEscapeAtom();
        return;
      }
      if ch == BAR || ch == CLOSE_PAREN || ch == STAR || ch == PLUS || ch == QUESTION {
        error := true;
        return None;
      }
      var (x, next) := Decode(pattern, index);
      index := next;
      return Some(Literal(x));
    }

    method ParseBraces() returns (q: Quantifier)
      requires Valid() && At(pattern, index, OPEN_BRACE)
      modifies this
      ensures captureCount == old(captureCount)
      ensures q == Braces(pattern, old(index))
      ensures match q
        case Malformed => error
        case Absent => Valid() && index == old(index)
        case Times(_, _, next) => Valid() && index == next
    {
      var saved := index;
      index := index + 1;
      var digits := index;
      var first;
      first, index := ReadNumber(pattern, index);
      if index == digits {
        error := true;
        return Malformed;
      }
      var second := Some(first);
      var comma := Sees(COMMA);
      if comma {
        index := index + 1;
        var open := Sees(CLOSE_BRACE);
        if open {
          second := None;
        } else {
          digits := index;
          var value;
          value, index := ReadNumber(pattern, index);
          second := Some(value);
          if index == digits {
            error := true;
            return Malformed;
          }
        }
      }
      var closed := Sees(CLOSE_BRACE);
      if !closed {
        index := saved;
        return Absent;
      }
      index := index + 1;
      return Times(first, second, index);
    }

    method ParseTermHere() returns (node: Option<Node>)
      requires Valid() && index < |pattern|
      modifies this
      ensures Did(ParseTerm(pattern, old(index), old(captureCount), brackets), node)
      decreases |pattern| - index, 2
    {
      node := ParseAtomHere();
      if node.None? || error || index >= |pattern| {
        return;
      }
      var q := Absent;
      var ch := pattern[index];
      if ch == STAR {
        index := index + 1;
        q := Times(0, None, index);
      } else if ch == PLUS {
        index := index + 1;
        q := Times(1, None, index);
      } else if ch == QUESTION {
        index := index + 1;
        q := Times(0, Some(1), index);
      } else if ch == OPEN_BRACE {
        q := ParseBraces();
        if q.Malformed? {
          return None;
        }
      }
      if q.Times? {
        var lazy := Sees(QUESTION);
        if lazy {
          index := index + 1;
        }
        node := Some(Repeat(node.value, q.min, q.max, !lazy));
      }
    }

    method ParseSequenceHere() returns (node: Option<Node>)
      requires Valid()
      modifies this
      ensures Did(ParseSequence(pattern, old(index), old(captureCount), brackets, []), node)
      decreases |pattern| - index, 3
    {
      var items := [];
      while index < |pattern|
        invariant Valid() && old(index) <= index
        invariant ParseSequence(pattern, index, captureCount, brackets, items)
               == ParseSequence(pattern, old(index), old(captureCount), brackets, [])
        decreases |pattern| - index
      {
        if pattern[index] == BAR || pattern[index] == CLOSE_PAREN {
          break;
        }
        var term := ParseTermHere();
        if term.None? || error {
          return None;
        }
        items := items + [term.value];
      }
      return Some(FromItems(items));
    }

    method ParseExpressionHere() returns (node: Option<Node>)
      requires Valid()
      modifies this
      ensures Did(ParseExpression(pattern, old(index), old(captureCount), brackets), node)
      decreases |pattern| - index, 4
    {
      var first := ParseSequenceHere();
      if first.None? || error {
        return None;
      }
      var branches := [first.value];
      while index < |pattern| && pattern[index] == BAR
        invariant Valid() && old(index) <= index
        invariant ParseBranches(pattern, index, captureCount, brackets, branches)
               == ParseExpression(pattern, old(index), old(captureCount), brackets)
        decreases |pattern| - index
      {
        index := index + 1;
        var branch := ParseSequenceHere();
        if branch.None? || error {
          return None;
        }
        branches := branches + [branch.value];
      }
      return Some(FromBranches(branches));
    }
  }

  method CompilePattern(pattern: Text, brackets: Brackets) returns (program: Option<Program>)
    ensures program == Compile(pattern, brackets)
  {
    var parser := new Parser(pattern, brackets);
    var root := parser.ParseExpressionHere();
    if root.None? || parser.error || parser.index != |pattern| {
      return None;
    }
    return Some(Program(root.value, parser.captureCount));
  }
}
