/** Writing a pattern tree as a pattern, and reading it back. */
module RegexPrint {
  import opened Wrappers
  import opened RegexMatch
  import opened RegexFind
  import opened Bytes
  import opened Slices
  import opened RegexText
  import opened RegexParse

  predicate IsMeta(b: Byte) {
    b in {92, 46, 94, 36, 124, 63, 42, 43, 40, 41, 91, 93, 123, 125}
  }

  // ----- trees the grammar can write -----

  /** Code points are 32 bits wide. */
  const CODE_LIMIT: nat := 0x1_0000_0000

  function ClassLetter(c: CharClass): Option<Byte> {
    if c == CharClass(false, {Digit}, []) then Some(Ch('d'))
    else if c == CharClass(true, {Digit}, []) then Some(Ch('D'))
    else if c == CharClass(false, {Space}, []) then Some(Ch('s'))
    else if c == CharClass(true, {Space}, []) then Some(Ch('S'))
    else if c == CharClass(false, {Word}, []) then Some(Ch('w'))
    else if c == CharClass(true, {Word}, []) then Some(Ch('W'))
    else None
  }

  /** How many numbers the groups of a tree take. */
  function GroupCount(n: Node): nat
    decreases n
  {
    match n
    case Sequence(items) => GroupCountAll(items)
    case Alternation(branches) => GroupCountAll(branches)
    case Repeat(child, _, _, _) => GroupCount(child)
    case Group(child, capturing, _) => (if capturing then 1 else 0) + GroupCount(child)
    case Look(child, _, _) => 1 + GroupCount(child)
    case _ => 0
  }

  function GroupCountAll(ns: seq<Node>): nat
    decreases ns
  {
    if ns == [] then 0 else GroupCount(ns[0]) + GroupCountAll(ns[1..])
  }

  /** Groups are numbered by their opening parentheses, after the `count` before them. */
  predicate CanonAtom(n: Node, count: nat)
    decreases Size(n), 0
  {
    match n
    case Literal(x) => x < CODE_LIMIT
    case Class(c) => ClassLetter(c).Some?
    case Group(child, true, index) => index == count + 1 && CanonExpression(child, count + 1)
    case Group(child, false, index) => index == 0 && CanonExpression(child, count)
    case Look(child, _, _) => CanonExpression(child, count + 1)
    case Backref(index) => index >= 1
    case _ => n.Dot? || n.AssertStart? || n.AssertEnd? || n.WordBoundary? || n.NotWordBoundary?
  }

  predicate CanonTerm(n: Node, count: nat)
    decreases Size(n), 1
  {
    if n.Repeat? then CanonAtom(n.child, count) else CanonAtom(n, count)
  }

  predicate CanonTerms(items: seq<Node>, count: nat)
    decreases SizeAll(items), 2
  {
    items == [] ||
    (CanonTerm(items[0], count) && CanonTerms(items[1..], count + GroupCount(items[0])))
  }

  predicate CanonSequence(n: Node, count: nat)
    decreases Size(n), 2
  {
    match n
    case Empty => true
    case Sequence(items) => |items| >= 2 && CanonTerms(items, count)
    case _ => CanonTerm(n, count)
  }

  predicate CanonBranches(branches: seq<Node>, count: nat)
    decreases SizeAll(branches), 3
  {
    branches == [] || (CanonSequence(branches[0], count)
      && CanonBranches(branches[1..], count + GroupCount(branches[0])))
  }

  predicate CanonExpression(n: Node, count: nat)
    decreases Size(n), 4
  {
    if n.Alternation? then |n.branches| >= 2 && CanonBranches(n.branches, count) else CanonSequence(n, count)
  }

  // ----- printing -----

  function Decimal(n: nat): Text {
    if n < 10 then [48 + n] else Decimal(n / 10) + [48 + n % 10]
  }

  function HexDigit(d: nat): (b: Byte)
    requires d < 16
    ensures HexValue(b) == Some(d)
  {
    if d < 10 then 48 + d else 87 + d
  }

  function Hex(x: nat, digits: nat): (t: Text)
    ensures |t| == digits
    decreases x, digits
  {
    if digits == 0 then [] else Hex(x / 16, digits - 1) + [HexDigit(x % 16)]
  }

  /** A code point that UTF-8 has no place for is written in hexadecimal, and so is a digit, which may
      follow a back-reference. */
  function Quote(x: nat): Text {
    if x < 128 && x > 0 && IsMeta(x) then [BACKSLASH, x]
    else if Scalar(x) && !(48 <= x <= 57) then Encode(x)
    else [BACKSLASH, Ch('U')] + Hex(x, 8)
  }

  function PrintBraces(min: nat, max: Option<nat>): Text {
    [OPEN_BRACE] + (Decimal(min) + ([COMMA] + ((if max.Some? then Decimal(max.value) else []) + [CLOSE_BRACE])))
  }

  function PrintCount(min: nat, max: Option<nat>): Text {
    if min == 0 && max.None? then [STAR]
    else if min == 1 && max.None? then [PLUS]
    else if min == 0 && max == Some(1) then [QUESTION]
    else PrintBraces(min, max)
  }

  /** What follows the repeated atom. */
  function PrintTail(n: Node): Text
    requires n.Repeat?
  {
    PrintCount(n.min, n.max) + if n.greedy then [] else [QUESTION]
  }

  function PrintOpening(n: Node): Text
    requires n.Group? || n.Look?
  {
    match n
    case Group(_, capturing, _) => if capturing then [OPEN_PAREN] else [OPEN_PAREN, QUESTION, COLON]
    case Look(_, positive, behind) =>
      var mark: Byte := if positive then EQUALS else BANG;
      if behind then [OPEN_PAREN, QUESTION, LESS, mark] else [OPEN_PAREN, QUESTION, mark]
  }

  function PrintAtom(n: Node, count: nat): Text
    requires CanonAtom(n, count)
    decreases Size(n), 0
  {
    match n
    case Literal(x) => Quote(x)
    case Dot => [DOT]
    case Class(c) => [BACKSLASH, ClassLetter(c).value]
    case Group(child, capturing, _) =>
      PrintOpening(n) + PrintExpression(child, if capturing then count + 1 else count) + [CLOSE_PAREN]
    case Look(child, _, _) => PrintOpening(n) + PrintExpression(child, count + 1) + [CLOSE_PAREN]
    case Backref(index) => [BACKSLASH] + Decimal(index)
    case AssertStart => [CARET]
    case AssertEnd => [DOLLAR]
    case WordBoundary => [BACKSLASH, Ch('b')]
    case NotWordBoundary => [BACKSLASH, Ch('B')]
  }

  function PrintTerm(n: Node, count: nat): Text
    requires CanonTerm(n, count)
    decreases Size(n), 1
  {
    match n
    case Repeat(child, _, _, _) => PrintAtom(child, count) + PrintTail(n)
    case _ => PrintAtom(n, count)
  }

  function PrintTerms(items: seq<Node>, count: nat): Text
    requires CanonTerms(items, count)
    decreases SizeAll(items), 2
  {
    if items == [] then [] else PrintTerm(items[0], count) + PrintTerms(items[1..], count + GroupCount(items[0]))
  }

  function PrintSequence(n: Node, count: nat): Text
    requires CanonSequence(n, count)
    decreases Size(n), 2
  {
    match n
    case Empty => []
    case Sequence(items) => PrintTerms(items, count)
    case _ => PrintTerm(n, count)
  }

  function PrintBranches(branches: seq<Node>, count: nat): Text
    requires CanonBranches(branches, count)
    decreases SizeAll(branches), 3
  {
    if branches == [] then []
    else [BAR] + PrintSequence(branches[0], count) + PrintBranches(branches[1..], count + GroupCount(branches[0]))
  }

  function PrintExpression(n: Node, count: nat): Text
    requires CanonExpression(n, count)
    decreases Size(n), 4
  {
    if n.Alternation? then
      assert CanonBranches(n.branches, count) && SizeAll(n.branches) == Size(n.branches[0]) + SizeAll(n.branches[1..]);
      PrintSequence(n.branches[0], count) + PrintBranches(n.branches[1..], count + GroupCount(n.branches[0]))
    else PrintSequence(n, count)
  }

  // ----- numbers -----

  lemma {:induction false} DecimalDigits(n: nat)
    ensures |Decimal(n)| > 0 && forall j | 0 <= j < |Decimal(n)| :: IsDigit(Decimal(n)[j])
    ensures n > 0 ==> Decimal(n)[0] != 48
    decreases n
  {
    if n < 10 {
    } else {
      DecimalDigits(n / 10);
    }
  }

  /** The number read after the digits of `n` is `n`. */
  lemma {:induction false} NumberReads(p: Text, i: nat, n: nat)
    requires Stands(p, i, Decimal(n))
    ensures Number(p, i, 0) == Number(p, i + |Decimal(n)|, n)
    decreases n
  {
    if n >= 10 {
      var d := Decimal(n / 10);
      StandsSplit(p, i, d, [48 + n % 10]);
      NumberReads(p, i, n / 10);
      StandsAt(p, i + |d|, [48 + n % 10], 0);
    } else {
      StandsAt(p, i, [48 + n], 0);
    }
  }

  lemma {:induction false} NumberReadsBack(p: Text, i: nat, n: nat)
    requires Stands(p, i, Decimal(n))
    requires var j := i + |Decimal(n)|; j < |p| ==> !IsDigit(p[j])
    ensures Number(p, i, 0) == (n, i + |Decimal(n)|)
  {
    NumberReads(p, i, n);
  }

  function Power16(n: nat): nat {
    if n == 0 then 1 else 16 * Power16(n - 1)
  }

  /** The digits of `x` are read before the `rest` that are left. */
  lemma {:induction false} HexReads(p: Text, i: nat, x: nat, digits: nat, rest: nat)
    requires Stands(p, i, Hex(x, digits)) && x < Power16(digits) && i + digits + rest <= |p|
    ensures HexDigits(p, i, digits + rest, 0) == HexDigits(p, i + digits, rest, x)
    decreases digits
  {
    if digits == 0 {
    } else {
      StandsSplit(p, i, Hex(x / 16, digits - 1), [HexDigit(x % 16)]);
      HexReads(p, i, x / 16, digits - 1, rest + 1);
      StandsAt(p, i + digits - 1, [HexDigit(x % 16)], 0);
    }
  }

  // ----- first characters -----

  predicate Quantifies(b: Byte) {
    b == STAR || b == PLUS || b == QUESTION || b == OPEN_BRACE
  }

  lemma {:induction false} QuoteFirst(x: nat)
    ensures |Quote(x)| > 0 && !Quantifies(Quote(x)[0]) && Quote(x)[0] != BAR && Quote(x)[0] != CLOSE_PAREN
    ensures !IsDigit(Quote(x)[0])
  {
  }

  lemma {:induction false} TermFirst(n: Node, count: nat)
    requires CanonTerm(n, count)
    ensures var t := PrintTerm(n, count);
      |t| > 0 && !Quantifies(t[0]) && t[0] != BAR && t[0] != CLOSE_PAREN && !IsDigit(t[0])
  {
    var atom := if n.Repeat? then n.child else n;
    if atom.Literal? {
      QuoteFirst(atom.codepoint);
    }
    var t := PrintAtom(atom, count);
    assert |t| > 0 && PrintTerm(n, count)[0] == t[0];
  }

  // ----- reading back -----

  ghost predicate AtomReads(p: Text, i: nat, count: nat, k: Brackets, n: Node, j: nat, after: nat) {
    i < |p| && forall z {:trigger Unseal(z)} :: Unseal(z) ==> ParseAtom(p, i, count, k) == Parsed(n, j, after)
  }

  ghost predicate TermReads(p: Text, i: nat, count: nat, k: Brackets, n: Node, j: nat, after: nat) {
    i < |p| && forall z {:trigger Unseal(z)} :: Unseal(z) ==> ParseTerm(p, i, count, k) == Parsed(n, j, after)
  }

  ghost predicate SequenceReads(p: Text, i: nat, count: nat, k: Brackets, before: seq<Node>, n: Node, j: nat,
        after: nat) {
    i <= |p| && forall z {:trigger Unseal(z)} :: Unseal(z) ==>
      ParseSequence(p, i, count, k, before) == Parsed(n, j, after)
  }

  ghost predicate BranchesRead(p: Text, i: nat, count: nat, k: Brackets, before: seq<Node>, n: Node, j: nat,
        after: nat) {
    i <= |p| && forall z {:trigger Unseal(z)} :: Unseal(z) ==>
      ParseBranches(p, i, count, k, before) == Parsed(n, j, after)
  }

  ghost predicate ExpressionReads(p: Text, i: nat, count: nat, k: Brackets, n: Node, j: nat, after: nat) {
    i <= |p| && forall z {:trigger Unseal(z)} :: Unseal(z) ==> ParseExpression(p, i, count, k) == Parsed(n, j, after)
  }

  /** What may come after a printed term. */
  ghost predicate Follows(p: Text, j: nat, n: Node) {
    j < |p| ==> !Quantifies(p[j]) && (n.Backref? ==> !IsDigit(p[j]))
  }

  lemma {:induction false} MaxParses(p: Text, j: nat, max: Option<nat>)
    requires Stands(p, j, (if max.Some? then Decimal(max.value) else []) + [CLOSE_BRACE])
    ensures max.None? ==> At(p, j, CLOSE_BRACE)
    ensures max.Some? ==>
      var e := j + |Decimal(max.value)|;
      !At(p, j, CLOSE_BRACE) && j < e && Number(p, j, 0) == (max.value, e) && At(p, e, CLOSE_BRACE)
  {
    var digits := if max.Some? then Decimal(max.value) else [];
    StandsSplit(p, j, digits, [CLOSE_BRACE]);
    StandsAt(p, j + |digits|, [CLOSE_BRACE], 0);
    if max.Some? {
      DecimalDigits(max.value);
      StandsAt(p, j, digits, 0);
      NumberReadsBack(p, j, max.value);
    }
  }

  lemma {:induction false} BracesParse(p: Text, i: nat, min: nat, max: Option<nat>)
    requires Stands(p, i, PrintBraces(min, max))
    ensures At(p, i, OPEN_BRACE) && Braces(p, i) == Times(min, max, i + |PrintBraces(min, max)|)
  {
    var tail := (if max.Some? then Decimal(max.value) else []) + [CLOSE_BRACE];
    StandsSplit(p, i, [OPEN_BRACE], Decimal(min) + ([COMMA] + tail));
    StandsAt(p, i, [OPEN_BRACE], 0);
    StandsSplit(p, i + 1, Decimal(min), [COMMA] + tail);
    var j := i + 1 + |Decimal(min)|;
    StandsSplit(p, j, [COMMA], tail);
    StandsAt(p, j, [COMMA], 0);
    DecimalDigits(min);
    NumberReadsBack(p, i + 1, min);
    MaxParses(p, j + 1, max);
  }

  lemma {:induction false} CountParses(p: Text, i: nat, min: nat, max: Option<nat>)
    requires Stands(p, i, PrintCount(min, max))
    ensures ParseQuantifier(p, i) == Times(min, max, i + |PrintCount(min, max)|)
  {
    var t := PrintCount(min, max);
    if t == PrintBraces(min, max) {
      BracesParse(p, i, min, max);
    } else {
      StandsAt(p, i, t, 0);
    }
  }

  lemma {:induction false} HexParses(p: Text, i: nat, count: nat, k: Brackets, x: nat)
    requires x < CODE_LIMIT && Stands(p, i, [BACKSLASH, Ch('U')] + Hex(x, 8))
    ensures AtomReads(p, i, count, k, Literal(x), i + 10, count)
  {
    StandsSplit(p, i, [BACKSLASH, Ch('U')], Hex(x, 8));
    StandsAt(p, i, [BACKSLASH, Ch('U')], 0);
    StandsAt(p, i, [BACKSLASH, Ch('U')], 1);
    assert Power16(8) == CODE_LIMIT;
    HexReads(p, i + 2, x, 8, 0);
    assert LiteralEscape(p, i + 1) == Some((x, i + 10));
  }

  lemma {:induction false} LiteralParses(p: Text, i: nat, count: nat, k: Brackets, x: nat)
    requires x < CODE_LIMIT && Stands(p, i, Quote(x))
    ensures AtomReads(p, i, count, k, Literal(x), i + |Quote(x)|, count)
  {
    if x < 128 && x > 0 && IsMeta(x) {
      StandsAt(p, i, Quote(x), 0);
      StandsAt(p, i, Quote(x), 1);
    } else if Scalar(x) && !(48 <= x <= 57) {
      QuoteFirst(x);
      StandsAt(p, i, Quote(x), 0);
      assert Encode(x) == p[i..][..|Encode(x)|];
      DecodeEncode(p, i, x);
    } else {
      HexParses(p, i, count, k, x);
    }
  }

  lemma {:induction false} BackrefParses(p: Text, i: nat, count: nat, k: Brackets, index: nat)
    requires index >= 1 && Stands(p, i, [BACKSLASH] + Decimal(index))
    requires var j := i + 1 + |Decimal(index)|; j < |p| ==> !IsDigit(p[j])
    ensures AtomReads(p, i, count, k, Backref(index), i + 1 + |Decimal(index)|, count)
  {
    StandsSplit(p, i, [BACKSLASH], Decimal(index));
    StandsAt(p, i, [BACKSLASH], 0);
    DecimalDigits(index);
    StandsAt(p, i + 1, Decimal(index), 0);
    NumberReadsBack(p, i + 1, index);
  }

  function OpeningOf(n: Node): Opening
    requires n.Group? || n.Look?
  {
    match n
    case Group(_, capturing, _) => if capturing then Capturing else Plain
    case Look(_, positive, behind) => if behind then Behind(positive) else Ahead(positive)
  }

  lemma {:induction false} OpeningParses(p: Text, i: nat, n: Node)
    requires (n.Group? || n.Look?) && Stands(p, i, PrintOpening(n))
    requires var j := i + |PrintOpening(n)|; j < |p| ==> p[j] != QUESTION
    ensures At(p, i, OPEN_PAREN) && GroupHead(p, i + 1) == Some((OpeningOf(n), i + |PrintOpening(n)|))
  {
    var t := PrintOpening(n);
    StandsAt(p, i, t, 0);
    if |t| > 1 {
      StandsAt(p, i, t, 1);
      StandsAt(p, i, t, 2);
    }
    if |t| > 3 {
      StandsAt(p, i, t, 3);
    }
  }

  lemma {:induction false} AtomParses(p: Text, i: nat, count: nat, k: Brackets, n: Node)
    requires CanonAtom(n, count) && Stands(p, i, PrintAtom(n, count))
    requires var j := i + |PrintAtom(n, count)|; n.Backref? && j < |p| ==> !IsDigit(p[j])
    ensures AtomReads(p, i, count, k, n, i + |PrintAtom(n, count)|, count + GroupCount(n))
    decreases Size(n), 0
  {
    var t := PrintAtom(n, count);
    if n.Literal? {
      LiteralParses(p, i, count, k, n.codepoint);
    } else if n.Backref? {
      BackrefParses(p, i, count, k, n.index);
    } else if n.Group? || n.Look? {
      GroupParses(p, i, count, k, n);
    } else {
      StandsAt(p, i, t, 0);
      if |t| > 1 {
        StandsAt(p, i, t, 1);
      }
    }
  }

  lemma {:induction false} GroupCloses(p: Text, i: nat, count: nat, k: Brackets, opening: Opening, start: nat,
        child: Node, end: nat, after: nat)
    requires At(p, i, OPEN_PAREN) && GroupHead(p, i + 1) == Some((opening, start))
    requires ExpressionReads(p, start, count + Numbers(opening), k, child, end, after) && At(p, end, CLOSE_PAREN)
    ensures AtomReads(p, i, count, k, Close(opening, child, count + Numbers(opening)), end + 1, after)
  {
  }

  lemma {:induction false} CanonGroup(n: Node, count: nat)
    requires (n.Group? || n.Look?) && CanonAtom(n, count)
    ensures var number := count + Numbers(OpeningOf(n));
      && CanonExpression(n.child, number)
      && PrintAtom(n, count) == PrintOpening(n) + (PrintExpression(n.child, number) + [CLOSE_PAREN])
      && Close(OpeningOf(n), n.child, number) == n
      && number + GroupCount(n.child) == count + GroupCount(n)
  {
  }

  /** The parts of a printed group, where they stand. */
  lemma {:induction false} GroupStands(p: Text, i: nat, n: Node, body: Text)
    requires (n.Group? || n.Look?) && Stands(p, i, PrintOpening(n) + (body + [CLOSE_PAREN]))
    requires body != [] ==> body[0] != QUESTION
    ensures var start := i + |PrintOpening(n)|;
      && At(p, i, OPEN_PAREN) && GroupHead(p, i + 1) == Some((OpeningOf(n), start))
      && Stands(p, start, body) && At(p, start + |body|, CLOSE_PAREN)
  {
    var open := PrintOpening(n);
    StandsSplit(p, i, open, body + [CLOSE_PAREN]);
    var start := i + |open|;
    StandsSplit(p, start, body, [CLOSE_PAREN]);
    StandsAt(p, start + |body|, [CLOSE_PAREN], 0);
    if body != [] {
      StandsAt(p, start, body, 0);
    }
    OpeningParses(p, i, n);
  }

  lemma {:induction false} GroupBodyParses(p: Text, i: nat, count: nat, k: Brackets, n: Node, number: nat, body: Text)
    requires (n.Group? || n.Look?) && number == count + Numbers(OpeningOf(n))
    requires CanonExpression(n.child, number) && body == PrintExpression(n.child, number)
    requires Stands(p, i, PrintOpening(n) + (body + [CLOSE_PAREN]))
    ensures AtomReads(p, i, count, k, Close(OpeningOf(n), n.child, number), i + |PrintOpening(n)| + |body| + 1,
              number + GroupCount(n.child))
    decreases Size(n.child), 6
  {
    var start := i + |PrintOpening(n)|;
    var end := start + |body|;
    ExpressionFirst(n.child, number);
    GroupStands(p, i, n, body);
    ExpressionParses(p, start, number, k, n.child, end);
    GroupCloses(p, i, count, k, OpeningOf(n), start, n.child, end, number + GroupCount(n.child));
  }

  lemma {:induction false} GroupParses(p: Text, i: nat, count: nat, k: Brackets, n: Node)
    requires (n.Group? || n.Look?) && CanonAtom(n, count) && Stands(p, i, PrintAtom(n, count))
    ensures AtomReads(p, i, count, k, n, i + |PrintAtom(n, count)|, count + GroupCount(n))
    decreases Size(n.child), 7
  {
    var number := count + Numbers(OpeningOf(n));
    CanonGroup(n, count);
    GroupBodyParses(p, i, count, k, n, number, PrintExpression(n.child, number));
  }

  /** A printed expression does not start with a question mark. */
  lemma {:induction false} ExpressionFirst(n: Node, count: nat)
    requires CanonExpression(n, count)
    ensures var t := PrintExpression(n, count); t != [] ==> t[0] != QUESTION
  {
    if n.Alternation? {
      SequenceFirst(n.branches[0], count);
    } else {
      SequenceFirst(n, count);
    }
  }

  lemma {:induction false} SequenceFirst(n: Node, count: nat)
    requires CanonSequence(n, count)
    ensures var t := PrintSequence(n, count); t != [] ==> t[0] != QUESTION
  {
    if n.Sequence? {
      TermFirst(n.items[0], count);
    } else if !n.Empty? {
      TermFirst(n, count);
    }
  }

  lemma {:induction false} TailFirst(n: Node)
    requires n.Repeat?
    ensures |PrintTail(n)| > 0 && Quantifies(PrintTail(n)[0])
  {
  }

  /** The printed count, with its question mark if it is lazy. */
  lemma {:induction false} TailParses(p: Text, j: nat, n: Node)
    requires n.Repeat? && Stands(p, j, PrintTail(n))
    requires var e := j + |PrintTail(n)|; e < |p| ==> p[e] != QUESTION
    ensures var e := j + |PrintCount(n.min, n.max)|;
      && ParseQuantifier(p, j) == Times(n.min, n.max, e)
      && (At(p, e, QUESTION) <==> !n.greedy) && j + |PrintTail(n)| == if n.greedy then e else e + 1
  {
    var times := PrintCount(n.min, n.max);
    var lazy: Text := if n.greedy then [] else [QUESTION];
    StandsSplit(p, j, times, lazy);
    CountParses(p, j, n.min, n.max);
    if !n.greedy {
      StandsAt(p, j + |times|, lazy, 0);
    }
  }

  lemma {:induction false} RepeatStep(p: Text, i: nat, count: nat, k: Brackets, n: Node, j: nat, after: nat, e: nat)
    requires n.Repeat? && AtomReads(p, i, count, k, n.child, j, after)
    requires j <= |p| && ParseQuantifier(p, j) == Times(n.min, n.max, e) && (At(p, e, QUESTION) <==> !n.greedy)
    ensures TermReads(p, i, count, k, n, if n.greedy then e else e + 1, after)
  {
  }

  lemma {:induction false} RepeatParses(p: Text, i: nat, count: nat, k: Brackets, n: Node, j: nat, after: nat)
    requires n.Repeat? && Stands(p, j, PrintTail(n)) && AtomReads(p, i, count, k, n.child, j, after)
    requires var e := j + |PrintTail(n)|; e < |p| ==> p[e] != QUESTION
    ensures TermReads(p, i, count, k, n, j + |PrintTail(n)|, after)
  {
    TailParses(p, j, n);
    RepeatStep(p, i, count, k, n, j, after, j + |PrintCount(n.min, n.max)|);
  }

  lemma {:induction false} AtomIsTerm(p: Text, i: nat, count: nat, k: Brackets, n: Node, j: nat, after: nat)
    requires AtomReads(p, i, count, k, n, j, after)
    requires j < |p| ==> !Quantifies(p[j])
    ensures TermReads(p, i, count, k, n, j, after)
  {
  }

  lemma {:induction false} RepeatStands(p: Text, i: nat, atom: Text, n: Node)
    requires n.Repeat? && Stands(p, i, atom + PrintTail(n))
    ensures Stands(p, i, atom) && Stands(p, i + |atom|, PrintTail(n))
    ensures i + |atom| < |p| && Quantifies(p[i + |atom|])
  {
    StandsSplit(p, i, atom, PrintTail(n));
    TailFirst(n);
    StandsAt(p, i + |atom|, PrintTail(n), 0);
  }

  lemma {:induction false} TermParses(p: Text, i: nat, count: nat, k: Brackets, n: Node)
    requires CanonTerm(n, count) && Stands(p, i, PrintTerm(n, count))
    requires Follows(p, i + |PrintTerm(n, count)|, n)
    ensures TermReads(p, i, count, k, n, i + |PrintTerm(n, count)|, count + GroupCount(n))
    decreases Size(n), 1
  {
    if n.Repeat? {
      var atom := PrintAtom(n.child, count);
      RepeatStands(p, i, atom, n);
      AtomParses(p, i, count, k, n.child);
      RepeatParses(p, i, count, k, n, i + |atom|, count + GroupCount(n.child));
    } else {
      AtomParses(p, i, count, k, n);
      AtomIsTerm(p, i, count, k, n, i + |PrintAtom(n, count)|, count + GroupCount(n));
    }
  }

  lemma {:induction false} SequenceStep(p: Text, i: nat, count: nat, k: Brackets, before: seq<Node>, n: Node, j: nat,
        after: nat, all: Node, end: nat, last: nat)
    requires !EndsSequence(p, i) && TermReads(p, i, count, k, n, j, after)
    requires SequenceReads(p, j, after, k, before + [n], all, end, last)
    ensures SequenceReads(p, i, count, k, before, all, end, last)
  {
  }

  lemma {:induction false} SequenceEnds(p: Text, i: nat, count: nat, k: Brackets, before: seq<Node>)
    requires i <= |p| && EndsSequence(p, i)
    ensures SequenceReads(p, i, count, k, before, FromItems(before), i, count)
  {
  }

  /** The first of some printed terms, where it stands. */
  lemma {:induction false} TermStands(p: Text, i: nat, items: seq<Node>, count: nat)
    requires items != [] && CanonTerms(items, count) && Stands(p, i, PrintTerms(items, count))
    requires EndsSequence(p, i + |PrintTerms(items, count)|)
    ensures var j := i + |PrintTerm(items[0], count)|;
      && !EndsSequence(p, i) && Stands(p, i, PrintTerm(items[0], count)) && Follows(p, j, items[0])
      && Stands(p, j, PrintTerms(items[1..], count + GroupCount(items[0])))
  {
    var after := count + GroupCount(items[0]);
    var first, rest := PrintTerm(items[0], count), PrintTerms(items[1..], after);
    StandsSplit(p, i, first, rest);
    TermFirst(items[0], count);
    StandsAt(p, i, first, 0);
    var j := i + |first|;
    if |items| > 1 {
      TermFirst(items[1], after);
      assert rest[0] == PrintTerm(items[1], after)[0];
      StandsAt(p, j, rest, 0);
    }
  }

  lemma {:induction false} Moved(before: seq<Node>, items: seq<Node>)
    requires items != []
    ensures before + [items[0]] + items[1..] == before + items
  {
  }

  lemma {:induction false} TermsParse(p: Text, i: nat, count: nat, k: Brackets, items: seq<Node>, before: seq<Node>,
        end: nat)
    requires CanonTerms(items, count) && Stands(p, i, PrintTerms(items, count))
    requires end == i + |PrintTerms(items, count)| && EndsSequence(p, end)
    ensures SequenceReads(p, i, count, k, before, FromItems(before + items), end, count + GroupCountAll(items))
    decreases SizeAll(items), 2
  {
    if items == [] {
      assert before + items == before;
      SequenceEnds(p, i, count, k, before);
    } else {
      var after := count + GroupCount(items[0]);
      var j := i + |PrintTerm(items[0], count)|;
      TermStands(p, i, items, count);
      TermParses(p, i, count, k, items[0]);
      TermsParse(p, j, after, k, items[1..], before + [items[0]], end);
      Moved(before, items);
      SequenceStep(p, i, count, k, before, items[0], j, after, FromItems(before + items), end, count
        + GroupCountAll(items));
    }
  }

  lemma {:induction false} SequenceParses(p: Text, i: nat, count: nat, k: Brackets, n: Node, end: nat)
    requires CanonSequence(n, count) && Stands(p, i, PrintSequence(n, count))
    requires end == i + |PrintSequence(n, count)| && EndsSequence(p, end)
    ensures SequenceReads(p, i, count, k, [], n, end, count + GroupCount(n))
    decreases Size(n), 3
  {
    if n.Empty? {
      SequenceEnds(p, i, count, k, []);
    } else if n.Sequence? {
      TermsParse(p, i, count, k, n.items, [], end);
      assert [] + n.items == n.items;
    } else {
      OneTermParses(p, i, count, k, n, end);
    }
  }

  lemma {:induction false} OneTermParses(p: Text, i: nat, count: nat, k: Brackets, n: Node, end: nat)
    requires CanonTerm(n, count) && Stands(p, i, PrintTerm(n, count))
    requires end == i + |PrintTerm(n, count)| && EndsSequence(p, end)
    ensures SequenceReads(p, i, count, k, [], n, end, count + GroupCount(n))
    decreases Size(n), 2
  {
    TermFirst(n, count);
    StandsAt(p, i, PrintTerm(n, count), 0);
    TermParses(p, i, count, k, n);
    assert [] + [n] == [n];
    SequenceEnds(p, end, count + GroupCount(n), k, [n]);
    SequenceStep(p, i, count, k, [], n, end, count + GroupCount(n), n, end, count + GroupCount(n));
  }

  lemma {:induction false} BranchesStep(p: Text, i: nat, count: nat, k: Brackets, before: seq<Node>, n: Node, j: nat,
        after: nat, all: Node, end: nat, last: nat)
    requires At(p, i, BAR) && SequenceReads(p, i + 1, count, k, [], n, j, after)
    requires BranchesRead(p, j, after, k, before + [n], all, end, last)
    ensures BranchesRead(p, i, count, k, before, all, end, last)
  {
  }

  lemma {:induction false} BranchesEnd(p: Text, i: nat, count: nat, k: Brackets, before: seq<Node>)
    requires i == |p| || At(p, i, CLOSE_PAREN)
    ensures BranchesRead(p, i, count, k, before, FromBranches(before), i, count)
  {
  }

  /** The first of some printed branches, where it stands. */
  lemma {:induction false} BranchStands(p: Text, i: nat, branches: seq<Node>, count: nat, end: nat)
    requires branches != [] && CanonBranches(branches, count) && Stands(p, i, PrintBranches(branches, count))
    requires end == i + |PrintBranches(branches, count)| && (end == |p| || At(p, end, CLOSE_PAREN))
    ensures var after := count + GroupCount(branches[0]);
      var j := i + 1 + |PrintSequence(branches[0], count)|;
      && At(p, i, BAR) && Stands(p, i + 1, PrintSequence(branches[0], count)) && EndsSequence(p, j)
      && Stands(p, j, PrintBranches(branches[1..], after)) && end == j + |PrintBranches(branches[1..], after)|
  {
    var after := count + GroupCount(branches[0]);
    var first, rest := PrintSequence(branches[0], count), PrintBranches(branches[1..], after);
    assert PrintBranches(branches, count) == [BAR] + (first + rest);
    StandsSplit(p, i, [BAR], first + rest);
    StandsAt(p, i, [BAR], 0);
    StandsSplit(p, i + 1, first, rest);
    if |branches| > 1 {
      StandsAt(p, i + 1 + |first|, rest, 0);
    }
  }

  lemma {:induction false} BranchesParse(p: Text, i: nat, count: nat, k: Brackets, branches: seq<Node>,
        before: seq<Node>, end: nat)
    requires CanonBranches(branches, count) && Stands(p, i, PrintBranches(branches, count))
    requires end == i + |PrintBranches(branches, count)| && (end == |p| || At(p, end, CLOSE_PAREN))
    ensures BranchesRead(p, i, count, k, before, FromBranches(before + branches), end, count + GroupCountAll(branches))
    decreases SizeAll(branches), 4
  {
    if branches == [] {
      assert before + branches == before;
      BranchesEnd(p, i, count, k, before);
    } else {
      var after := count + GroupCount(branches[0]);
      var j := i + 1 + |PrintSequence(branches[0], count)|;
      BranchStands(p, i, branches, count, end);
      SequenceParses(p, i + 1, count, k, branches[0], j);
      BranchesParse(p, j, after, k, branches[1..], before + [branches[0]], end);
      Moved(before, branches);
      BranchesStep(p, i, count, k, before, branches[0], j, after, FromBranches(before + branches), end,
        count + GroupCountAll(branches));
    }
  }

  lemma {:induction false} ExpressionStep(p: Text, i: nat, count: nat, k: Brackets, n: Node, j: nat, after: nat,
        all: Node, end: nat, last: nat)
    requires SequenceReads(p, i, count, k, [], n, j, after) && BranchesRead(p, j, after, k, [n], all, end, last)
    ensures ExpressionReads(p, i, count, k, all, end, last)
  {
  }

  lemma {:induction false} AlternationParses(p: Text, i: nat, count: nat, k: Brackets, branches: seq<Node>, end: nat)
    requires |branches| >= 2 && CanonBranches(branches, count)
    requires Stands(p, i, PrintExpression(Alternation(branches), count))
    requires end == i + |PrintExpression(Alternation(branches), count)| && (end == |p| || At(p, end, CLOSE_PAREN))
    ensures ExpressionReads(p, i, count, k, Alternation(branches), end, count + GroupCountAll(branches))
    decreases SizeAll(branches), 5
  {
    var first := branches[0];
    var after := count + GroupCount(first);
    var head, rest := PrintSequence(first, count), PrintBranches(branches[1..], after);
    StandsSplit(p, i, head, rest);
    StandsAt(p, i + |head|, rest, 0);
    SequenceParses(p, i, count, k, first, i + |head|);
    BranchesParse(p, i + |head|, after, k, branches[1..], [first], end);
    assert [first] + branches[1..] == branches;
    ExpressionStep(p, i, count, k, first, i + |head|, after, Alternation(branches), end, count
      + GroupCountAll(branches));
  }

  lemma {:induction false} ExpressionParses(p: Text, i: nat, count: nat, k: Brackets, n: Node, end: nat)
    requires CanonExpression(n, count) && Stands(p, i, PrintExpression(n, count))
    requires end == i + |PrintExpression(n, count)| && (end == |p| || At(p, end, CLOSE_PAREN))
    ensures ExpressionReads(p, i, count, k, n, end, count + GroupCount(n))
    decreases Size(n), 5
  {
    if n.Alternation? {
      AlternationParses(p, i, count, k, n.branches, end);
    } else {
      SequenceParses(p, i, count, k, n, end);
      assert FromBranches([n]) == n;
      BranchesEnd(p, end, count + GroupCount(n), k, [n]);
      ExpressionStep(p, i, count, k, n, end, count + GroupCount(n), n, end, count + GroupCount(n));
    }
  }

  /** Every tree of the grammar, printed as a pattern, compiles to itself. */
  lemma {:induction false} PrintCompiles(n: Node, k: Brackets)
    requires CanonExpression(n, 0)
    ensures Compile(PrintExpression(n, 0), k) == Some(Program(n, GroupCount(n)))
  {
    var p := PrintExpression(n, 0);
    StandsWhole(p);
    ExpressionParses(p, 0, 0, k, n, |p|);
    assert Unseal(0);
  }
}
