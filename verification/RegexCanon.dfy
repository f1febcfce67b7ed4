/** What patterns compile to, written again. */
module RegexCanon {
  import opened Wrappers
  import opened RegexMatch
  import opened RegexFind
  import opened Bytes
  import opened RegexText
  import opened RegexParse
  import opened RegexPrint

  /** The brackets of the pattern, if it has any, give classes that have a letter of their own. */
  ghost predicate LetterBrackets(p: Text, k: Brackets) {
    forall i | 0 <= i < |p| && p[i] == OPEN_BRACKET :: k.read(p, i).Some? ==> ClassLetter(k.read(p, i).value.0).Some?
  }

  /** A reader that takes no bracketed class. */
  const NO_BRACKETS := Brackets((p: Text, i: nat) => None)

  // ----- the numbers in a pattern -----

  lemma {:induction false} DecodeSmall(p: Text, i: nat)
    requires i < |p|
    ensures Decode(p, i).0 < CODE_LIMIT
  {
  }

  lemma {:induction false} PowersRise(n: nat, m: nat)
    requires n <= m
    ensures Power16(n) <= Power16(m)
    decreases m
  {
    if n == m {
    } else {
      PowersRise(n, m - 1);
    }
  }

  lemma {:induction false} PowerLimit(n: nat)
    requires n <= 8
    ensures Power16(n) <= CODE_LIMIT
  {
    PowersRise(n, 8);
    assert Power16(8) == CODE_LIMIT;
  }

  /** Eight hexadecimal digits fit 32 bits. */
  lemma {:induction false} HexSmall(p: Text, i: nat, digits: nat, value: nat, before: nat)
    requires i + digits <= |p| && value < Power16(before) && before + digits <= 8
    ensures var r := HexDigits(p, i, digits, value); r.Some? ==> r.value < CODE_LIMIT
    decreases digits
  {
    if digits == 0 {
      PowerLimit(before);
    } else if HexValue(p[i]).Some? {
      HexSmall(p, i + 1, digits - 1, value * 16 + HexValue(p[i]).value, before + 1);
    }
  }

  lemma {:induction false} LiteralSmall(p: Text, i: nat)
    requires i < |p|
    ensures var r := LiteralEscape(p, i); r.Some? ==> r.value.0 < CODE_LIMIT
  {
    var c := p[i];
    var digits := if c == Ch('x') then 2 else if c == Ch('u') then 4 else 8;
    if i + 1 + digits <= |p| {
      HexSmall(p, i + 1, digits, 0, 0);
    }
  }

  lemma {:induction false} NumberRises(p: Text, i: nat, value: nat)
    requires i <= |p|
    ensures Number(p, i, value).0 >= value
    decreases |p| - i
  {
    if i < |p| && IsDigit(p[i]) {
      NumberRises(p, i + 1, value * 10 + (p[i] as int - 48));
    }
  }

  // ----- what the grammar builds -----

  lemma {:induction false} EscapeCanon(p: Text, i: nat, count: nat)
    requires i < |p|
    ensures var r := ParseEscape(p, i, count);
      r.Parsed? ==> CanonAtom(r.node, count) && r.count == count + GroupCount(r.node)
  {
    if i + 1 < |p| {
      LiteralSmall(p, i + 1);
      if IsDigit(p[i + 1]) {
        NumberRises(p, i + 2, p[i + 1] as int - 48);
      }
    }
  }

  lemma {:induction false} AtomCanon(p: Text, i: nat, count: nat, k: Brackets)
    requires i < |p| && LetterBrackets(p, k)
    ensures var r := ParseAtom(p, i, count, k);
      r.Parsed? ==> CanonAtom(r.node, count) && r.count == count + GroupCount(r.node)
    decreases |p| - i, 0
  {
    if At(p, i, OPEN_PAREN) {
      GroupCanon(p, i, count, k);
    } else if At(p, i, BACKSLASH) {
      EscapeCanon(p, i, count);
    } else {
      DecodeSmall(p, i);
    }
  }

  lemma {:induction false} GroupCanon(p: Text, i: nat, count: nat, k: Brackets)
    requires At(p, i, OPEN_PAREN) && LetterBrackets(p, k)
    ensures var r := ParseAtom(p, i, count, k);
      r.Parsed? ==> CanonAtom(r.node, count) && r.count == count + GroupCount(r.node)
    decreases |p| - i, -1
  {
    match GroupHead(p, i + 1) {
      case None =>
      case Some((opening, start)) => ExpressionCanon(p, start, count + Numbers(opening), k);
    }
  }

  lemma {:induction false} TermCanon(p: Text, i: nat, count: nat, k: Brackets)
    requires i < |p| && LetterBrackets(p, k)
    ensures var r := ParseTerm(p, i, count, k);
      r.Parsed? ==> CanonTerm(r.node, count) && r.count == count + GroupCount(r.node)
    decreases |p| - i, 1
  {
    AtomCanon(p, i, count, k);
  }

  lemma {:induction false} TermsGrow(items: seq<Node>, n: Node, count: nat)
    requires CanonTerms(items, count) && CanonTerm(n, count + GroupCountAll(items))
    ensures CanonTerms(items + [n], count) && GroupCountAll(items + [n]) == GroupCountAll(items) + GroupCount(n)
    decreases items
  {
    if items == [] {
      assert [] + [n] == [n];
    } else {
      TermsGrow(items[1..], n, count + GroupCount(items[0]));
      assert (items + [n])[1..] == items[1..] + [n];
    }
  }

  lemma {:induction false} BranchesGrow(branches: seq<Node>, n: Node, count: nat)
    requires CanonBranches(branches, count) && CanonSequence(n, count + GroupCountAll(branches))
    ensures CanonBranches(branches + [n], count)
    ensures GroupCountAll(branches + [n]) == GroupCountAll(branches) + GroupCount(n)
    decreases branches
  {
    if branches == [] {
      assert [] + [n] == [n];
    } else {
      BranchesGrow(branches[1..], n, count + GroupCount(branches[0]));
      assert (branches + [n])[1..] == branches[1..] + [n];
    }
  }

  lemma {:induction false} ItemsCanon(items: seq<Node>, count: nat)
    requires CanonTerms(items, count)
    ensures CanonSequence(FromItems(items), count) && GroupCount(FromItems(items)) == GroupCountAll(items)
  {
    if |items| == 1 {
      assert GroupCountAll(items[1..]) == 0;
    }
  }

  lemma {:induction false} NoAlternation(n: Node, count: nat)
    requires CanonSequence(n, count)
    ensures !n.Alternation?
  {
    if n.Alternation? {
      assert CanonAtom(n, count);
    }
  }

  lemma {:induction false} BranchesCanon(branches: seq<Node>, count: nat)
    requires branches != [] && CanonBranches(branches, count)
    ensures CanonExpression(FromBranches(branches), count)
    ensures GroupCount(FromBranches(branches)) == GroupCountAll(branches)
  {
    if |branches| == 1 {
      NoAlternation(branches[0], count);
      assert GroupCountAll(branches[1..]) == 0;
    }
  }

  /** The terms read so far are `items`, the first of them after `first` groups. */
  lemma {:induction false} SequenceCanon(p: Text, i: nat, count: nat, k: Brackets, items: seq<Node>, first: nat)
    requires i <= |p| && LetterBrackets(p, k) && CanonTerms(items, first) && count == first + GroupCountAll(items)
    ensures var r := ParseSequence(p, i, count, k, items);
      r.Parsed? ==> CanonSequence(r.node, first) && r.count == first + GroupCount(r.node)
    decreases |p| - i, 2
  {
    if EndsSequence(p, i) {
      ItemsCanon(items, first);
    } else {
      TermCanon(p, i, count, k);
      match ParseTerm(p, i, count, k) {
        case Bad =>
        case Parsed(term, next, after) =>
          TermsGrow(items, term, first);
          SequenceCanon(p, next, after, k, items + [term], first);
      }
    }
  }

  lemma {:induction false} MoreBranchesCanon(p: Text, i: nat, count: nat, k: Brackets, branches: seq<Node>, first: nat)
    requires i <= |p| && LetterBrackets(p, k)
    requires branches != [] && CanonBranches(branches, first) && count == first + GroupCountAll(branches)
    ensures var r := ParseBranches(p, i, count, k, branches);
      r.Parsed? ==> CanonExpression(r.node, first) && r.count == first + GroupCount(r.node)
    decreases |p| - i, 3
  {
    if !At(p, i, BAR) {
      BranchesCanon(branches, first);
    } else {
      SequenceCanon(p, i + 1, count, k, [], count);
      match ParseSequence(p, i + 1, count, k, []) {
        case Bad =>
        case Parsed(branch, next, after) =>
          BranchesGrow(branches, branch, first);
          MoreBranchesCanon(p, next, after, k, branches + [branch], first);
      }
    }
  }

  lemma {:induction false} ExpressionCanon(p: Text, i: nat, count: nat, k: Brackets)
    requires i <= |p| && LetterBrackets(p, k)
    ensures var r := ParseExpression(p, i, count, k);
      r.Parsed? ==> CanonExpression(r.node, count) && r.count == count + GroupCount(r.node)
    decreases |p| - i, 4
  {
    SequenceCanon(p, i, count, k, [], count);
    match ParseSequence(p, i, count, k, []) {
      case Bad =>
      case Parsed(branch, next, after) =>
        BranchesGrow([], branch, count);
        assert [] + [branch] == [branch];
        MoreBranchesCanon(p, next, after, k, [branch], count);
    }
  }

  /** The program of a pattern, printed, compiles to the same program again. */
  lemma {:induction false} ReprintCompiles(p: Text, k: Brackets)
    requires LetterBrackets(p, k) && Compile(p, k).Some?
    ensures var program := Compile(p, k).value;
      && CanonExpression(program.root, 0) && program.captureCount == GroupCount(program.root)
      && Compile(PrintExpression(program.root, 0), k) == Compile(p, k)
  {
    ExpressionCanon(p, 0, 0, k);
    PrintCompiles(Compile(p, k).value.root, k);
  }

  /** The printable trees are exactly what patterns without bracketed classes compile to. */
  lemma {:induction false} CanonExactly(n: Node)
    ensures CanonExpression(n, 0) <==> exists p: Text :: Compile(p, NO_BRACKETS) == Some(Program(n, GroupCount(n)))
  {
    if CanonExpression(n, 0) {
      PrintCompiles(n, NO_BRACKETS);
    }
    forall p: Text | Compile(p, NO_BRACKETS) == Some(Program(n, GroupCount(n))) ensures CanonExpression(n, 0) {
      ReprintCompiles(p, NO_BRACKETS);
    }
  }
}
