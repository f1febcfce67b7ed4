/** Escaped text, and the numbers of groups. */
module RegexEscape {
  import opened Wrappers
  import opened RegexMatch
  import opened RegexRelation
  import opened RegexFacts
  import opened RegexSearch
  import opened RegexFind
  import opened Bytes
  import opened Slices
  import opened RegexText
  import opened RegexParse
  import opened RegexPrint

  function Escape(t: Text): (r: Text)
    ensures t != [] ==> r != []
  {
    if t == [] then [] else (if IsMeta(t[0]) then [BACKSLASH, t[0]] else [t[0]]) + Escape(t[1..])
  }

  method EscapeText(t: Text) returns (r: Text)
    ensures r == Escape(t)
  {
    r := [];
    for i := 0 to |t|
      invariant r + Escape(t[i..]) == Escape(t)
    {
      assert t[i..][1..] == t[i + 1..];
      ghost var before := r;
      if IsMeta(t[i]) {
        r := r + [BACKSLASH];
      }
      r := r + [t[i]];
      assert r + Escape(t[i + 1..]) == before + Escape(t[i..]);
    }
  }

  /** The characters that get a backslash. */
  const META := "\\.^$|?*+()[]{}"

  /** A byte gets a backslash exactly if it is one of these. */
  lemma {:induction false} EscapeOne(b: Byte, t: Text)
    ensures Escape([b] + t) == (if exists j | 0 <= j < |META| :: META[j] as nat == b then [92, b] else [b]) + Escape(t)
  {
    var s := META;
    assert s[0] as nat == 92 && s[1] as nat == 46 && s[2] as nat == 94 && s[3] as nat == 36 && s[4] as nat == 124
      && s[5] as nat == 63 && s[6] as nat == 42 && s[7] as nat == 43 && s[8] as nat == 40 && s[9] as nat == 41
      && s[10] as nat == 91 && s[11] as nat == 93 && s[12] as nat == 123 && s[13] as nat == 125;
    assert ([b] + t)[1..] == t;
  }

  /** From `j` on, `p` is the text `t` from `i` on, escaped. */
  ghost predicate Escaped(t: Text, i: nat, p: Text, j: nat) {
    i <= |t| && j <= |p| && p[j..] == Escape(t[i..])
  }

  lemma {:induction false} EscapedByte(t: Text, i: nat, p: Text, j: nat)
    requires Escaped(t, i, p, j)
    ensures i < |t| <==> j < |p|
    ensures i < |t| && IsMeta(t[i]) ==>
      j + 1 < |p| && p[j] == BACKSLASH && p[j + 1] == t[i] && Escaped(t, i + 1, p, j + 2)
    ensures i < |t| && !IsMeta(t[i]) ==> p[j] == t[i] && Escaped(t, i + 1, p, j + 1)
  {
  }

  /** Escaping does not change how a character is decoded. */
  lemma {:induction false} EscapedCharacter(t: Text, i: nat, p: Text, j: nat)
    requires Escaped(t, i, p, j) && i < |t| && !IsMeta(t[i])
    ensures j < |p|
    ensures var (x, next) := Decode(t, i);
      Decode(p, j) == (x, j + (next - i)) && Escaped(t, next, p, j + (next - i))
  {
    EscapedByte(t, i, p, j);
    EscapedByte(t, i + 1, p, j + 1);
    if Trail(t, i + 1) {
      EscapedByte(t, i + 2, p, j + 2);
      if Trail(t, i + 2) {
        EscapedByte(t, i + 3, p, j + 3);
      }
    }
  }

  /** The character of the text at `i`, escaped, is read as its literal. */
  lemma {:induction false} EscapedTerm(t: Text, i: nat, p: Text, j: nat, k: Brackets)
    requires Escaped(t, i, p, j) && i < |t|
    ensures !EndsSequence(p, j) && !Quantifies(p[j])
    ensures var (x, next) := Decode(t, i);
      var end := if IsMeta(t[i]) then j + 2 else j + (next - i);
      end <= |p| && Escaped(t, next, p, end) && TermReads(p, j, 0, k, Literal(x), end, 0)
  {
    EscapedByte(t, i, p, j);
    var (x, next) := Decode(t, i);
    var end := if IsMeta(t[i]) then j + 2 else j + (next - i);
    if !IsMeta(t[i]) {
      EscapedCharacter(t, i, p, j);
    }
    assert ParseAtom(p, j, 0, k) == Parsed(Literal(x), end, 0);
    EscapedByte(t, next, p, end);
    AtomIsTerm(p, j, 0, k, Literal(x), end, 0);
  }

  lemma {:induction false} EscapedSequence(t: Text, i: nat, p: Text, j: nat, k: Brackets, before: seq<Node>)
    requires Escaped(t, i, p, j)
    ensures SequenceReads(p, j, 0, k, before, FromItems(before + Literals(CodePoints(t, i))), |p|, 0)
    decreases |t| - i
  {
    EscapedByte(t, i, p, j);
    if i < |t| {
      var (x, next) := Decode(t, i);
      var end := if IsMeta(t[i]) then j + 2 else j + (next - i);
      EscapedTerm(t, i, p, j, k);
      EscapedSequence(t, next, p, end, k, before + [Literal(x)]);
      var xs := Literals(CodePoints(t, i));
      assert CodePoints(t, i)[1..] == CodePoints(t, next);
      assert xs == [Literal(x)] + Literals(CodePoints(t, next));
      assert before + [Literal(x)] + Literals(CodePoints(t, next)) == before + xs;
      SequenceStep(p, j, 0, k, before, Literal(x), end, 0, FromItems(before + xs), |p|, 0);
    } else {
      assert before + Literals([]) == before;
      SequenceEnds(p, j, 0, k, before);
    }
  }

  function LiteralProgram(t: Text): Program {
    Program(FromItems(Literals(ViewOf(t).codepoints)), 0)
  }

  /** Escaped text compiles to the literals of its characters and nothing else. */
  lemma {:induction false} EscapeCompiles(t: Text, k: Brackets)
    ensures Compile(Escape(t), k) == Some(LiteralProgram(t))
  {
    var p := Escape(t);
    assert t[0..] == t && p[0..] == p;
    EscapedSequence(t, 0, p, 0, k, []);
    var xs := Literals(CodePoints(t, 0));
    assert [] + xs == xs;
    var n := FromItems(xs);
    BranchesEnd(p, |p|, 0, k, [n]);
    ExpressionStep(p, 0, 0, k, n, |p|, 0, n, |p|, 0);
    assert Unseal(0);
  }

  // ----- searching for escaped text -----

  lemma {:induction false} LiteralsSpell(xs: seq<nat>)
    ensures Spells(FromItems(Literals(xs))) && Spelling(FromItems(Literals(xs))) == xs
  {
  }

  lemma {:induction false} LiteralNodeMatches(s: Subject, xs: seq<nat>, p: nat, c: Captures)
    requires p <= |s.text| && CapturesOk(c, |s.text|)
    ensures MatchNode(s, FromItems(Literals(xs)), p, c) == if Occurs(s.text, p, xs) then Match(p + |xs|, c) else Fail
  {
    var n := FromItems(Literals(xs));
    LiteralsSpell(xs);
    SpellsDet(n);
    var r := MatchNode(s, n, p, c);
    if Occurs(s.text, p, xs) {
      SpellingDerives(s, n, p, c, p + |xs|, c);
      SearchDetExact(s, n, p, c, p + |xs|, c);
    } else if r.Match? {
      SearchDetExact(s, n, p, c, r.pos, r.caps);
      SpellingDerives(s, n, p, c, r.pos, r.caps);
    }
  }

  /** What is found when the characters `xs` are searched from `start` on: their first place. */
  ghost predicate FirstPlace(r: Found, text: seq<nat>, xs: seq<nat>, start: nat) {
    match r
    case NoMatch => forall p | start <= p :: !Occurs(text, p, xs)
    case Found(at, end, _) =>
      start <= at && Occurs(text, at, xs) && end == at + |xs| && forall p | start <= p < at :: !Occurs(text, p, xs)
  }

  lemma {:induction false} FirstPlaceLater(r: Found, text: seq<nat>, xs: seq<nat>, start: nat)
    requires FirstPlace(r, text, xs, start + 1) && !Occurs(text, start, xs)
    ensures FirstPlace(r, text, xs, start)
  {
  }

  lemma {:induction false} LiteralsFound(s: Subject, xs: seq<nat>, start: nat)
    ensures FirstPlace(Find(s, Program(FromItems(Literals(xs)), 0), start), s.text, xs, start)
    decreases |s.text| + 1 - start
  {
    var prog := Program(FromItems(Literals(xs)), 0);
    if start <= |s.text| {
      LiteralNodeMatches(s, xs, start, NoCaptures(prog));
      if !Occurs(s.text, start, xs) {
        LiteralsFound(s, xs, start + 1);
        FirstPlaceLater(Find(s, prog, start + 1), s.text, xs, start);
      }
    }
  }

  /** Searching for escaped text finds the first place where its characters occur. */
  lemma {:induction false} EscapeFindsFirst(t: Text, s: Subject, k: Brackets, start: nat)
    ensures Compile(Escape(t), k) == Some(LiteralProgram(t))
    ensures FirstPlace(Find(s, LiteralProgram(t), start), s.text, ViewOf(t).codepoints, start)
  {
    EscapeCompiles(t, k);
    LiteralsFound(s, ViewOf(t).codepoints, start);
  }

  // ----- group numbers -----

  /** The groups of a tree take the numbers after `count` in the order of their opening parentheses.
      Look-arounds take a number as well. */
  predicate Numbered(n: Node, count: nat)
    decreases Size(n), 0
  {
    match n
    case Sequence(items) => NumberedAll(items, count)
    case Alternation(branches) => NumberedAll(branches, count)
    case Repeat(child, _, _, _) => Numbered(child, count)
    case Group(child, true, index) => index == count + 1 && Numbered(child, count + 1)
    case Group(child, false, _) => Numbered(child, count)
    case Look(child, _, _) => Numbered(child, count + 1)
    case _ => true
  }

  predicate NumberedAll(ns: seq<Node>, count: nat)
    decreases SizeAll(ns), 1
  {
    ns == [] || (Numbered(ns[0], count) && NumberedAll(ns[1..], count + GroupCount(ns[0])))
  }

  /** The groups of `n` take the numbers from `count` to `after`. */
  ghost predicate Takes(n: Node, count: nat, after: nat) {
    Numbered(n, count) && after == count + GroupCount(n)
  }

  ghost predicate TakesAll(ns: seq<Node>, count: nat, after: nat) {
    NumberedAll(ns, count) && after == count + GroupCountAll(ns)
  }

  lemma {:induction false} TakesAppend(ns: seq<Node>, n: Node, count: nat, mid: nat, after: nat)
    requires TakesAll(ns, count, mid) && Takes(n, mid, after)
    ensures TakesAll(ns + [n], count, after)
    decreases ns
  {
    var all := ns + [n];
    if ns == [] {
      assert all[1..] == [];
    } else {
      TakesAppend(ns[1..], n, count + GroupCount(ns[0]), mid, after);
      assert all[1..] == ns[1..] + [n];
    }
  }

  lemma {:induction false} TakesItems(ns: seq<Node>, count: nat, after: nat)
    requires TakesAll(ns, count, after)
    ensures Takes(FromItems(ns), count, after) && Takes(FromBranches(ns), count, after)
  {
    if |ns| == 1 {
      assert ns[1..] == [];
      assert GroupCountAll(ns) == GroupCount(ns[0]) + GroupCountAll(ns[1..]);
      assert NumberedAll(ns, count);
    }
  }

  lemma {:induction false} AtomNumbered(p: Text, i: nat, count: nat, k: Brackets)
    requires i < |p| && ParseAtom(p, i, count, k).Parsed?
    ensures var r := ParseAtom(p, i, count, k); Takes(r.node, count, r.count)
    decreases |p| - i, 0
  {
    if At(p, i, OPEN_PAREN) {
      var (opening, start) := GroupHead(p, i + 1).value;
      ExpressionNumbered(p, start, count + Numbers(opening), k);
    }
  }

  lemma {:induction false} TermNumbered(p: Text, i: nat, count: nat, k: Brackets)
    requires i < |p| && ParseTerm(p, i, count, k).Parsed?
    ensures var r := ParseTerm(p, i, count, k); Takes(r.node, count, r.count)
    decreases |p| - i, 1
  {
    AtomNumbered(p, i, count, k);
  }

  lemma {:induction false} SequenceNumbered(p: Text, i: nat, before: nat, count: nat, k: Brackets, items: seq<Node>)
    requires i <= |p| && TakesAll(items, before, count) && ParseSequence(p, i, count, k, items).Parsed?
    ensures var r := ParseSequence(p, i, count, k, items); Takes(r.node, before, r.count)
    decreases |p| - i, 2
  {
    if EndsSequence(p, i) {
      TakesItems(items, before, count);
    } else {
      var r := ParseTerm(p, i, count, k);
      TermNumbered(p, i, count, k);
      TakesAppend(items, r.node, before, count, r.count);
      SequenceNumbered(p, r.index, before, r.count, k, items + [r.node]);
    }
  }

  lemma {:induction false} BranchesNumbered(p: Text, i: nat, before: nat, count: nat, k: Brackets, branches: seq<Node>)
    requires i <= |p| && TakesAll(branches, before, count) && ParseBranches(p, i, count, k, branches).Parsed?
    ensures var r := ParseBranches(p, i, count, k, branches); Takes(r.node, before, r.count)
    decreases |p| - i, 3
  {
    if !At(p, i, BAR) {
      TakesItems(branches, before, count);
    } else {
      var r := ParseSequence(p, i + 1, count, k, []);
      SequenceNumbered(p, i + 1, count, count, k, []);
      TakesAppend(branches, r.node, before, count, r.count);
      BranchesNumbered(p, r.index, before, r.count, k, branches + [r.node]);
    }
  }

  lemma {:induction false} ExpressionNumbered(p: Text, i: nat, count: nat, k: Brackets)
    requires i <= |p| && ParseExpression(p, i, count, k).Parsed?
    ensures var r := ParseExpression(p, i, count, k); Takes(r.node, count, r.count)
    decreases |p| - i, 4
  {
    var r := ParseSequence(p, i, count, k, []);
    SequenceNumbered(p, i, count, count, k, []);
    TakesAppend([], r.node, count, count, r.count);
    assert [] + [r.node] == [r.node];
    BranchesNumbered(p, r.index, count, r.count, k, [r.node]);
  }

  /** Whatever compiles has its groups numbered from 1 in order, and room for a capture of each. */
  lemma {:induction false} CompiledNumbered(p: Text, k: Brackets)
    requires Compile(p, k).Some?
    ensures var prog := Compile(p, k).value; Numbered(prog.root, 0) && prog.captureCount == GroupCount(prog.root)
  {
    ExpressionNumbered(p, 0, 0, k);
  }
}
