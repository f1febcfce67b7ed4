/** What keeping the first match loses. */
module RegexChoice {
  import opened RegexMatch
  import opened RegexRelation
  import opened RegexFacts
  import opened RegexSearch

  /** From here the search for `n` followed by `rest` succeeds exactly if the relation has a match. */
  ghost predicate AgreesOn(s: Subject, n: Node, rest: seq<Node>, p: nat, c: Captures)
    requires p <= |s.text| && CapturesOk(c, |s.text|)
  {
    MatchItems(s, [n] + rest, p, c).Match? <==> exists q, d :: DerivesAll(s, [n] + rest, p, c, q, d)
  }

  /** Whatever linear items follow `n`, keeping its first match loses nothing. */
  ghost predicate LosesNothing(n: Node) {
    forall s: Subject, rest, p: nat, c | p <= |s.text| && CapturesOk(c, |s.text|) && LinearAll(rest) ::
      AgreesOn(s, n, rest, p, c)
  }

  /** All matches of `n` from one position end at the same one. */
  ghost predicate OneEnd(n: Node) {
    forall s: Subject, p: nat, c, q, d, q', d' | p <= |s.text| && CapturesOk(c, |s.text|) ::
      Derives(s, n, p, c, q, d) && Derives(s, n, p, c, q', d') ==> q == q'
  }

  /** The captures of a match depend on where it ends only. */
  predicate EndDecides(n: Node) {
    CaptureFree(n) || (n.Group? && CaptureFree(n.child))
  }

  lemma {:induction false} SameEndSameCaptures(s: Subject, n: Node, p: nat, c: Captures, q: nat, d: Captures,
        d': Captures)
    requires p <= |s.text| && CapturesOk(c, |s.text|) && EndDecides(n)
    requires Derives(s, n, p, c, q, d) && Derives(s, n, p, c, q, d')
    ensures d == d'
  {
    if CaptureFree(n) {
      CaptureFreeKeeps(s, n, p, c, q, d);
      CaptureFreeKeeps(s, n, p, c, q, d');
    } else {
      var e :| Derives(s, n.child, p, c, q, e) && d == SetCapture(n, p, q, e);
      var e' :| Derives(s, n.child, p, c, q, e') && d' == SetCapture(n, p, q, e');
      CaptureFreeKeeps(s, n.child, p, c, q, e);
      CaptureFreeKeeps(s, n.child, p, c, q, e');
    }
  }

  // ----- items that succeed at one position only -----

  /** Exactly the characters `xs`, and then the end of the text. */
  function Ending(xs: seq<nat>): seq<Node> {
    Literals(xs) + [AssertEnd]
  }

  lemma {:induction false} EndingTail(xs: seq<nat>)
    requires xs != []
    ensures Ending(xs)[0] == Literal(xs[0]) && Ending(xs)[1..] == Ending(xs[1..])
  {
  }

  lemma {:induction false} EndingLinear(xs: seq<nat>)
    ensures LinearAll(Ending(xs))
  {
    if xs == [] {
      assert Ending(xs) == [AssertEnd];
    } else {
      EndingTail(xs);
      EndingLinear(xs[1..]);
    }
  }

  lemma {:induction false} EndingDerives(s: Subject, p: nat, c: Captures)
    requires p <= |s.text| && CapturesOk(c, |s.text|)
    ensures DerivesAll(s, Ending(s.text[p..]), p, c, |s.text|, c)
    decreases |s.text| - p
  {
    var xs := s.text[p..];
    if xs == [] {
      assert Ending(xs) == [AssertEnd] && Ending(xs)[1..] == [];
      assert Derives(s, AssertEnd, p, c, p, c) && DerivesAll(s, [], p, c, p, c);
    } else {
      EndingTail(xs);
      assert xs[1..] == s.text[p + 1..];
      EndingDerives(s, p + 1, c);
      assert Derives(s, Literal(xs[0]), p, c, p + 1, c);
    }
  }

  lemma {:induction false} EndingPlace(s: Subject, xs: seq<nat>, p: nat, c: Captures, q: nat, d: Captures)
    requires p <= |s.text| && CapturesOk(c, |s.text|) && DerivesAll(s, Ending(xs), p, c, q, d)
    ensures p + |xs| == |s.text|
    decreases |xs|
  {
    var m, e :| Derives(s, Ending(xs)[0], p, c, m, e) && DerivesAll(s, Ending(xs)[1..], m, e, q, d);
    if xs == [] {
      assert Ending(xs) == [AssertEnd];
    } else {
      EndingTail(xs);
      EndingPlace(s, xs[1..], m, e, q, d);
    }
  }

  // ----- main results -----

  lemma {:induction false} FirstThenRest(s: Subject, n: Node, rest: seq<Node>, p: nat, c: Captures)
    requires p <= |s.text| && CapturesOk(c, |s.text|) && !n.Repeat?
    ensures var r := MatchNode(s, n, p, c);
      MatchItems(s, [n] + rest, p, c) == if r.Fail? then Fail else MatchItems(s, rest, r.pos, r.caps)
  {
    assert ([n] + rest)[1..] == rest;
  }

  lemma {:induction false} DerivesFirst(s: Subject, n: Node, rest: seq<Node>, p: nat, c: Captures, q: nat, d: Captures)
      returns (m: nat, e: Captures)
    requires p <= |s.text| && CapturesOk(c, |s.text|) && DerivesAll(s, [n] + rest, p, c, q, d)
    ensures Derives(s, n, p, c, m, e) && DerivesAll(s, rest, m, e, q, d)
  {
    var items := [n] + rest;
    assert items[0] == n && items[1..] == rest;
    m, e :| Derives(s, items[0], p, c, m, e) && DerivesAll(s, items[1..], m, e, q, d);
  }

  lemma {:induction false} DerivesBoth(
      s: Subject, n: Node, rest: seq<Node>, p: nat, c: Captures, m: nat, e: Captures, q: nat, d: Captures)
    requires p <= |s.text| && CapturesOk(c, |s.text|)
    requires Derives(s, n, p, c, m, e) && DerivesAll(s, rest, m, e, q, d)
    ensures DerivesAll(s, [n] + rest, p, c, q, d)
  {
    var items := [n] + rest;
    assert items[0] == n && items[1..] == rest;
  }

  /** With one end, the match that is kept is as good as any other. */
  lemma {:induction false} OneEndAgrees(s: Subject, n: Node, rest: seq<Node>, p: nat, c: Captures)
    requires Linear(n) && !n.Repeat? && EndDecides(n) && OneEnd(n) && LinearAll(rest)
    requires p <= |s.text| && CapturesOk(c, |s.text|)
    ensures AgreesOn(s, n, rest, p, c)
  {
    FirstThenRest(s, n, rest, p, c);
    LinearTrusted(n);
    LinearTrustedAll(rest);
    var r := MatchNode(s, n, p, c);
    if MatchItems(s, [n] + rest, p, c).Match? {
      Sound(s, n, p, c);
      SoundItems(s, rest, r.pos, r.caps);
      var t := MatchItems(s, rest, r.pos, r.caps);
      DerivesBoth(s, n, rest, p, c, r.pos, r.caps, t.pos, t.caps);
    }
    if q, d :| DerivesAll(s, [n] + rest, p, c, q, d) {
      var m, e := DerivesFirst(s, n, rest, p, c, q, d);
      Complete(s, n, p, c, m, e);
      Sound(s, n, p, c);
      SameEndSameCaptures(s, n, p, c, m, e, r.caps);
      CompleteItems(s, rest, m, e, q, d);
    }
  }

  /** Where there is a match with another end than the one that is kept, items that accept only that
      end fail. */
  lemma {:induction false} OtherEndLost(s: Subject, n: Node, p: nat, c: Captures, q: nat, d: Captures)
    requires Linear(n) && !n.Repeat? && p <= |s.text| && CapturesOk(c, |s.text|)
    requires Derives(s, n, p, c, q, d) && MatchNode(s, n, p, c).Match? && MatchNode(s, n, p, c).pos != q
    ensures var rest := Ending(s.text[q..]); LinearAll(rest) && !AgreesOn(s, n, rest, p, c)
  {
    var rest := Ending(s.text[q..]);
    EndingLinear(s.text[q..]);
    FirstThenRest(s, n, rest, p, c);
    EndingDerives(s, q, d);
    DerivesBoth(s, n, rest, p, c, q, d, |s.text|, d);
    var r := MatchNode(s, n, p, c);
    if MatchItems(s, rest, r.pos, r.caps).Match? {
      LinearTrustedAll(rest);
      SoundItems(s, rest, r.pos, r.caps);
      var t := MatchItems(s, rest, r.pos, r.caps);
      EndingPlace(s, s.text[q..], r.pos, r.caps, t.pos, t.caps);
    }
  }

  /** Keeping the first match of a node loses nothing, whatever follows, exactly if all its matches
      from one position end at the same one. */
  lemma {:induction false} AtomicExactly(n: Node)
    requires Linear(n) && !n.Repeat? && EndDecides(n)
    ensures LosesNothing(n) <==> OneEnd(n)
  {
    if OneEnd(n) {
      forall s: Subject, rest, p: nat, c | p <= |s.text| && CapturesOk(c, |s.text|) && LinearAll(rest)
        ensures AgreesOn(s, n, rest, p, c)
      {
        OneEndAgrees(s, n, rest, p, c);
      }
    }
    if LosesNothing(n) {
      forall s: Subject, p: nat, c, q, d, q', d' | p <= |s.text| && CapturesOk(c, |s.text|)
          && Derives(s, n, p, c, q, d) && Derives(s, n, p, c, q', d')
        ensures q == q'
      {
        Complete(s, n, p, c, q, d);
        if MatchNode(s, n, p, c).pos != q {
          OtherEndLost(s, n, p, c, q, d);
        } else if q' != q {
          OtherEndLost(s, n, p, c, q', d');
        }
      }
    }
  }

  /** A group around words. */
  ghost predicate ChoiceOf(n: Node, branches: seq<Node>) {
    n == Alternation(branches) || (n.Group? && n.child == Alternation(branches))
  }

  lemma {:induction false} ChoiceTaken(s: Subject, n: Node, branches: seq<Node>, p: nat, c: Captures, q: nat,
        d: Captures)
      returns (e: Captures)
    requires p <= |s.text| && CapturesOk(c, |s.text|) && ChoiceOf(n, branches) && Derives(s, n, p, c, q, d)
    ensures DerivesSome(s, branches, p, c, q, e)
  {
    if n.Group? {
      e :| Derives(s, n.child, p, c, q, e) && d == SetCapture(n, p, q, e);
    } else {
      e := d;
    }
  }

  lemma {:induction false} WordsSameEnd(s: Subject, n: Node, branches: seq<Node>, p: nat, c: Captures, q: nat,
        d: Captures, q': nat, d': Captures)
    requires p <= |s.text| && CapturesOk(c, |s.text|) && ChoiceOf(n, branches) && PrefixFree(branches)
    requires Derives(s, n, p, c, q, d) && Derives(s, n, p, c, q', d')
    ensures q == q'
  {
    var e := ChoiceTaken(s, n, branches, p, c, q, d);
    var e' := ChoiceTaken(s, n, branches, p, c, q', d');
    PrefixFreeUnique(s, branches, p, c, q, e, q', e');
  }

  /** Both a word and a longer one that starts with it match the longer one. */
  lemma {:induction false} WordsTwoEnds(n: Node, branches: seq<Node>, i: nat, j: nat)
    requires ChoiceOf(n, branches) && i < |branches| && j < |branches| && OneEnd(n)
    requires Spells(branches[i]) && Spells(branches[j]) && Spelling(branches[i]) <= Spelling(branches[j])
    ensures Spelling(branches[i]) == Spelling(branches[j])
  {
    var s := Subject(Spelling(branches[j]), (_, _) => false);
    WordTaken(s, n, branches, i);
    WordTaken(s, n, branches, j);
  }

  lemma {:induction false} WordsOneEnd(n: Node, branches: seq<Node>)
    requires ChoiceOf(n, branches) && forall i | 0 <= i < |branches| :: Spells(branches[i])
    ensures OneEnd(n) <==> PrefixFree(branches)
  {
    if PrefixFree(branches) {
      forall s: Subject, p: nat, c, q, d, q', d' | p <= |s.text| && CapturesOk(c, |s.text|)
          && Derives(s, n, p, c, q, d) && Derives(s, n, p, c, q', d')
        ensures q == q'
      {
        WordsSameEnd(s, n, branches, p, c, q, d, q', d');
      }
    }
    if OneEnd(n) {
      forall i, j | 0 <= i < |branches| && 0 <= j < |branches| && Spelling(branches[i]) <= Spelling(branches[j])
        ensures Spelling(branches[i]) == Spelling(branches[j])
      {
        WordsTwoEnds(n, branches, i, j);
      }
    }
  }

  lemma {:induction false} WordTaken(s: Subject, n: Node, branches: seq<Node>, i: nat)
    requires ChoiceOf(n, branches) && i < |branches| && Spells(branches[i]) && Spelling(branches[i]) <= s.text
    ensures exists d :: Derives(s, n, 0, [], |Spelling(branches[i])|, d)
  {
    var q := |Spelling(branches[i])|;
    SpellingDerives(s, branches[i], 0, [], q, []);
    BranchTaken(s, branches, i, 0, [], q, []);
    assert Derives(s, Alternation(branches), 0, [], q, []);
    assert n.Group? ==> Derives(s, n, 0, [], q, SetCapture(n, 0, q, []));
  }

  /** For words, in a group or not, nothing is lost exactly if no word is the beginning of another. */
  lemma {:induction false} WordsExactly(n: Node, branches: seq<Node>)
    requires ChoiceOf(n, branches) && forall i | 0 <= i < |branches| :: Spells(branches[i])
    ensures LosesNothing(n) <==> PrefixFree(branches)
  {
    WordsLinear(branches);
    assert Linear(Alternation(branches));
    AtomicExactly(n);
    WordsOneEnd(n, branches);
  }

  // ----- an input on which a match is lost -----

  function Letter(k: nat): Node {
    Literal(97 + k)
  }

  lemma {:induction false} DerivesPair(s: Subject, a: Node, b: Node, p: nat, c: Captures, m: nat, e: Captures, q: nat,
        d: Captures)
    requires p <= |s.text| && CapturesOk(c, |s.text|)
    requires Derives(s, a, p, c, m, e) && Derives(s, b, m, e, q, d)
    ensures DerivesAll(s, [a, b], p, c, q, d)
  {
    assert [a, b][1..] == [b];
    assert [b][1..] == [];
    assert DerivesAll(s, [b][1..], q, d, q, d);
    assert DerivesAll(s, [b], m, e, q, d);
  }

  const CHOICE := Alternation([Letter(0), Sequence([Letter(0), Letter(1)])])

  lemma {:induction false} ChoiceTakesBoth(s: Subject)
    requires s.text == [97, 98, 99]
    ensures Derives(s, CHOICE, 0, [], 2, [])
  {
    DerivesPair(s, Letter(0), Letter(1), 0, [], 1, [], 2, []);
    var both := Sequence([Letter(0), Letter(1)]);
    assert Derives(s, both, 0, [], 2, []);
    assert CHOICE.branches[1..] == [both];
    assert DerivesSome(s, [both], 0, [], 2, []);
  }

  lemma {:induction false} ChoiceTakesFirst(s: Subject)
    requires s.text == [97, 98, 99]
    ensures MatchNode(s, CHOICE, 0, []) == Match(1, [])
  {
    assert MatchNode(s, CHOICE, 0, []) == MatchBranches(s, CHOICE.branches, 0, []);
    assert MatchNode(s, Letter(0), 0, []) == Match(1, []);
  }

  /** `(?:a|ab)c` on "abc": the first branch that matches is kept although the rest then fails. */
  lemma {:induction false} AtomicChoiceMisses(s: Subject)
    requires s.text == [97, 98, 99]
    ensures var n := Sequence([CHOICE, Letter(2)]);
      Trusted(n) && CanMatch(s, n, 0, []) && MatchNode(s, n, 0, []) == Fail
  {
    var n := Sequence([CHOICE, Letter(2)]);
    ChoiceTakesBoth(s);
    DerivesPair(s, CHOICE, Letter(2), 0, [], 2, [], 3, []);
    assert Derives(s, n, 0, [], 3, []);
    ChoiceTakesFirst(s);
    assert n.items[1..] == [Letter(2)];
    assert MatchNode(s, n, 0, []) == MatchItems(s, n.items, 0, []);
    assert MatchItems(s, [Letter(2)], 1, []) == Fail;
  }
}
