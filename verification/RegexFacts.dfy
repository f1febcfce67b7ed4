/** Facts about the meaning of pattern trees that involve no search. */
module RegexFacts {
  import opened RegexMatch
  import opened RegexRelation

  // ----- no captures -----

  lemma {:induction false} CaptureFreeKeeps(s: Subject, n: Node, p: nat, c: Captures, q: nat, d: Captures)
    requires p <= |s.text| && CapturesOk(c, |s.text|)
    requires CaptureFree(n) && Derives(s, n, p, c, q, d)
    ensures d == c
    decreases Size(n), 0
  {
    match n
    case Sequence(items) => CaptureFreeKeepsAll(s, items, p, c, q, d);
    case Alternation(branches) => CaptureFreeKeepsSome(s, branches, p, c, q, d);
    case Repeat(child, min, max, _) =>
      var k := Rounds(s, n, p, c, q, d);
      CaptureFreeKeepsIterates(s, child, k, p, c, q, d);
    case Group(child, _, _) =>
      var e :| Derives(s, child, p, c, q, e) && d == SetCapture(n, p, q, e);
      CaptureFreeKeeps(s, child, p, c, q, e);
    case Look(child, positive, behind) =>
      if positive {
        var a, b :| Sees(s, child, behind, p, c, a, b, d);
        CaptureFreeKeeps(s, child, a, c, b, d);
      }
    case _ =>
  }

  lemma {:induction false} CaptureFreeKeepsAll(s: Subject, items: seq<Node>, p: nat, c: Captures, q: nat, d: Captures)
    requires p <= |s.text| && CapturesOk(c, |s.text|)
    requires (forall i | 0 <= i < |items| :: CaptureFree(items[i])) && DerivesAll(s, items, p, c, q, d)
    ensures d == c
    decreases SizeAll(items), 1
  {
    if items == [] {
    } else {
      var m, e :| Derives(s, items[0], p, c, m, e) && DerivesAll(s, items[1..], m, e, q, d);
      CaptureFreeKeeps(s, items[0], p, c, m, e);
      CaptureFreeKeepsAll(s, items[1..], m, e, q, d);
    }
  }

  lemma {:induction false} CaptureFreeKeepsSome(s: Subject, branches: seq<Node>, p: nat, c: Captures, q: nat,
        d: Captures)
    requires p <= |s.text| && CapturesOk(c, |s.text|)
    requires (forall i | 0 <= i < |branches| :: CaptureFree(branches[i])) && DerivesSome(s, branches, p, c, q, d)
    ensures d == c
    decreases SizeAll(branches), 1
  {
    if Derives(s, branches[0], p, c, q, d) {
      CaptureFreeKeeps(s, branches[0], p, c, q, d);
    } else {
      CaptureFreeKeepsSome(s, branches[1..], p, c, q, d);
    }
  }

  lemma {:induction false} CaptureFreeKeepsIterates(s: Subject, child: Node, k: nat, p: nat, c: Captures, q: nat,
        d: Captures)
    requires p <= |s.text| && CapturesOk(c, |s.text|)
    requires CaptureFree(child) && Iterates(s, child, k, p, c, q, d)
    ensures d == c
    decreases Size(child), k
  {
    if k == 0 {
    } else {
      var m, e :| Derives(s, child, p, c, m, e) && Iterates(s, child, k - 1, m, e, q, d);
      CaptureFreeKeeps(s, child, p, c, m, e);
      CaptureFreeKeepsIterates(s, child, k - 1, m, e, q, d);
    }
  }

  // ----- widths -----

  lemma {:induction false} WidthExact(s: Subject, n: Node, w: nat, p: nat, c: Captures, q: nat, d: Captures)
    requires p <= |s.text| && CapturesOk(c, |s.text|)
    requires HasWidth(n, w) && Derives(s, n, p, c, q, d)
    ensures q == p + w
    decreases Size(n), 0
  {
    match n
    case Sequence(items) => WidthExactAll(s, items, w, p, c, q, d);
    case Alternation(branches) => WidthExactSome(s, branches, w, p, c, q, d);
    case Group(child, _, _) =>
      var e :| Derives(s, child, p, c, q, e) && d == SetCapture(n, p, q, e);
      WidthExact(s, child, w, p, c, q, e);
    case _ =>
  }

  lemma {:induction false} WidthExactAll(s: Subject, items: seq<Node>, w: nat, p: nat, c: Captures, q: nat, d: Captures)
    requires p <= |s.text| && CapturesOk(c, |s.text|)
    requires HasWidths(items, w) && DerivesAll(s, items, p, c, q, d)
    ensures q == p + w
    decreases SizeAll(items), 1
  {
    if items == [] {
    } else {
      var v: nat :| v <= w && HasWidth(items[0], v) && HasWidths(items[1..], w - v);
      var m, e :| Derives(s, items[0], p, c, m, e) && DerivesAll(s, items[1..], m, e, q, d);
      WidthExact(s, items[0], v, p, c, m, e);
      WidthExactAll(s, items[1..], w - v, m, e, q, d);
    }
  }

  lemma {:induction false} WidthExactSome(s: Subject, branches: seq<Node>, w: nat, p: nat, c: Captures, q: nat,
        d: Captures)
    requires p <= |s.text| && CapturesOk(c, |s.text|)
    requires (forall i | 0 <= i < |branches| :: HasWidth(branches[i], w)) && DerivesSome(s, branches, p, c, q, d)
    ensures q == p + w
    decreases SizeAll(branches), 1
  {
    if Derives(s, branches[0], p, c, q, d) {
      WidthExact(s, branches[0], w, p, c, q, d);
    } else {
      WidthExactSome(s, branches[1..], w, p, c, q, d);
    }
  }

  // ----- progress -----

  lemma {:induction false} ConsumingMoves(s: Subject, n: Node, p: nat, c: Captures, q: nat, d: Captures)
    requires p <= |s.text| && CapturesOk(c, |s.text|)
    requires Consuming(n) && Derives(s, n, p, c, q, d)
    ensures q > p
    decreases Size(n), 0
  {
    match n
    case Sequence(items) => ConsumingMovesAll(s, items, p, c, q, d);
    case Alternation(branches) => ConsumingMovesSome(s, branches, p, c, q, d);
    case Repeat(child, min, max, _) =>
      var k := Rounds(s, n, p, c, q, d);
      assert k >= 1;
      ConsumingMovesIterates(s, child, k, p, c, q, d);
    case Group(child, _, _) =>
      var e :| Derives(s, child, p, c, q, e) && d == SetCapture(n, p, q, e);
      ConsumingMoves(s, child, p, c, q, e);
    case _ =>
  }

  lemma {:induction false} ConsumingMovesIterates(s: Subject, child: Node, k: nat, p: nat, c: Captures, q: nat,
        d: Captures)
    requires p <= |s.text| && CapturesOk(c, |s.text|)
    requires Consuming(child) && Iterates(s, child, k, p, c, q, d) && k >= 1
    ensures q > p
    decreases Size(child), k
  {
    var m, e :| Derives(s, child, p, c, m, e) && Iterates(s, child, k - 1, m, e, q, d);
    ConsumingMoves(s, child, p, c, m, e);
  }

  lemma {:induction false} ConsumingMovesAll(s: Subject, items: seq<Node>, p: nat, c: Captures, q: nat, d: Captures)
    requires p <= |s.text| && CapturesOk(c, |s.text|)
    requires (exists i | 0 <= i < |items| :: Consuming(items[i])) && DerivesAll(s, items, p, c, q, d)
    ensures q > p
    decreases SizeAll(items), 1
  {
    var m, e :| Derives(s, items[0], p, c, m, e) && DerivesAll(s, items[1..], m, e, q, d);
    if Consuming(items[0]) {
      ConsumingMoves(s, items[0], p, c, m, e);
    } else {
      var i :| 0 <= i < |items| && Consuming(items[i]);
      assert items[1..][i - 1] == items[i];
      ConsumingMovesAll(s, items[1..], m, e, q, d);
    }
  }

  lemma {:induction false} ConsumingMovesSome(s: Subject, branches: seq<Node>, p: nat, c: Captures, q: nat, d: Captures)
    requires p <= |s.text| && CapturesOk(c, |s.text|)
    requires (forall i | 0 <= i < |branches| :: Consuming(branches[i])) && DerivesSome(s, branches, p, c, q, d)
    ensures q > p
    decreases SizeAll(branches), 1
  {
    if Derives(s, branches[0], p, c, q, d) {
      ConsumingMoves(s, branches[0], p, c, q, d);
    } else {
      ConsumingMovesSome(s, branches[1..], p, c, q, d);
    }
  }

  // ----- words -----

  /** The characters `xs` stand at `p` in the text. */
  predicate Occurs(text: seq<nat>, p: nat, xs: seq<nat>) {
    p + |xs| <= |text| && text[p..p + |xs|] == xs
  }

  lemma {:induction false} LettersOccur(s: Subject, items: seq<Node>, p: nat, c: Captures, q: nat, d: Captures)
    requires p <= |s.text| && CapturesOk(c, |s.text|)
    requires (forall i | 0 <= i < |items| :: items[i].Literal?) && DerivesAll(s, items, p, c, q, d)
    ensures Occurs(s.text, p, Letters(items)) && q == p + |items| && d == c
    decreases |items|
  {
    var xs := Letters(items);
    if items == [] {
      assert s.text[p..p + |xs|] == xs;
    } else {
      var m, e :| Derives(s, items[0], p, c, m, e) && DerivesAll(s, items[1..], m, e, q, d);
      LettersOccur(s, items[1..], m, e, q, d);
      assert s.text[p..p + |xs|] == [xs[0]] + s.text[p + 1..p + |xs|];
    }
  }

  lemma {:induction false} LettersDerive(s: Subject, items: seq<Node>, p: nat, c: Captures)
    requires forall i | 0 <= i < |items| :: items[i].Literal?
    requires CapturesOk(c, |s.text|) && Occurs(s.text, p, Letters(items))
    ensures DerivesAll(s, items, p, c, p + |items|, c)
    decreases |items|
  {
    var xs := Letters(items);
    if items == [] {
    } else {
      assert s.text[p] == s.text[p..p + |xs|][0] == xs[0];
      assert s.text[p + 1..p + |xs|] == s.text[p..p + |xs|][1..] == xs[1..];
      LettersDerive(s, items[1..], p + 1, c);
      assert Derives(s, items[0], p, c, p + 1, c);
    }
  }

  /** A word matches exactly where its letters stand. */
  lemma {:induction false} SpellingDerives(s: Subject, n: Node, p: nat, c: Captures, q: nat, d: Captures)
    requires p <= |s.text| && CapturesOk(c, |s.text|) && Spells(n)
    ensures Derives(s, n, p, c, q, d) <==> Occurs(s.text, p, Spelling(n)) && q == p + |Spelling(n)| && d == c
  {
    match n
    case Empty => assert s.text[p..p] == [];
    case Literal(x) => assert p < |s.text| ==> s.text[p..p + 1] == [s.text[p]];
    case Sequence(items) =>
      if Derives(s, n, p, c, q, d) {
        LettersOccur(s, items, p, c, q, d);
      } else if Occurs(s.text, p, Spelling(n)) {
        LettersDerive(s, items, p, c);
      }
  }

  /** The branch that is taken. */
  lemma {:induction false} Branch(s: Subject, branches: seq<Node>, p: nat, c: Captures, q: nat,
        d: Captures) returns (i: nat)
    requires p <= |s.text| && CapturesOk(c, |s.text|) && DerivesSome(s, branches, p, c, q, d)
    ensures i < |branches| && Derives(s, branches[i], p, c, q, d)
    decreases |branches|
  {
    if Derives(s, branches[0], p, c, q, d) {
      i := 0;
    } else {
      i := Branch(s, branches[1..], p, c, q, d);
      i := i + 1;
    }
  }

  lemma {:induction false} BranchTaken(s: Subject, branches: seq<Node>, i: nat, p: nat, c: Captures, q: nat,
        d: Captures)
    requires p <= |s.text| && CapturesOk(c, |s.text|) && i < |branches| && Derives(s, branches[i], p, c, q, d)
    ensures DerivesSome(s, branches, p, c, q, d)
    decreases |branches|
  {
    if i == 0 {
    } else {
      BranchTaken(s, branches[1..], i - 1, p, c, q, d);
    }
  }

  /** Of words of which none begins another, only one can stand at a position. */
  lemma {:induction false} PrefixFreeUnique(
      s: Subject, branches: seq<Node>, p: nat, c: Captures, q: nat, d: Captures, q': nat, d': Captures)
    requires p <= |s.text| && CapturesOk(c, |s.text|) && PrefixFree(branches)
    requires DerivesSome(s, branches, p, c, q, d) && DerivesSome(s, branches, p, c, q', d')
    ensures q == q' && d == d'
  {
    var i := Branch(s, branches, p, c, q, d);
    var j := Branch(s, branches, p, c, q', d');
    SpellingDerives(s, branches[i], p, c, q, d);
    SpellingDerives(s, branches[j], p, c, q', d');
    var a, b := Spelling(branches[i]), Spelling(branches[j]);
    assert forall k | 0 <= k < |a| && k < |b| :: a[k] == s.text[p..q][k] == s.text[p + k] == s.text[p..q'][k] == b[k];
    assert a <= b || b <= a;
  }

  lemma {:induction false} SpellsDet(n: Node)
    requires Spells(n)
    ensures Det(n) && CaptureFree(n)
  {
    if n.Sequence? {
      LettersDet(n.items);
    }
  }

  lemma {:induction false} LettersDet(items: seq<Node>)
    requires forall i | 0 <= i < |items| :: items[i].Literal?
    ensures DetAll(items)
  {
    if items == [] {
    } else {
      LettersDet(items[1..]);
    }
  }

  lemma {:induction false} WordsLinear(branches: seq<Node>)
    requires forall i | 0 <= i < |branches| :: Spells(branches[i])
    ensures LinearSome(branches) && CaptureFree(Alternation(branches))
  {
    if branches == [] {
    } else {
      SpellsDet(branches[0]);
      DetIsLinear(branches[0]);
      WordsLinear(branches[1..]);
      assert forall i | 0 <= i < |branches| - 1 :: branches[1..][i] == branches[i + 1];
    }
  }

  // ----- at most one match -----

  lemma {:induction false} DetUnique(s: Subject, n: Node, p: nat, c: Captures, q: nat, d: Captures, q': nat,
        d': Captures)
    requires p <= |s.text| && CapturesOk(c, |s.text|) && Det(n)
    requires Derives(s, n, p, c, q, d) && Derives(s, n, p, c, q', d')
    ensures q == q' && d == d'
    decreases Size(n), 0
  {
    match n
    case Sequence(items) => DetUniqueAll(s, items, p, c, q, d, q', d');
    case Alternation(branches) =>
      if PrefixFree(branches) {
        PrefixFreeUnique(s, branches, p, c, q, d, q', d');
      } else {
        var w: nat :| HasWidth(n, w);
        WidthExact(s, n, w, p, c, q, d);
        WidthExact(s, n, w, p, c, q', d');
        CaptureFreeKeeps(s, n, p, c, q, d);
        CaptureFreeKeeps(s, n, p, c, q', d');
      }
    case Repeat(child, min, max, _) =>
      DetUniqueIterates(s, child, min, p, c, q, d, q', d');
    case Group(child, _, _) =>
      var e :| Derives(s, child, p, c, q, e) && d == SetCapture(n, p, q, e);
      var e' :| Derives(s, child, p, c, q', e') && d' == SetCapture(n, p, q', e');
      DetUnique(s, child, p, c, q, e, q', e');
    case Look(_, _, _) =>
      CaptureFreeKeeps(s, n, p, c, q, d);
      CaptureFreeKeeps(s, n, p, c, q', d');
    case _ =>
  }

  lemma {:induction false} DetUniqueAll(s: Subject, items: seq<Node>, p: nat, c: Captures, q: nat, d: Captures, q': nat,
        d': Captures)
    requires p <= |s.text| && CapturesOk(c, |s.text|) && DetAll(items)
    requires DerivesAll(s, items, p, c, q, d) && DerivesAll(s, items, p, c, q', d')
    ensures q == q' && d == d'
    decreases SizeAll(items), 1
  {
    if items == [] {
    } else {
      var m, e :| Derives(s, items[0], p, c, m, e) && DerivesAll(s, items[1..], m, e, q, d);
      var m', e' :| Derives(s, items[0], p, c, m', e') && DerivesAll(s, items[1..], m', e', q', d');
      DetUnique(s, items[0], p, c, m, e, m', e');
      DetUniqueAll(s, items[1..], m, e, q, d, q', d');
    }
  }

  lemma {:induction false} DetUniqueIterates(s: Subject, child: Node, k: nat, p: nat, c: Captures, q: nat, d: Captures,
        q': nat, d': Captures)
    requires p <= |s.text| && CapturesOk(c, |s.text|) && Det(child)
    requires Iterates(s, child, k, p, c, q, d) && Iterates(s, child, k, p, c, q', d')
    ensures q == q' && d == d'
    decreases Size(child), k
  {
    if k == 0 {
    } else {
      var m, e :| Derives(s, child, p, c, m, e) && Iterates(s, child, k - 1, m, e, q, d);
      var m', e' :| Derives(s, child, p, c, m', e') && Iterates(s, child, k - 1, m', e', q', d');
      DetUnique(s, child, p, c, m, e, m', e');
      DetUniqueIterates(s, child, k - 1, m, e, q, d, q', d');
    }
  }

  lemma {:induction false} Rounds(s: Subject, n: Node, p: nat, c: Captures, q: nat, d: Captures) returns (k: nat)
    requires p <= |s.text| && CapturesOk(c, |s.text|) && n.Repeat? && Derives(s, n, p, c, q, d)
    ensures n.min <= k && (n.max.Some? ==> k <= n.max.value) && Iterates(s, n.child, k, p, c, q, d)
  {
    k :| n.min <= k && (n.max.Some? ==> k <= n.max.value) && Iterates(s, n.child, k, p, c, q, d);
  }

  lemma {:induction false} RepeatCounted(n: Node)
    requires n.Repeat? && (Linear(n) || Det(n))
    ensures Counted(n)
  {
  }

  // ----- the parts of a linear tree -----

  lemma {:induction false} DetIsLinear(n: Node)
    requires Det(n)
    ensures Linear(n)
  {
  }

  lemma {:induction false} LinearParts(n: Node)
    requires Linear(n)
    ensures n.Sequence? ==> LinearAll(n.items) || DetAll(n.items)
    ensures n.Alternation? ==> LinearSome(n.branches)
    ensures n.Repeat? ==> Linear(n.child)
    ensures n.Group? ==> Linear(n.child)
    ensures n.Look? ==> Linear(n.child) && (n.behind ==> Det(n.child))
  {
  }

  /** The first of some items is linear and so are the others. */
  lemma {:induction false} ItemsParts(items: seq<Node>)
    requires items != [] && (LinearAll(items) || DetAll(items))
    ensures Linear(items[0]) && (LinearAll(items[1..]) || DetAll(items[1..]))
    ensures Det(items[0]) || Counted(items[0]) || items[1..] == []
  {
  }

  // ----- linear trees can be trusted -----

  lemma {:induction false} TrustedFromParts(n: Node)
    requires n.Sequence? ==> forall i | 0 <= i < |n.items| :: Trusted(n.items[i])
    requires n.Alternation? ==> forall i | 0 <= i < |n.branches| :: Trusted(n.branches[i])
    requires n.Repeat? || n.Group? || n.Look? ==> Trusted(n.child)
    requires n.Look? ==> if n.behind then Det(n.child) else Linear(n.child)
    ensures Trusted(n)
  {
  }

  lemma {:induction false} LinearTrusted(n: Node)
    requires Linear(n)
    ensures Trusted(n)
    decreases Size(n), 0
  {
    LinearParts(n);
    if n.Sequence? {
      LinearTrustedAll(n.items);
    } else if n.Alternation? {
      LinearTrustedSome(n.branches);
    } else if n.Repeat? || n.Group? || n.Look? {
      LinearTrusted(n.child);
    }
    TrustedFromParts(n);
  }

  lemma {:induction false} LinearTrustedAll(items: seq<Node>)
    requires LinearAll(items) || DetAll(items)
    ensures forall i | 0 <= i < |items| :: Trusted(items[i])
    decreases SizeAll(items), 1
  {
    if items == [] {
    } else {
      ItemsParts(items);
      LinearTrusted(items[0]);
      LinearTrustedAll(items[1..]);
    }
  }

  lemma {:induction false} LinearTrustedSome(branches: seq<Node>)
    requires LinearSome(branches)
    ensures forall i | 0 <= i < |branches| :: Trusted(branches[i])
    decreases SizeAll(branches), 1
  {
    if branches == [] {
    } else {
      LinearTrusted(branches[0]);
      LinearTrustedSome(branches[1..]);
    }
  }
}
