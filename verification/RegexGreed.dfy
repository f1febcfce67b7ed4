/** Greedy and lazy repeats have the same matches. */
module RegexGreed {
  import opened RegexMatch
  import opened RegexRelation
  import opened RegexSearch

  /** The tree with every repeat made greedy. */
  function Greedy(n: Node): (r: Node)
    ensures Size(r) == Size(n)
    ensures !n.Sequence? ==> !r.Sequence?
    decreases n
  {
    match n
    case Sequence(items) => Sequence(GreedyAll(items))
    case Alternation(branches) => Alternation(GreedyAll(branches))
    case Repeat(child, min, max, _) => Repeat(Greedy(child), min, max, true)
    case Group(child, capturing, index) => Group(Greedy(child), capturing, index)
    case Look(child, positive, behind) => Look(Greedy(child), positive, behind)
    case _ => n
  }

  function GreedyAll(ns: seq<Node>): (r: seq<Node>)
    ensures |r| == |ns| && SizeAll(r) == SizeAll(ns)
    ensures forall i | 0 <= i < |ns| :: r[i] == Greedy(ns[i])
    decreases ns
  {
    if ns == [] then [] else [Greedy(ns[0])] + GreedyAll(ns[1..])
  }

  lemma {:induction false} GreedySameMatches(s: Subject, n: Node, p: nat, c: Captures, q: nat, d: Captures)
    requires p <= |s.text| && CapturesOk(c, |s.text|)
    ensures Derives(s, Greedy(n), p, c, q, d) <==> Derives(s, n, p, c, q, d)
    decreases Size(n), 0
  {
    match n
    case Sequence(items) => GreedySameAll(s, items, p, c, q, d);
    case Alternation(branches) => GreedySameSome(s, branches, p, c, q, d);
    case Repeat(child, _, _, _) =>
      forall k: nat ensures Iterates(s, Greedy(child), k, p, c, q, d) <==> Iterates(s, child, k, p, c, q, d) {
        GreedySameRounds(s, child, k, p, c, q, d);
      }
    case Group(child, _, _) =>
      forall e ensures Derives(s, Greedy(child), p, c, q, e) <==> Derives(s, child, p, c, q, e) {
        GreedySameMatches(s, child, p, c, q, e);
      }
    case Look(child, _, behind) =>
      forall a: nat, b: nat, e ensures Sees(s, Greedy(child), behind, p, c, a, b, e) <==> Sees(s, child, behind, p, c,
        a, b, e) {
        if if behind then a <= p && b == p else a == p {
          GreedySameMatches(s, child, a, c, b, e);
        }
      }
    case _ =>
  }

  lemma {:induction false} GreedySameAll(s: Subject, items: seq<Node>, p: nat, c: Captures, q: nat, d: Captures)
    requires p <= |s.text| && CapturesOk(c, |s.text|)
    ensures DerivesAll(s, GreedyAll(items), p, c, q, d) <==> DerivesAll(s, items, p, c, q, d)
    decreases SizeAll(items), 1
  {
    if items == [] {
    } else {
      assert GreedyAll(items)[1..] == GreedyAll(items[1..]);
      forall m, e ensures Derives(s, Greedy(items[0]), p, c, m, e) <==> Derives(s, items[0], p, c, m, e) {
        GreedySameMatches(s, items[0], p, c, m, e);
      }
      forall m: nat, e | m <= |s.text| && CapturesOk(e, |s.text|)
        ensures DerivesAll(s, GreedyAll(items[1..]), m, e, q, d) <==> DerivesAll(s, items[1..], m, e, q, d)
      {
        GreedySameAll(s, items[1..], m, e, q, d);
      }
    }
  }

  lemma {:induction false} GreedySameSome(s: Subject, branches: seq<Node>, p: nat, c: Captures, q: nat, d: Captures)
    requires p <= |s.text| && CapturesOk(c, |s.text|)
    ensures DerivesSome(s, GreedyAll(branches), p, c, q, d) <==> DerivesSome(s, branches, p, c, q, d)
    decreases SizeAll(branches), 1
  {
    if branches == [] {
    } else {
      assert GreedyAll(branches)[1..] == GreedyAll(branches[1..]);
      GreedySameMatches(s, branches[0], p, c, q, d);
      GreedySameSome(s, branches[1..], p, c, q, d);
    }
  }

  lemma {:induction false} GreedySameRounds(s: Subject, child: Node, k: nat, p: nat, c: Captures, q: nat, d: Captures)
    requires p <= |s.text| && CapturesOk(c, |s.text|)
    ensures Iterates(s, Greedy(child), k, p, c, q, d) <==> Iterates(s, child, k, p, c, q, d)
    decreases Size(child), k
  {
    if k == 0 {
    } else {
      forall m, e ensures Derives(s, Greedy(child), p, c, m, e) <==> Derives(s, child, p, c, m, e) {
        GreedySameMatches(s, child, p, c, m, e);
      }
      var j: nat := k - 1;
      forall m: nat, e | m <= |s.text| && CapturesOk(e, |s.text|)
        ensures Iterates(s, Greedy(child), j, m, e, q, d) <==> Iterates(s, child, j, m, e, q, d)
      {
        GreedySameRounds(s, child, j, m, e, q, d);
      }
    }
  }

  // ----- the kind of a tree does not depend on it either -----

  lemma {:induction false} GreedyCaptureFree(n: Node)
    ensures CaptureFree(Greedy(n)) <==> CaptureFree(n)
    decreases n
  {
    match n
    case Sequence(items) =>
      forall i | 0 <= i < |items|
        ensures CaptureFree(GreedyAll(items)[i]) <==> CaptureFree(items[i])
      {
        GreedyCaptureFree(items[i]);
      }
    case Alternation(branches) =>
      forall i | 0 <= i < |branches|
        ensures CaptureFree(GreedyAll(branches)[i]) <==> CaptureFree(branches[i])
      {
        GreedyCaptureFree(branches[i]);
      }
    case Repeat(child, _, _, _) => GreedyCaptureFree(child);
    case Group(child, _, _) => GreedyCaptureFree(child);
    case Look(child, _, _) => GreedyCaptureFree(child);
    case _ =>
  }

  lemma {:induction false} GreedyConsuming(n: Node)
    ensures Consuming(Greedy(n)) <==> Consuming(n)
    decreases n
  {
    match n
    case Sequence(items) =>
      forall i | 0 <= i < |items|
        ensures Consuming(GreedyAll(items)[i]) <==> Consuming(items[i])
      {
        GreedyConsuming(items[i]);
      }
    case Alternation(branches) =>
      forall i | 0 <= i < |branches|
        ensures Consuming(GreedyAll(branches)[i]) <==> Consuming(branches[i])
      {
        GreedyConsuming(branches[i]);
      }
    case Repeat(child, _, _, _) => GreedyConsuming(child);
    case Group(child, _, _) => GreedyConsuming(child);
    case _ =>
  }

  lemma {:induction false} GreedyWidth(n: Node, w: nat)
    ensures HasWidth(Greedy(n), w) <==> HasWidth(n, w)
    decreases n
  {
    match n
    case Sequence(items) => GreedyWidths(items, w);
    case Alternation(branches) =>
      forall i | 0 <= i < |branches| ensures HasWidth(GreedyAll(branches)[i], w) <==> HasWidth(branches[i],
        w) { GreedyWidth(branches[i], w); }
    case Group(child, _, _) => GreedyWidth(child, w);
    case _ =>
  }

  lemma {:induction false} GreedyWidths(items: seq<Node>, w: nat)
    ensures HasWidths(GreedyAll(items), w) <==> HasWidths(items, w)
    decreases items
  {
    if items == [] {
    } else {
      assert GreedyAll(items)[1..] == GreedyAll(items[1..]);
      forall v | 0 <= v <= w ensures HasWidth(GreedyAll(items)[0], v) <==> HasWidth(items[0],
        v) { GreedyWidth(items[0], v); }
      forall u: nat ensures HasWidths(GreedyAll(items[1..]), u) <==> HasWidths(items[1..],
        u) { GreedyWidths(items[1..], u); }
    }
  }

  lemma {:induction false} GreedySpells(n: Node)
    ensures Spells(Greedy(n)) <==> Spells(n)
    ensures Spells(n) ==> Greedy(n) == n
  {
    if n.Sequence? {
      forall i | 0 <= i < |n.items| ensures GreedyAll(n.items)[i].Literal? <==> n.items[i].Literal? {
        assert GreedyAll(n.items)[i] == Greedy(n.items[i]);
      }
      assert Spells(n) ==> GreedyAll(n.items) == n.items;
    }
  }

  lemma {:induction false} GreedyPrefixFree(branches: seq<Node>)
    ensures PrefixFree(GreedyAll(branches)) <==> PrefixFree(branches)
  {
    forall i | 0 <= i < |branches|
      ensures Spells(GreedyAll(branches)[i]) <==> Spells(branches[i])
      ensures Spells(branches[i]) ==> GreedyAll(branches)[i] == branches[i]
    {
      GreedySpells(branches[i]);
    }
    if (forall i | 0 <= i < |branches| :: Spells(branches[i])) {
      assert GreedyAll(branches) == branches;
    } else {
      var i :| 0 <= i < |branches| && !Spells(branches[i]);
      assert !Spells(GreedyAll(branches)[i]);
    }
  }

  lemma {:induction false} GreedyKind(n: Node)
    ensures Det(Greedy(n)) <==> Det(n)
    ensures Linear(Greedy(n)) <==> Linear(n)
    decreases Size(n), 0
  {
    match n
    case Sequence(items) => GreedyKindAll(items);
    case Alternation(branches) =>
      GreedyKindSome(branches);
      GreedyCaptureFree(n);
      GreedyPrefixFree(branches);
      forall w: nat ensures HasWidth(Greedy(n), w) <==> HasWidth(n, w) { GreedyWidth(n, w); }
    case Repeat(child, _, _, _) =>
      GreedyKind(child);
      GreedyConsuming(child);
    case Group(child, _, _) => GreedyKind(child);
    case Look(child, _, _) =>
      GreedyKind(child);
      GreedyCaptureFree(n);
    case _ =>
  }

  lemma {:induction false} GreedyKindAll(items: seq<Node>)
    ensures DetAll(GreedyAll(items)) <==> DetAll(items)
    ensures LinearAll(GreedyAll(items)) <==> LinearAll(items)
    decreases SizeAll(items), 1
  {
    if items == [] {
    } else {
      assert GreedyAll(items)[1..] == GreedyAll(items[1..]);
      GreedyKind(items[0]);
      if items[0].Repeat? {
        GreedyKind(items[0].child);
        GreedyConsuming(items[0].child);
      }
      GreedyKindAll(items[1..]);
    }
  }

  lemma {:induction false} GreedyKindSome(branches: seq<Node>)
    ensures LinearSome(GreedyAll(branches)) <==> LinearSome(branches)
    decreases SizeAll(branches), 1
  {
    if branches == [] {
    } else {
      assert GreedyAll(branches)[1..] == GreedyAll(branches[1..]);
      GreedyKind(branches[0]);
      GreedyKindSome(branches[1..]);
    }
  }

  /** Two linear trees that differ in greed only: the search finds a match for both or for neither. */
  lemma {:induction false} GreedDoesNotMatter(s: Subject, n: Node, n': Node, p: nat, c: Captures)
    requires p <= |s.text| && CapturesOk(c, |s.text|)
    requires Linear(n) && Greedy(n) == Greedy(n')
    ensures MatchNode(s, n, p, c).Match? <==> MatchNode(s, n', p, c).Match?
  {
    GreedyKind(n);
    GreedyKind(n');
    SearchExact(s, n, p, c);
    SearchExact(s, n', p, c);
    forall q, d ensures Derives(s, n, p, c, q, d) <==> Derives(s, n', p, c, q, d) {
      GreedySameMatches(s, n, p, c, q, d);
      GreedySameMatches(s, n', p, c, q, d);
    }
  }
}
