/** What a pattern tree means, apart from any search: the relation of all the ways it can match. */
module RegexRelation {
  import opened Wrappers
  import opened RegexMatch

  /** From `p` with captures `c`, the tree `n` can match up to `q` leaving captures `d`. */
  ghost predicate Derives(s: Subject, n: Node, p: nat, c: Captures, q: nat, d: Captures)
    requires p <= |s.text| && CapturesOk(c, |s.text|)
    ensures Derives(s, n, p, c, q, d) ==> ResultOk(s, p, c, Match(q, d))
    decreases Size(n), 0
  {
    match n
    case Sequence(items) => DerivesAll(s, items, p, c, q, d)
    case Alternation(branches) => DerivesSome(s, branches, p, c, q, d)
    case Repeat(child, min, max, _) =>
      exists k: nat :: min <= k && (max.Some? ==> k <= max.value) && Iterates(s, child, k, p, c, q, d)
    case Group(child, _, _) =>
      exists e :: Derives(s, child, p, c, q, e) && d == SetCapture(n, p, q, e)
    case Look(child, positive, behind) =>
      q == p &&
      if positive then exists a, b :: Sees(s, child, behind, p, c, a, b, d)
      else d == c && !exists a, b, e :: Sees(s, child, behind, p, c, a, b, e)
    case _ => Single(s, n, p, c) == Some(q) && d == c
  }

  /** The child of a look-around matches from `a` to `b`: from `p` on, or up to `p`. */
  ghost predicate Sees(s: Subject, child: Node, behind: bool, p: nat, c: Captures, a: nat, b: nat, d: Captures)
    requires p <= |s.text| && CapturesOk(c, |s.text|)
    ensures Sees(s, child, behind, p, c, a, b, d) ==> ResultOk(s, a, c, Match(b, d))
    decreases Size(child), 1
  {
    (if behind then a <= p && b == p else a == p) && Derives(s, child, a, c, b, d)
  }

  ghost predicate DerivesAll(s: Subject, items: seq<Node>, p: nat, c: Captures, q: nat, d: Captures)
    requires p <= |s.text| && CapturesOk(c, |s.text|)
    ensures DerivesAll(s, items, p, c, q, d) ==> ResultOk(s, p, c, Match(q, d))
    decreases SizeAll(items), 1
  {
    if items == [] then q == p && d == c
    else exists m, e :: Derives(s, items[0], p, c, m, e) && DerivesAll(s, items[1..], m, e, q, d)
  }

  ghost predicate DerivesSome(s: Subject, branches: seq<Node>, p: nat, c: Captures, q: nat, d: Captures)
    requires p <= |s.text| && CapturesOk(c, |s.text|)
    ensures DerivesSome(s, branches, p, c, q, d) ==> ResultOk(s, p, c, Match(q, d))
    decreases SizeAll(branches), 1
  {
    branches != [] && (Derives(s, branches[0], p, c, q, d) || DerivesSome(s, branches[1..], p, c, q, d))
  }

  /** `k` matches of `child`, one after the other. */
  ghost predicate Iterates(s: Subject, child: Node, k: nat, p: nat, c: Captures, q: nat, d: Captures)
    requires p <= |s.text| && CapturesOk(c, |s.text|)
    ensures Iterates(s, child, k, p, c, q, d) ==> ResultOk(s, p, c, Match(q, d))
    decreases Size(child), k
  {
    if k == 0 then q == p && d == c
    else exists m, e :: Derives(s, child, p, c, m, e) && Iterates(s, child, k - 1, m, e, q, d)
  }

  // ----- kinds of trees -----

  /** No match of the tree sets a capture. */
  predicate CaptureFree(n: Node)
    decreases n
  {
    match n
    case Sequence(items) => forall i | 0 <= i < |items| :: CaptureFree(items[i])
    case Alternation(branches) => forall i | 0 <= i < |branches| :: CaptureFree(branches[i])
    case Repeat(child, _, _, _) => CaptureFree(child)
    case Group(child, capturing, _) => !capturing && CaptureFree(child)
    case Look(child, positive, _) => !positive || CaptureFree(child)
    case _ => true
  }

  /** Every match of the tree moves forward. */
  predicate Consuming(n: Node)
    decreases n
  {
    match n
    case Literal(_) => true
    case Dot => true
    case Class(_) => true
    case Sequence(items) => exists i | 0 <= i < |items| :: Consuming(items[i])
    case Alternation(branches) => forall i | 0 <= i < |branches| :: Consuming(branches[i])
    case Repeat(child, min, _, _) => min >= 1 && Consuming(child)
    case Group(child, _, _) => Consuming(child)
    case _ => false
  }

  /** Every match of the tree takes `w` characters. */
  predicate HasWidth(n: Node, w: nat)
    decreases n
  {
    match n
    case Empty => w == 0
    case Literal(_) => w == 1
    case Dot => w == 1
    case Class(_) => w == 1
    case Alternation(branches) => forall i | 0 <= i < |branches| :: HasWidth(branches[i], w)
    case Sequence(items) => HasWidths(items, w)
    case Group(child, _, _) => HasWidth(child, w)
    case Repeat(_, _, _, _) => false
    case Backref(_) => false
    case _ => w == 0
  }

  predicate HasWidths(items: seq<Node>, w: nat)
    decreases items
  {
    if items == [] then w == 0
    else exists v | 0 <= v <= w :: HasWidth(items[0], v) && HasWidths(items[1..], w - v)
  }

  /** A sequence of literals, or one alone. */
  predicate Spells(n: Node) {
    match n
    case Empty => true
    case Literal(_) => true
    case Sequence(items) => forall i | 0 <= i < |items| :: items[i].Literal?
    case _ => false
  }

  function Spelling(n: Node): seq<nat>
    requires Spells(n)
  {
    match n
    case Empty => []
    case Literal(x) => [x]
    case Sequence(items) => Letters(items)
  }

  function Letters(items: seq<Node>): (r: seq<nat>)
    requires forall i | 0 <= i < |items| :: items[i].Literal?
    ensures |r| == |items| && forall i | 0 <= i < |items| :: r[i] == items[i].codepoint
  {
    if |items| == 0 then [] else [items[0].codepoint] + Letters(items[1..])
  }

  function Literals(xs: seq<nat>): (r: seq<Node>)
    ensures |r| == |xs| && forall i | 0 <= i < |xs| :: r[i] == Literal(xs[i])
  {
    if xs == [] then [] else [Literal(xs[0])] + Literals(xs[1..])
  }

  /** The branches are words, and none of them is the beginning of another. */
  predicate PrefixFree(branches: seq<Node>) {
    && (forall i | 0 <= i < |branches| :: Spells(branches[i]))
    && forall i, j | 0 <= i < |branches| && 0 <= j < |branches| && Spelling(branches[i]) <= Spelling(branches[j]) ::
         Spelling(branches[i]) == Spelling(branches[j])
  }

  /** At most one match from each position: no choice is left to the search. */
  ghost predicate Det(n: Node)
    decreases Size(n), 0
  {
    match n
    case Sequence(items) => DetAll(items)
    case Alternation(branches) =>
      && LinearSome(branches) && CaptureFree(n)
      && (PrefixFree(branches) || exists w: nat :: HasWidth(n, w))
    case Repeat(child, min, max, _) => max == Some(min) && Det(child) && Consuming(child)
    case Group(child, _, _) => Det(child)
    case Look(child, positive, behind) =>
      (if behind then Det(child) else Linear(child)) && CaptureFree(n)
    case _ => true
  }

  ghost predicate DetAll(items: seq<Node>)
    decreases SizeAll(items), 1
  {
    items == [] || (Det(items[0]) && DetAll(items[1..]))
  }

  /** Every choice is between numbers of rounds of a repeat and can be taken back by the rest of the
      sequence it stands in. */
  ghost predicate Linear(n: Node)
    decreases Size(n), 2
  {
    || Det(n)
    || match n
       case Sequence(items) => LinearAll(items)
       case Alternation(branches) => LinearSome(branches)
       case Repeat(_, _, _, _) => Counted(n)
       case Group(child, _, _) => Linear(child)
       case Look(child, positive, behind) => if behind then Det(child) else Linear(child)
       case _ => true
  }

  /** A repeat of a tree that leaves no choice and always moves forward. */
  ghost predicate Counted(n: Node)
    decreases Size(n), 0
  {
    n.Repeat? && Det(n.child) && Consuming(n.child)
  }

  ghost predicate LinearAll(items: seq<Node>)
    decreases SizeAll(items), 3
  {
    || items == []
    || (|items| == 1 && Linear(items[0]))
    || ((Det(items[0]) || Counted(items[0])) && LinearAll(items[1..]))
  }

  ghost predicate LinearSome(branches: seq<Node>)
    decreases SizeAll(branches), 3
  {
    branches == [] || (Linear(branches[0]) && LinearSome(branches[1..]))
  }

  /** Negative look-arounds are about trees whose matches the search cannot miss. */
  ghost predicate Trusted(n: Node)
    decreases n
  {
    match n
    case Sequence(items) => forall i | 0 <= i < |items| :: Trusted(items[i])
    case Alternation(branches) => forall i | 0 <= i < |branches| :: Trusted(branches[i])
    case Repeat(child, _, _, _) => Trusted(child)
    case Group(child, _, _) => Trusted(child)
    case Look(child, positive, behind) => Trusted(child) && (positive || if behind then Det(child) else Linear(child))
    case _ => true
  }
}
