/** The search finds matches, and when all. */
module RegexSearch {
  import opened RegexMatch
  import opened RegexRelation
  import opened RegexFacts

  // ----- what the search finds is a match -----

  lemma {:induction false} Sound(s: Subject, n: Node, p: nat, c: Captures)
    requires p <= |s.text| && CapturesOk(c, |s.text|)
    requires Trusted(n) && MatchNode(s, n, p, c).Match?
    ensures var r := MatchNode(s, n, p, c); Derives(s, n, p, c, r.pos, r.caps)
    decreases Size(n), |s.text| - p, 2
  {
    var r := MatchNode(s, n, p, c);
    match n
    case Sequence(items) => SoundItems(s, items, p, c);
    case Alternation(branches) => SoundBranches(s, branches, p, c);
    case Repeat(_, _, _, _) =>
      var k, m, e := SoundRepeat(s, n, [], p, c, 0);
    case Group(child, _, _) => Sound(s, child, p, c);
    case Look(child, positive, behind) =>
      if positive && behind {
        var a := SoundBehind(s, child, 0, p, c);
        assert Sees(s, child, behind, p, c, a, p, r.caps);
      } else if positive {
        Sound(s, child, p, c);
        assert Sees(s, child, behind, p, c, p, MatchNode(s, child, p, c).pos, r.caps);
      } else {
        forall a, b, e ensures !Sees(s, child, behind, p, c, a, b, e) {
          if Sees(s, child, behind, p, c, a, b, e) {
            SeenFails(s, child, behind, p, c, a, b, e);
          }
        }
      }
    case _ =>
  }

  lemma {:induction false} SoundItems(s: Subject, items: seq<Node>, p: nat, c: Captures)
    requires p <= |s.text| && CapturesOk(c, |s.text|)
    requires (forall i | 0 <= i < |items| :: Trusted(items[i])) && MatchItems(s, items, p, c).Match?
    ensures var r := MatchItems(s, items, p, c); DerivesAll(s, items, p, c, r.pos, r.caps)
    decreases SizeAll(items), |s.text| - p, 3
  {
    if items == [] {
    } else if items[0].Repeat? {
      var k, m, e := SoundRepeat(s, items[0], items[1..], p, c, 0);
      assert Derives(s, items[0], p, c, m, e);
    } else {
      var r := MatchNode(s, items[0], p, c);
      Sound(s, items[0], p, c);
      SoundItems(s, items[1..], r.pos, r.caps);
    }
  }

  /** The rounds a repeat still took, and where the items after it started. */
  lemma {:induction false} SoundRepeat(s: Subject, rep: Node, rest: seq<Node>, p: nat, c: Captures, count: nat)
    returns (k: nat, m: nat, e: Captures)
    requires rep.Repeat? && p <= |s.text| && CapturesOk(c, |s.text|)
    requires Trusted(rep) && forall i | 0 <= i < |rest| :: Trusted(rest[i])
    requires rep.max.Some? ==> count <= rep.max.value
    requires MatchRepeat(s, rep, rest, p, c, count).Match?
    ensures rep.min <= count + k && (rep.max.Some? ==> count + k <= rep.max.value)
    ensures Iterates(s, rep.child, k, p, c, m, e)
    ensures var r := MatchRepeat(s, rep, rest, p, c, count); DerivesAll(s, rest, m, e, r.pos, r.caps)
    decreases Size(rep) + SizeAll(rest), |s.text| - p, 1
  {
    var r := MatchRepeat(s, rep, rest, p, c, count);
    if count >= rep.min && r == MatchItems(s, rest, p, c) {
      SoundItems(s, rest, p, c);
      k, m, e := 0, p, c;
    } else {
      var one := MatchNode(s, rep.child, p, c);
      Sound(s, rep.child, p, c);
      if one.pos != p {
        k, m, e := SoundRepeat(s, rep, rest, one.pos, one.caps, count + 1);
        k := k + 1;
      } else {
        SoundItems(s, rest, p, one.caps);
        k, m, e := 1, p, one.caps;
        assert Iterates(s, rep.child, 0, p, e, p, e);
      }
    }
  }

  lemma {:induction false} SoundBranches(s: Subject, branches: seq<Node>, p: nat, c: Captures)
    requires p <= |s.text| && CapturesOk(c, |s.text|)
    requires (forall i | 0 <= i < |branches| :: Trusted(branches[i])) && MatchBranches(s, branches, p, c).Match?
    ensures var r := MatchBranches(s, branches, p, c); DerivesSome(s, branches, p, c, r.pos, r.caps)
    decreases SizeAll(branches), |s.text| - p, 3
  {
    if MatchNode(s, branches[0], p, c).Match? {
      Sound(s, branches[0], p, c);
    } else {
      SoundBranches(s, branches[1..], p, c);
    }
  }

  lemma {:induction false} SoundBehind(s: Subject, child: Node, start: nat, p: nat, c: Captures) returns (a: nat)
    requires start <= p + 1 && p <= |s.text| && CapturesOk(c, |s.text|)
    requires Trusted(child) && MatchBehind(s, child, start, p, c).Match?
    ensures start <= a <= p && Derives(s, child, a, c, p, MatchBehind(s, child, start, p, c).caps)
    decreases 1 + Size(child), p + 1 - start, 0
  {
    var r := MatchNode(s, child, start, c);
    if r.Match? && r.pos == p {
      Sound(s, child, start, c);
      a := start;
    } else {
      a := SoundBehind(s, child, start + 1, p, c);
    }
  }

  /** A negative look-around is not passed where its child has a match. */
  lemma {:induction false} SeenFails(s: Subject, child: Node, behind: bool, p: nat, c: Captures, a: nat, b: nat,
        e: Captures)
    requires p <= |s.text| && CapturesOk(c, |s.text|)
    requires Sees(s, child, behind, p, c, a, b, e) && Trusted(child)
    requires if behind then Det(child) else Linear(child)
    ensures MatchNode(s, Look(child, false, behind), p, c) == Fail
    decreases Size(child), |s.text| + 2, 0
  {
    if behind {
      BehindComplete(s, child, 0, p, c, a, e);
    } else {
      Complete(s, child, p, c, b, e);
    }
  }

  // ----- a linear tree that can match is found -----

  lemma {:induction false} Complete(s: Subject, n: Node, p: nat, c: Captures, q: nat, d: Captures)
    requires p <= |s.text| && CapturesOk(c, |s.text|)
    requires Linear(n) && Derives(s, n, p, c, q, d)
    ensures MatchNode(s, n, p, c).Match?
    decreases Size(n), |s.text| - p, 2
  {
    LinearParts(n);
    match n
    case Sequence(items) => CompleteItems(s, items, p, c, q, d);
    case Alternation(branches) => CompleteBranches(s, branches, p, c, q, d);
    case Repeat(child, min, max, _) =>
      var k := Rounds(s, n, p, c, q, d);
      RepeatCounted(n);
      CompleteRepeat(s, n, [], p, c, 0, k, q, d, q, d);
    case Group(child, _, _) =>
      var e :| Derives(s, child, p, c, q, e) && d == SetCapture(n, p, q, e);
      Complete(s, child, p, c, q, e);
    case Look(child, positive, behind) =>
      CompleteLook(s, child, positive, behind, p, c, d);
    case _ =>
  }

  /** A tree without choices matches in one way, and the search takes it. */
  lemma {:induction false} DetComplete(s: Subject, n: Node, p: nat, c: Captures, q: nat, d: Captures)
    requires p <= |s.text| && CapturesOk(c, |s.text|)
    requires Det(n) && Derives(s, n, p, c, q, d)
    ensures MatchNode(s, n, p, c) == Match(q, d)
    decreases Size(n), |s.text| - p, 3
  {
    DetIsLinear(n);
    Complete(s, n, p, c, q, d);
    LinearTrusted(n);
    Sound(s, n, p, c);
    var r := MatchNode(s, n, p, c);
    DetUnique(s, n, p, c, q, d, r.pos, r.caps);
  }

  lemma {:induction false} CompleteLook(s: Subject, child: Node, positive: bool, behind: bool, p: nat, c: Captures,
        d: Captures)
    requires p <= |s.text| && CapturesOk(c, |s.text|)
    requires if behind then Det(child) else Linear(child)
    requires Derives(s, Look(child, positive, behind), p, c, p, d)
    ensures MatchNode(s, Look(child, positive, behind), p, c).Match?
    decreases 1 + Size(child), |s.text| + 2, 0
  {
    if positive {
      var a, b :| Sees(s, child, behind, p, c, a, b, d);
      if behind {
        BehindComplete(s, child, 0, p, c, a, d);
      } else {
        Complete(s, child, p, c, b, d);
      }
    } else {
      LinearTrusted(child);
      if behind && MatchBehind(s, child, 0, p, c).Match? {
        var a := SoundBehind(s, child, 0, p, c);
        assert Sees(s, child, behind, p, c, a, p, MatchBehind(s, child, 0, p, c).caps);
      } else if !behind && MatchNode(s, child, p, c).Match? {
        Sound(s, child, p, c);
        var r := MatchNode(s, child, p, c);
        assert Sees(s, child, behind, p, c, p, r.pos, r.caps);
      }
    }
  }

  lemma {:induction false} BehindComplete(s: Subject, child: Node, start: nat, p: nat, c: Captures, a: nat, d: Captures)
    requires start <= a <= p <= |s.text| && CapturesOk(c, |s.text|)
    requires Det(child) && Derives(s, child, a, c, p, d)
    ensures MatchBehind(s, child, start, p, c).Match?
    decreases Size(child), |s.text| + 1, a - start
  {
    if start == a {
      DetComplete(s, child, a, c, p, d);
    } else {
      BehindComplete(s, child, start + 1, p, c, a, d);
    }
  }

  lemma {:induction false} OnlyItem(s: Subject, items: seq<Node>, p: nat, c: Captures)
    requires p <= |s.text| && CapturesOk(c, |s.text|) && items != [] && items[1..] == [] && !items[0].Repeat?
    ensures MatchItems(s, items, p, c) == MatchNode(s, items[0], p, c)
  {
  }

  lemma {:induction false} CompleteItems(s: Subject, items: seq<Node>, p: nat, c: Captures, q: nat, d: Captures)
    requires p <= |s.text| && CapturesOk(c, |s.text|)
    requires (LinearAll(items) || DetAll(items)) && DerivesAll(s, items, p, c, q, d)
    ensures MatchItems(s, items, p, c).Match?
    decreases SizeAll(items), |s.text| - p, 5
  {
    if items == [] {
    } else {
      var m, e :| Derives(s, items[0], p, c, m, e) && DerivesAll(s, items[1..], m, e, q, d);
      ItemsParts(items);
      if items[0].Repeat? {
        var k := Rounds(s, items[0], p, c, m, e);
        RepeatCounted(items[0]);
        CompleteRepeat(s, items[0], items[1..], p, c, 0, k, m, e, q, d);
      } else if Det(items[0]) {
        DetComplete(s, items[0], p, c, m, e);
        CompleteItems(s, items[1..], m, e, q, d);
      } else {
        Complete(s, items[0], p, c, m, e);
        OnlyItem(s, items, p, c);
      }
    }
  }

  lemma {:induction false} CompleteRepeat(s: Subject, rep: Node, rest: seq<Node>, p: nat, c: Captures, count: nat,
                                          k: nat, m: nat, e: Captures, q: nat, d: Captures)
    requires rep.Repeat? && p <= |s.text| && CapturesOk(c, |s.text|)
    requires Counted(rep) && (LinearAll(rest) || DetAll(rest))
    requires rep.min <= count + k && (rep.max.Some? ==> count + k <= rep.max.value)
    requires Iterates(s, rep.child, k, p, c, m, e) && DerivesAll(s, rest, m, e, q, d)
    ensures MatchRepeat(s, rep, rest, p, c, count).Match?
    decreases Size(rep) + SizeAll(rest), |s.text| - p, 1
  {
    if k == 0 {
      CompleteItems(s, rest, p, c, q, d);
    } else {
      var m1, e1 :| Derives(s, rep.child, p, c, m1, e1) && Iterates(s, rep.child, k - 1, m1, e1, m, e);
      DetComplete(s, rep.child, p, c, m1, e1);
      ConsumingMoves(s, rep.child, p, c, m1, e1);
      CompleteRepeat(s, rep, rest, m1, e1, count + 1, k - 1, m, e, q, d);
    }
  }

  lemma {:induction false} CompleteBranches(s: Subject, branches: seq<Node>, p: nat, c: Captures, q: nat, d: Captures)
    requires p <= |s.text| && CapturesOk(c, |s.text|)
    requires LinearSome(branches) && DerivesSome(s, branches, p, c, q, d)
    ensures MatchBranches(s, branches, p, c).Match?
    decreases SizeAll(branches), |s.text| - p, 5
  {
    if Derives(s, branches[0], p, c, q, d) {
      Complete(s, branches[0], p, c, q, d);
    } else {
      CompleteBranches(s, branches[1..], p, c, q, d);
    }
  }

  // ----- main results -----

  /** The node can match from here in some way. */
  ghost predicate CanMatch(s: Subject, n: Node, p: nat, c: Captures)
    requires p <= |s.text| && CapturesOk(c, |s.text|)
  {
    exists q, d :: Derives(s, n, p, c, q, d)
  }

  lemma {:induction false} SearchExact(s: Subject, n: Node, p: nat, c: Captures)
    requires p <= |s.text| && CapturesOk(c, |s.text|) && Linear(n)
    ensures MatchNode(s, n, p, c).Match? <==> CanMatch(s, n, p, c)
  {
    LinearTrusted(n);
    if MatchNode(s, n, p, c).Match? {
      Sound(s, n, p, c);
    }
    if q, d :| Derives(s, n, p, c, q, d) {
      Complete(s, n, p, c, q, d);
    }
  }

  /** Without choices the search computes the relation. */
  lemma {:induction false} SearchDetExact(s: Subject, n: Node, p: nat, c: Captures, q: nat, d: Captures)
    requires p <= |s.text| && CapturesOk(c, |s.text|) && Det(n)
    ensures MatchNode(s, n, p, c) == Match(q, d) <==> Derives(s, n, p, c, q, d)
  {
    DetIsLinear(n);
    LinearTrusted(n);
    if MatchNode(s, n, p, c) == Match(q, d) {
      Sound(s, n, p, c);
    }
    if Derives(s, n, p, c, q, d) {
      DetComplete(s, n, p, c, q, d);
    }
  }
}
