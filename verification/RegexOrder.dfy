/** Which of several matches the search keeps: greedy and lazy repeats, branches, look-behind, captures. */
module RegexOrder {
  import opened RegexMatch
  import opened RegexRelation
  import opened RegexFacts
  import opened RegexSearch

  // ----- how often a repeat goes round -----

  /** The rest of a sequence after `k` matches of the child, one after the other, as the search finds them. */
  function AfterRounds(s: Subject, child: Node, rest: seq<Node>, k: nat, p: nat, c: Captures): Result
    requires p <= |s.text| && CapturesOk(c, |s.text|)
    decreases k
  {
    if k == 0 then MatchItems(s, rest, p, c)
    else
      match MatchNode(s, child, p, c)
      case Fail => Fail
      case Match(q, d) => AfterRounds(s, child, rest, k - 1, q, d)
  }

  /** After `count` rounds, `k` more are a number that the repeat allows and after which the rest matches. */
  predicate Works(s: Subject, rep: Node, rest: seq<Node>, count: nat, k: nat, p: nat, c: Captures)
    requires rep.Repeat? && p <= |s.text| && CapturesOk(c, |s.text|)
  {
    && rep.min <= count + k && (rep.max.Some? ==> count + k <= rep.max.value)
    && AfterRounds(s, rep.child, rest, k, p, c).Match?
  }

  /** The result is that of `k` rounds: the most that work if the repeat is greedy, and otherwise the fewest. It is a
      failure if no number works. */
  ghost predicate Keeps(s: Subject, rep: Node, rest: seq<Node>, count: nat, p: nat, c: Captures, r: Result, k: nat)
    requires rep.Repeat? && p <= |s.text| && CapturesOk(c, |s.text|)
  {
    if r.Fail? then forall j: nat :: !Works(s, rep, rest, count, j, p, c)
    else
      && Works(s, rep, rest, count, k, p, c) && r == AfterRounds(s, rep.child, rest, k, p, c)
      && forall j: nat | Works(s, rep, rest, count, j, p, c) :: if rep.greedy then j <= k else k <= j
  }

  lemma {:induction false} RoundMoves(s: Subject, child: Node, p: nat, c: Captures)
    requires p <= |s.text| && CapturesOk(c, |s.text|) && Trusted(child) && Consuming(child)
    ensures var r := MatchNode(s, child, p, c); r.Match? ==> r.pos > p
  {
    var r := MatchNode(s, child, p, c);
    if r.Match? {
      Sound(s, child, p, c);
      ConsumingMoves(s, child, p, c, r.pos, r.caps);
    }
  }

  /** No round, or one round and then the others. */
  ghost predicate Split(s: Subject, rep: Node, rest: seq<Node>, count: nat, j: nat, p: nat, c: Captures)
    requires rep.Repeat? && p <= |s.text| && CapturesOk(c, |s.text|)
  {
    Works(s, rep, rest, count, j, p, c) <==>
      if j == 0 then
        rep.min <= count && (rep.max.Some? ==> count <= rep.max.value) && MatchItems(s, rest, p, c).Match?
      else
        var m := MatchNode(s, rep.child, p, c);
        m.Match? && Works(s, rep, rest, count + 1, j - 1, m.pos, m.caps)
  }

  lemma {:induction false} EachSplits(s: Subject, rep: Node, rest: seq<Node>, count: nat, p: nat, c: Captures)
    requires rep.Repeat? && p <= |s.text| && CapturesOk(c, |s.text|)
    ensures forall j: nat {:trigger Works(s, rep, rest, count, j, p, c)} :: Split(s, rep, rest, count, j, p, c)
  {
    forall j: nat
      ensures Split(s, rep, rest, count, j, p, c)
    {
      SplitsAt(s, rep, rest, count, j, p, c);
    }
  }

  lemma {:induction false} SplitsAt(s: Subject, rep: Node, rest: seq<Node>, count: nat, j: nat, p: nat, c: Captures)
    requires rep.Repeat? && p <= |s.text| && CapturesOk(c, |s.text|)
    ensures Split(s, rep, rest, count, j, p, c)
  {
    if j > 0 {
      var m := MatchNode(s, rep.child, p, c);
      assert m.Match? ==>
        AfterRounds(s, rep.child, rest, j, p, c) == AfterRounds(s, rep.child, rest, j - 1, m.pos, m.caps);
    }
  }

  /** From the rounds after a first one to all of them. */
  lemma {:induction false} KeepsMore(
      s: Subject, rep: Node, rest: seq<Node>, count: nat, p: nat, c: Captures, m: Result, more: Result, later: nat,
      stop: Result, r: Result)
      returns (k: nat)
    requires rep.Repeat? && p <= |s.text| && CapturesOk(c, |s.text|) && (rep.max.Some? ==> count < rep.max.value)
    requires m == MatchNode(s, rep.child, p, c) && m.Match?
      && Keeps(s, rep, rest, count + 1, m.pos, m.caps, more, later)
    requires stop == if count >= rep.min then MatchItems(s, rest, p, c) else Fail
    requires r == if rep.greedy then if more.Match? then more else stop else if stop.Match? then stop else more
    ensures Keeps(s, rep, rest, count, p, c, r, k)
  {
    EachSplits(s, rep, rest, count, p, c);
    k := if more.Match? && (rep.greedy || stop.Fail?) then later + 1 else 0;
    forall j: nat | Works(s, rep, rest, count, j, p, c)
      ensures r.Match? && if rep.greedy then j <= k else k <= j
    {
      assert Split(s, rep, rest, count, j, p, c);
      if j > 0 {
        assert Works(s, rep, rest, count + 1, j - 1, m.pos, m.caps);
      }
    }
  }

  lemma {:induction false} KeepsStop(
      s: Subject, rep: Node, rest: seq<Node>, count: nat, p: nat, c: Captures, stop: Result)
    requires rep.Repeat? && p <= |s.text| && CapturesOk(c, |s.text|) && (rep.max.Some? ==> count <= rep.max.value)
    requires MatchNode(s, rep.child, p, c).Fail? || (rep.max.Some? && count == rep.max.value)
    requires stop == if count >= rep.min then MatchItems(s, rest, p, c) else Fail
    ensures Keeps(s, rep, rest, count, p, c, stop, 0)
  {
    EachSplits(s, rep, rest, count, p, c);
    forall j: nat | Works(s, rep, rest, count, j, p, c)
      ensures j == 0 && stop.Match?
    {
      assert Split(s, rep, rest, count, j, p, c);
    }
  }

  lemma {:induction false} RepeatKeeps(s: Subject, rep: Node, rest: seq<Node>, count: nat, p: nat, c: Captures)
      returns (k: nat)
    requires rep.Repeat? && p <= |s.text| && CapturesOk(c, |s.text|) && Trusted(rep.child) && Consuming(rep.child)
    requires rep.max.Some? ==> count <= rep.max.value
    ensures Keeps(s, rep, rest, count, p, c, MatchRepeat(s, rep, rest, p, c, count), k)
    decreases |s.text| - p
  {
    var m := MatchNode(s, rep.child, p, c);
    var stop := if count >= rep.min then MatchItems(s, rest, p, c) else Fail;
    RoundMoves(s, rep.child, p, c);
    if m.Match? && (rep.max.Some? ==> count < rep.max.value) {
      var later := RepeatKeeps(s, rep, rest, count + 1, m.pos, m.caps);
      var more := MatchRepeat(s, rep, rest, m.pos, m.caps, count + 1);
      assert MatchMore(s, rep, rest, p, c, count) == more;
      k := KeepsMore(s, rep, rest, count, p, c, m, more, later, stop, MatchRepeat(s, rep, rest, p, c, count));
    } else {
      assert MatchMore(s, rep, rest, p, c, count) == Fail;
      KeepsStop(s, rep, rest, count, p, c, stop);
      k := 0;
    }
  }

  /** A repeat of something that moves forward, and the rest of its sequence: of all numbers of rounds that the repeat
      allows and after which the rest matches, a greedy repeat keeps the largest and a lazy one the smallest. */
  lemma {:induction false} GreedyKeepsMost(s: Subject, rep: Node, rest: seq<Node>, p: nat, c: Captures) returns (k: nat)
    requires rep.Repeat? && p <= |s.text| && CapturesOk(c, |s.text|) && Trusted(rep.child) && Consuming(rep.child)
    ensures Keeps(s, rep, rest, 0, p, c, MatchItems(s, [rep] + rest, p, c), k)
  {
    assert ([rep] + rest)[1..] == rest;
    k := RepeatKeeps(s, rep, rest, 0, p, c);
  }

  // ----- which branch and which start -----

  /** An alternation keeps the match of the first branch that has one. */
  lemma {:induction false} FirstBranchKept(s: Subject, branches: seq<Node>, p: nat, c: Captures) returns (i: nat)
    requires p <= |s.text| && CapturesOk(c, |s.text|)
    ensures i <= |branches| && forall j | 0 <= j < i :: MatchNode(s, branches[j], p, c).Fail?
    ensures MatchNode(s, Alternation(branches), p, c)
         == if i < |branches| then MatchNode(s, branches[i], p, c) else Fail
    ensures i < |branches| ==> MatchNode(s, branches[i], p, c).Match?
    decreases |branches|
  {
    if branches == [] || MatchNode(s, branches[0], p, c).Match? {
      i := 0;
    } else {
      var later := FirstBranchKept(s, branches[1..], p, c);
      assert forall j | 0 < j < |branches| :: branches[1..][j - 1] == branches[j];
      assert forall j | 0 <= j < |branches| - 1 :: branches[1..][j] == branches[j + 1];
      i := later + 1;
    }
  }

  /** A look-behind is decided by the first place in the text, from its beginning on, from which its child is matched up
      to the position. */
  ghost predicate Ends(s: Subject, child: Node, a: nat, p: nat, c: Captures)
    requires a <= p <= |s.text| && CapturesOk(c, |s.text|)
  {
    MatchNode(s, child, a, c).Match? && MatchNode(s, child, a, c).pos == p
  }

  lemma {:induction false} FirstStart(s: Subject, child: Node, from: nat, p: nat, c: Captures) returns (a: nat)
    requires from <= p + 1 && p <= |s.text| && CapturesOk(c, |s.text|)
    ensures from <= a <= p + 1 && forall b | from <= b < a :: !Ends(s, child, b, p, c)
    ensures MatchBehind(s, child, from, p, c) == if a <= p then MatchNode(s, child, a, c) else Fail
    ensures a <= p ==> Ends(s, child, a, p, c)
    decreases p + 1 - from
  {
    if from > p || Ends(s, child, from, p, c) {
      a := from;
    } else {
      a := FirstStart(s, child, from + 1, p, c);
    }
  }

  lemma {:induction false} FirstStartKept(s: Subject, child: Node, positive: bool, p: nat, c: Captures) returns (a: nat)
    requires p <= |s.text| && CapturesOk(c, |s.text|)
    ensures a <= p + 1 && (forall b | 0 <= b < a :: !Ends(s, child, b, p, c)) && (a <= p ==> Ends(s, child, a, p, c))
    ensures MatchNode(s, Look(child, positive, true), p, c)
         == if (a <= p) != positive then Fail else Match(p, if positive then MatchNode(s, child, a, c).caps else c)
  {
    a := FirstStart(s, child, 0, p, c);
  }

  /** A look-ahead matches where its child does, or where it does not, and takes nothing. */
  lemma {:induction false} AheadDecides(s: Subject, child: Node, positive: bool, p: nat, c: Captures)
    requires p <= |s.text| && CapturesOk(c, |s.text|)
    ensures var r := MatchNode(s, child, p, c);
      MatchNode(s, Look(child, positive, false), p, c)
        == if r.Match? != positive then Fail else Match(p, if positive then r.caps else c)
  {
  }

  // ----- captures -----

  /** A group captures what its child has matched, behind what is captured inside; a group that does not capture, or
      has no place among the captures, changes none. */
  lemma {:induction false} GroupCaptures(s: Subject, child: Node, capturing: bool, k: nat, p: nat, c: Captures)
    requires p <= |s.text| && CapturesOk(c, |s.text|)
    ensures var r := MatchNode(s, child, p, c);
      MatchNode(s, Group(child, capturing, k), p, c)
        == match r
           case Fail => Fail
           case Match(q, d) => Match(q, if capturing && k < |c| then d[k := Span(p, q)] else d)
  {
  }
}
