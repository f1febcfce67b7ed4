/** Leftmost search, and repeats of which the search misses a match. */
module RegexFind {
  import opened RegexMatch
  import opened RegexRelation
  import opened RegexFacts
  import opened RegexSearch
  import opened RegexMatcher

  datatype Program = Program(root: Node, captureCount: nat)

  datatype Found = NoMatch | Found(start: nat, end: nat, caps: Captures)

  function NoCaptures(prog: Program): (c: Captures)
    ensures forall n :: CapturesOk(c, n)
  {
    seq(prog.captureCount + 1, _ => Unset)
  }

  /** The match at the first position, from `start` on, at which the search succeeds. */
  function Find(s: Subject, prog: Program, start: nat): (r: Found)
    ensures r.Found? ==> start <= r.start <= r.end <= |s.text| && CapturesOk(r.caps, |s.text|)
    ensures r.Found? ==> |r.caps| == prog.captureCount + 1 && r.caps[0] == Span(r.start, r.end)
    decreases |s.text| + 1 - start
  {
    if start > |s.text| then NoMatch
    else
      match MatchNode(s, prog.root, start, NoCaptures(prog))
      case Fail => Find(s, prog, start + 1)
      case Match(q, d) => Found(start, q, d[0 := Span(start, q)])
  }

  method FindMatch(s: Subject, prog: Program, start: nat) returns (found: Found)
    ensures found == Find(s, prog, start)
  {
    var position := start;
    while position <= |s.text|
      invariant start <= position && (start <= |s.text| ==> position <= |s.text| + 1)
      invariant Find(s, prog, start) == Find(s, prog, position)
    {
      var captures := new Capture[prog.captureCount + 1](_ => Unset);
      assert captures[..] == NoCaptures(prog);
      var matched, end := MatchNodeInto(s, prog.root, position, captures);
      if matched {
        captures[0] := Span(position, end);
        return Found(position, end, captures[..]);
      }
      position := position + 1;
    }
    return NoMatch;
  }

  // ----- leftmost -----

  ghost predicate MatchesAt(s: Subject, prog: Program, p: nat) {
    p <= |s.text| && CanMatch(s, prog.root, p, NoCaptures(prog))
  }

  /** In a linear pattern the position found is the leftmost one with any match at all. */
  lemma {:induction false} FindLeftmost(s: Subject, prog: Program, start: nat)
    requires Linear(prog.root)
    ensures var r := Find(s, prog, start);
      match r
      case NoMatch => forall p | start <= p :: !MatchesAt(s, prog, p)
      case Found(at, end, caps) =>
        && MatchesAt(s, prog, at) && forall p | start <= p < at :: !MatchesAt(s, prog, p)
    decreases |s.text| + 1 - start
  {
    if start <= |s.text| {
      SearchExact(s, prog.root, start, NoCaptures(prog));
      if MatchNode(s, prog.root, start, NoCaptures(prog)).Fail? {
        FindLeftmost(s, prog, start + 1);
      }
    }
  }

  /** Whatever is found is a match of the relation, its text the whole of capture 0. */
  lemma {:induction false} FindSound(s: Subject, prog: Program, start: nat)
    requires Trusted(prog.root) && Find(s, prog, start).Found?
    ensures var r := Find(s, prog, start);
      exists d :: Derives(s, prog.root, r.start, NoCaptures(prog), r.end, d) && r.caps == d[0 := Span(r.start, r.end)]
    decreases |s.text| + 1 - start
  {
    if MatchNode(s, prog.root, start, NoCaptures(prog)).Fail? {
      FindSound(s, prog, start + 1);
    } else {
      Sound(s, prog.root, start, NoCaptures(prog));
    }
  }

  // ----- where the search misses rounds that take no characters -----

  lemma {:induction false} IteratesInPlace(s: Subject, child: Node, k: nat, p: nat, c: Captures)
    requires p <= |s.text| && CapturesOk(c, |s.text|) && Derives(s, child, p, c, p, c)
    ensures Iterates(s, child, k, p, c, p, c)
  {
    if k == 0 {
    } else {
      IteratesInPlace(s, child, k - 1, p, c);
    }
  }

  /** A first round that takes no characters is the last one. */
  lemma {:induction false} ZeroWidthSearch(s: Subject, n: Node, p: nat, c: Captures)
    requires n.Repeat? && p <= |s.text| && CapturesOk(c, |s.text|)
    requires MatchNode(s, n.child, p, c) == Match(p, c) && (n.max.Some? ==> n.min <= n.max.value)
    ensures MatchNode(s, n, p, c).Match? <==> n.min <= 1
  {
    assert MatchItems(s, [], p, c) == Match(p, c);
    var more := MatchMore(s, n, [], p, c, 0);
    assert more.Match? ==> n.min <= 1;
    assert n.min == 1 ==> more == Match(p, c);
    assert MatchNode(s, n, p, c) == MatchRepeat(s, n, [], p, c, 0);
  }

  /** Without a first round there is only the choice of no rounds at all. */
  lemma {:induction false} NoRoundSearch(s: Subject, n: Node, p: nat, c: Captures)
    requires n.Repeat? && p <= |s.text| && CapturesOk(c, |s.text|) && MatchNode(s, n.child, p, c) == Fail
    ensures MatchNode(s, n, p, c).Match? <==> n.min == 0
  {
    assert MatchItems(s, [], p, c) == Match(p, c);
    assert MatchMore(s, n, [], p, c, 0) == Fail;
    assert MatchNode(s, n, p, c) == MatchRepeat(s, n, [], p, c, 0);
  }

  lemma {:induction false} NoRoundMatches(s: Subject, n: Node, p: nat, c: Captures)
    requires n.Repeat? && p <= |s.text| && CapturesOk(c, |s.text|) && !CanMatch(s, n.child, p, c)
    ensures CanMatch(s, n, p, c) <==> n.min == 0
  {
    if n.min == 0 {
      assert Iterates(s, n.child, 0, p, c, p, c);
      assert Derives(s, n, p, c, p, c);
    } else if q, d :| Derives(s, n, p, c, q, d) {
      var k := Rounds(s, n, p, c, q, d);
    }
  }

  /** A repeat of something that takes no characters: the search agrees with the relation exactly when
      at most one round is asked for, or not even one round can match. */
  lemma {:induction false} ZeroWidthRounds(s: Subject, n: Node, p: nat, c: Captures)
    requires n.Repeat? && (n.max.Some? ==> n.min <= n.max.value)
    requires Det(n.child) && CaptureFree(n.child) && HasWidth(n.child, 0)
    requires p <= |s.text| && CapturesOk(c, |s.text|)
    ensures (MatchNode(s, n, p, c).Match? <==> CanMatch(s, n, p, c)) <==> n.min <= 1 || !CanMatch(s, n.child, p, c)
  {
    DetIsLinear(n.child);
    SearchExact(s, n.child, p, c);
    if q, d :| Derives(s, n.child, p, c, q, d) {
      WidthExact(s, n.child, 0, p, c, q, d);
      CaptureFreeKeeps(s, n.child, p, c, q, d);
      IteratesInPlace(s, n.child, n.min, p, c);
      assert Derives(s, n, p, c, p, c);
      DetComplete(s, n.child, p, c, p, c);
      ZeroWidthSearch(s, n, p, c);
    } else {
      NoRoundSearch(s, n, p, c);
      NoRoundMatches(s, n, p, c);
    }
  }
}
