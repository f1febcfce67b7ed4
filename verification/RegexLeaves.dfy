/** What the nodes that look at one position match, in terms of the text alone. */
module RegexLeaves {
  import opened RegexMatch

  /** The node takes the character at `p` if `takes` holds of it, and nothing at the end of the text. */
  ghost predicate TakesOne(s: Subject, n: Node, p: nat, c: Captures, takes: nat -> bool)
    requires p <= |s.text| && CapturesOk(c, |s.text|)
  {
    MatchNode(s, n, p, c) == if p < |s.text| && takes(s.text[p]) then Match(p + 1, c) else Fail
  }

  /** The node takes no characters, and matches if `holds`. */
  ghost predicate TakesNone(s: Subject, n: Node, p: nat, c: Captures, holds: bool)
    requires p <= |s.text| && CapturesOk(c, |s.text|)
  {
    MatchNode(s, n, p, c) == if holds then Match(p, c) else Fail
  }

  // ----- characters -----

  lemma {:induction false} LiteralTakes(s: Subject, x: nat, p: nat, c: Captures)
    requires p <= |s.text| && CapturesOk(c, |s.text|)
    ensures TakesOne(s, Literal(x), p, c, y => y == x)
  {
  }

  /** Line feed, carriage return, and the separators of lines and of paragraphs. */
  lemma {:induction false} DotTakes(s: Subject, p: nat, c: Captures)
    requires p <= |s.text| && CapturesOk(c, |s.text|)
    ensures TakesOne(s, Dot, p, c, x => x !in {10, 13, 0x2028, 0x2029})
  {
  }

  /** A class that is not negated takes what lies in one of its ranges, and what the locale has in one of its
      predicates; a word is made of letters, digits and underscores. */
  lemma {:induction false} ClassTakes(s: Subject, k: CharClass, p: nat, c: Captures)
    requires p <= |s.text| && CapturesOk(c, |s.text|) && !k.negated
    ensures TakesOne(s, Class(k), p, c, (x: nat) =>
      || (exists r | r in k.ranges :: r.first <= x <= r.last)
      || (exists b | b in k.builtins :: if b == Word then x == 95 || s.locale(Alnum, x) else s.locale(b, x)))
  {
    if p < |s.text| {
      var x := s.text[p];
      if exists r | r in k.ranges :: r.first <= x <= r.last {
        var r :| r in k.ranges && r.first <= x <= r.last;
        var i :| 0 <= i < |k.ranges| && k.ranges[i] == r;
      }
    }
  }

  /** At every character exactly one of a class and its negation matches. */
  lemma {:induction false} NegatedTakesRest(s: Subject, k: CharClass, p: nat, c: Captures)
    requires p < |s.text| && CapturesOk(c, |s.text|)
    ensures var other := MatchNode(s, Class(k.(negated := !k.negated)), p, c);
      (MatchNode(s, Class(k), p, c) == Match(p + 1, c) && other == Fail)
      || (MatchNode(s, Class(k), p, c) == Fail && other == Match(p + 1, c))
  {
    var other := k.(negated := !k.negated);
    assert other.ranges == k.ranges && other.builtins == k.builtins;
    var x := s.text[p];
    assert (exists i | 0 <= i < |k.ranges| :: k.ranges[i].first <= x <= k.ranges[i].last)
      == (exists i | 0 <= i < |other.ranges| :: other.ranges[i].first <= x <= other.ranges[i].last);
  }

  /** And at the end of the text neither does. */
  lemma {:induction false} NoClassAtEnd(s: Subject, k: CharClass, c: Captures)
    requires CapturesOk(c, |s.text|)
    ensures MatchNode(s, Class(k), |s.text|, c) == Fail
  {
  }

  // ----- positions -----

  lemma {:induction false} EmptyHolds(s: Subject, p: nat, c: Captures)
    requires p <= |s.text| && CapturesOk(c, |s.text|)
    ensures TakesNone(s, Empty, p, c, true)
  {
  }

  lemma {:induction false} AnchorsHold(s: Subject, p: nat, c: Captures)
    requires p <= |s.text| && CapturesOk(c, |s.text|)
    ensures TakesNone(s, AssertStart, p, c, p == 0)
    ensures TakesNone(s, AssertEnd, p, c, p == |s.text|)
  {
  }

  /** A letter, a digit or an underscore stands at `i`; outside the text nothing does. */
  predicate InWord(s: Subject, i: int) {
    0 <= i < |s.text| && (s.text[i] == 95 || s.locale(Alnum, s.text[i]))
  }

  /** A boundary is where a word begins or ends. */
  lemma {:induction false} BoundariesHold(s: Subject, p: nat, c: Captures)
    requires p <= |s.text| && CapturesOk(c, |s.text|)
    ensures TakesNone(s, WordBoundary, p, c, InWord(s, p - 1) != InWord(s, p))
    ensures TakesNone(s, NotWordBoundary, p, c, InWord(s, p - 1) == InWord(s, p))
  {
  }

  // ----- captured text -----

  /** A back-reference takes a copy of what its group has captured. Group 0 and groups that have captured nothing, or do
      not exist, have no copy. */
  lemma {:induction false} BackrefTakes(s: Subject, k: nat, p: nat, c: Captures, q: nat)
    requires p <= |s.text| && CapturesOk(c, |s.text|)
    ensures MatchNode(s, Backref(k), p, c) == Match(q, c) <==>
      && 0 < k < |c| && c[k].Span?
      && p <= q <= |s.text| && s.text[p..q] == s.text[c[k].start..c[k].end]
    ensures MatchNode(s, Backref(k), p, c).Match? ==> MatchNode(s, Backref(k), p, c).caps == c
  {
    if 0 < k < |c| && c[k].Span? && p <= q <= |s.text| && s.text[p..q] == s.text[c[k].start..c[k].end] {
      assert |s.text[p..q]| == q - p;
    }
  }
}
