/** Pattern trees and the backtracking matcher of libs/regex/regex.c, as functions. RegexMatcher.dfy
    runs the same matcher on capture arrays and is proved to compute these functions. */
module RegexMatch {
  import opened Wrappers

  // ----- trees -----

  datatype Builtin = Digit | Space | Word | Alpha | Alnum | Lower | Upper | XDigit

  datatype Range = Range(first: nat, last: nat)

  datatype CharClass = CharClass(negated: bool, builtins: set<Builtin>, ranges: seq<Range>)

  /** A repeat without a maximum is unbounded. */
  datatype Node =
    | Empty
    | Literal(codepoint: nat)
    | Dot
    | Class(class_: CharClass)
    | Sequence(items: seq<Node>)
    | Alternation(branches: seq<Node>)
    | Repeat(child: Node, min: nat, max: Option<nat>, greedy: bool)
    | Group(child: Node, capturing: bool, index: nat)
    | Backref(index: nat)
    | AssertStart
    | AssertEnd
    | WordBoundary
    | NotWordBoundary
    | Look(child: Node, positive: bool, behind: bool)

  function Size(n: Node): (r: nat)
    ensures r >= 1
    decreases n
  {
    match n
    case Sequence(items) => 1 + SizeAll(items)
    case Alternation(branches) => 1 + SizeAll(branches)
    case Repeat(child, _, _, _) => 1 + Size(child)
    case Group(child, _, _) => 1 + Size(child)
    case Look(child, _, _) => 2 + Size(child)
    case _ => 1
  }

  function SizeAll(ns: seq<Node>): nat
    decreases ns
  {
    if ns == [] then 0 else Size(ns[0]) + SizeAll(ns[1..])
  }

  // ----- subjects -----

  datatype Capture = Unset | Span(start: nat, end: nat)

  type Captures = seq<Capture>

  /** The text as code points, and what the locale says about characters. */
  datatype Subject = Subject(text: seq<nat>, locale: (Builtin, nat) -> bool)

  function IsWord(s: Subject, c: nat): bool {
    c == 95 || s.locale(Alnum, c)
  }

  predicate HasBuiltin(s: Subject, b: Builtin, c: nat) {
    if b == Word then IsWord(s, c) else s.locale(b, c)
  }

  predicate IsNewline(c: nat) {
    c == 10 || c == 13 || c == 0x2028 || c == 0x2029
  }

  predicate InClass(s: Subject, k: CharClass, c: nat) {
    var found :=
      || (exists i | 0 <= i < |k.ranges| :: k.ranges[i].first <= c <= k.ranges[i].last)
      || (exists b | b in k.builtins :: HasBuiltin(s, b, c));
    if k.negated then !found else found
  }

  predicate AtBoundary(s: Subject, p: nat) {
    var left := 0 < p <= |s.text| && IsWord(s, s.text[p - 1]);
    var right := p < |s.text| && IsWord(s, s.text[p]);
    left != right
  }

  /** Every set capture lies within the text. */
  predicate CapturesOk(c: Captures, n: nat) {
    forall i | 0 <= i < |c| && c[i].Span? :: c[i].start <= c[i].end <= n
  }

  /** The end of a match of a node that looks at one position only. */
  function Single(s: Subject, n: Node, p: nat, c: Captures): (r: Option<nat>)
    requires p <= |s.text| && CapturesOk(c, |s.text|)
    ensures r.Some? ==> p <= r.value <= |s.text|
  {
    match n
    case Empty => Some(p)
    case Literal(x) => if p < |s.text| && s.text[p] == x then Some(p + 1) else None
    case Dot => if p < |s.text| && !IsNewline(s.text[p]) then Some(p + 1) else None
    case Class(k) => if p < |s.text| && InClass(s, k, s.text[p]) then Some(p + 1) else None
    case Backref(i) =>
      if i == 0 || i >= |c| || c[i].Unset? then None
      else
        var n := c[i].end - c[i].start;
        if p + n <= |s.text| && s.text[p..p + n] == s.text[c[i].start..c[i].end] then Some(p + n) else None
    case AssertStart => if p == 0 then Some(p) else None
    case AssertEnd => if p == |s.text| then Some(p) else None
    case WordBoundary => if AtBoundary(s, p) then Some(p) else None
    case NotWordBoundary => if AtBoundary(s, p) then None else Some(p)
    case _ => None
  }

  function SetCapture(n: Node, p: nat, q: nat, c: Captures): Captures
    requires n.Group?
  {
    if n.capturing && n.index < |c| then c[n.index := Span(p, q)] else c
  }

  // ----- the matcher -----

  datatype Result = Fail | Match(pos: nat, caps: Captures)

  predicate ResultOk(s: Subject, p: nat, c: Captures, r: Result) {
    r.Match? ==> p <= r.pos <= |s.text| && |r.caps| == |c| && CapturesOk(r.caps, |s.text|)
  }

  /** Match one node at `p`. The first way found is the only one. */
  function MatchNode(s: Subject, n: Node, p: nat, c: Captures): (r: Result)
    requires p <= |s.text| && CapturesOk(c, |s.text|)
    ensures ResultOk(s, p, c, r)
    decreases Size(n), |s.text| - p, 2
  {
    match n
    case Sequence(items) => MatchItems(s, items, p, c)
    case Alternation(branches) => MatchBranches(s, branches, p, c)
    case Repeat(_, _, _, _) => MatchRepeat(s, n, [], p, c, 0)
    case Group(child, _, _) =>
      (match MatchNode(s, child, p, c)
       case Fail => Fail
       case Match(q, c1) => Match(q, SetCapture(n, p, q, c1)))
    case Look(child, positive, behind) =>
      if behind then
        match MatchBehind(s, child, 0, p, c)
        case Fail => if positive then Fail else Match(p, c)
        case Match(_, c1) => if positive then Match(p, c1) else Fail
      else
        (match MatchNode(s, child, p, c)
         case Fail => if positive then Fail else Match(p, c)
         case Match(_, c1) => if positive then Match(p, c1) else Fail)
    case _ =>
      match Single(s, n, p, c)
      case None => Fail
      case Some(q) => Match(q, c)
  }

  /** Match the items one after the other. Only the items of a repeat are tried again. */
  function MatchItems(s: Subject, items: seq<Node>, p: nat, c: Captures): (r: Result)
    requires p <= |s.text| && CapturesOk(c, |s.text|)
    ensures ResultOk(s, p, c, r)
    decreases SizeAll(items), |s.text| - p, 3
  {
    if items == [] then Match(p, c)
    else if items[0].Repeat? then MatchRepeat(s, items[0], items[1..], p, c, 0)
    else
      match MatchNode(s, items[0], p, c)
      case Fail => Fail
      case Match(q, c1) => MatchItems(s, items[1..], q, c1)
  }

  /** After `count` iterations of `rep`, go on with more of them or with the items after it. An
      iteration that consumes nothing is the last one. */
  function MatchRepeat(s: Subject, rep: Node, rest: seq<Node>, p: nat, c: Captures, count: nat): (r: Result)
    requires rep.Repeat? && p <= |s.text| && CapturesOk(c, |s.text|)
    ensures ResultOk(s, p, c, r)
    decreases Size(rep) + SizeAll(rest), |s.text| - p, 1
  {
    var stop := if count >= rep.min then MatchItems(s, rest, p, c) else Fail;
    if !rep.greedy && stop.Match? then stop
    else
      var more := MatchMore(s, rep, rest, p, c, count);
      if more.Match? || !rep.greedy then more else stop
  }

  function MatchMore(s: Subject, rep: Node, rest: seq<Node>, p: nat, c: Captures, count: nat): (r: Result)
    requires rep.Repeat? && p <= |s.text| && CapturesOk(c, |s.text|)
    ensures ResultOk(s, p, c, r)
    decreases Size(rep) + SizeAll(rest), |s.text| - p, 0
  {
    if rep.max.Some? && count >= rep.max.value then Fail
    else
      match MatchNode(s, rep.child, p, c)
      case Fail => Fail
      case Match(q, c1) =>
        if q != p then MatchRepeat(s, rep, rest, q, c1, count + 1)
        else if count + 1 >= rep.min then MatchItems(s, rest, q, c1)
        else Fail
  }

  function MatchBranches(s: Subject, branches: seq<Node>, p: nat, c: Captures): (r: Result)
    requires p <= |s.text| && CapturesOk(c, |s.text|)
    ensures ResultOk(s, p, c, r)
    decreases SizeAll(branches), |s.text| - p, 3
  {
    if branches == [] then Fail
    else
      match MatchNode(s, branches[0], p, c)
      case Fail => MatchBranches(s, branches[1..], p, c)
      case r => r
  }

  /** The first start, from `start` on, at which the child matches up to `p`. */
  function MatchBehind(s: Subject, child: Node, start: nat, p: nat, c: Captures): (r: Result)
    requires start <= p + 1 && p <= |s.text| && CapturesOk(c, |s.text|)
    ensures ResultOk(s, start, c, r)
    decreases 1 + Size(child), p + 1 - start, 0
  {
    if start > p then Fail
    else
      match MatchNode(s, child, start, c)
      case Fail => MatchBehind(s, child, start + 1, p, c)
      case Match(q, c1) => if q == p then Match(q, c1) else MatchBehind(s, child, start + 1, p, c)
  }
}
