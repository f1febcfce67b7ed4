/** Splitting a text at the matches of a pattern, and replacing them. */
module RegexReplace {
  import opened RegexMatch
  import opened RegexFind
  import opened Bytes
  import opened RegexText

  // ----- pieces of the text -----

  lemma {:induction false} OffsetsRise(v: View, text: Text, a: nat, b: nat)
    requires ViewOk(v, text) && a <= b <= |v.codepoints|
    ensures v.offsets[a] <= v.offsets[b] <= |text|
    ensures a < b ==> v.offsets[a] < v.offsets[b]
    decreases |v.codepoints| - a
  {
    if a < b {
      assert StepAt(v.offsets, a);
      OffsetsRise(v, text, a + 1, b);
    } else if b < |v.codepoints| {
      assert StepAt(v.offsets, b);
      OffsetsRise(v, text, b + 1, |v.codepoints|);
    }
  }

  /** The bytes of the characters from `a` up to `b`. */
  function Cut(text: Text, v: View, a: nat, b: nat): Text
    requires ViewOk(v, text) && a <= b <= |v.codepoints|
  {
    OffsetsRise(v, text, a, b);
    text[v.offsets[a]..v.offsets[b]]
  }

  lemma {:induction false} CutJoins(text: Text, v: View, a: nat, b: nat, c: nat)
    requires ViewOk(v, text) && a <= b <= c <= |v.codepoints|
    ensures Cut(text, v, a, b) + Cut(text, v, b, c) == Cut(text, v, a, c)
  {
    OffsetsRise(v, text, a, b);
    OffsetsRise(v, text, b, c);
    OffsetsRise(v, text, a, c);
  }

  // ----- replacement templates -----

  function CaptureText(text: Text, v: View, caps: Captures, k: nat): Text
    requires ViewOk(v, text) && CapturesOk(caps, |v.codepoints|)
  {
    if k < |caps| && caps[k].Span? then Cut(text, v, caps[k].start, caps[k].end) else []
  }

  /** A group reference stands at `i`. */
  predicate RefersAt(r: Text, i: nat) {
    i + 1 < |r| && (r[i] == DOLLAR || r[i] == BACKSLASH) && IsDigit(r[i + 1])
  }

  predicate SpecialAt(r: Text, i: nat) {
    RefersAt(r, i) || (i + 1 < |r| && r[i] == DOLLAR && (r[i + 1] == DOLLAR || r[i + 1] == AMPERSAND))
  }

  /** The template from `i` on with its references filled in. */
  function Expand(r: Text, i: nat, text: Text, v: View, caps: Captures): Text
    requires i <= |r| && ViewOk(v, text) && CapturesOk(caps, |v.codepoints|)
    decreases |r| - i
  {
    if i == |r| then []
    else if RefersAt(r, i) then
      var (k, next) := Number(r, i + 1, 0);
      CaptureText(text, v, caps, k) + Expand(r, next, text, v, caps)
    else if SpecialAt(r, i) then
      (if r[i + 1] == DOLLAR then [DOLLAR] else CaptureText(text, v, caps, 0)) + Expand(r, i + 2, text, v, caps)
    else [r[i]] + Expand(r, i + 1, text, v, caps)
  }

  method ExpandReplacement(r: Text, text: Text, v: View, caps: Captures) returns (out: Text)
    requires ViewOk(v, text) && CapturesOk(caps, |v.codepoints|) && |caps| > 0 && caps[0].Span?
    ensures out == Expand(r, 0, text, v, caps)
  {
    out := [];
    var index := 0;
    while index < |r|
      invariant index <= |r|
      invariant out + Expand(r, index, text, v, caps) == Expand(r, 0, text, v, caps)
    {
      var ch := r[index];
      var piece: Text, next: nat := [ch], index + 1;
      if ch == DOLLAR && index + 1 < |r| && r[index + 1] == DOLLAR {
        piece, next := [DOLLAR], index + 2;
      } else if ch == DOLLAR && index + 1 < |r| && r[index + 1] == AMPERSAND {
        piece, next := Cut(text, v, caps[0].start, caps[0].end), index + 2;
      } else if (ch == DOLLAR || ch == BACKSLASH) && index + 1 < |r| && IsDigit(r[index + 1]) {
        var value;
        value, next := ReadNumber(r, index + 1);
        piece := CaptureText(text, v, caps, value);
      }
      assert Expand(r, index, text, v, caps) == piece + Expand(r, next, text, v, caps);
      Regroup(out, piece, Expand(r, next, text, v, caps));
      out := out + piece;
      index := next;
    }
  }

  lemma {:induction false} Regroup(a: Text, b: Text, c: Text)
    ensures a + (b + c) == a + b + c
  {
  }

  /** No reference and no doubled dollar stands in the template. */
  ghost predicate Inert(r: Text) {
    forall i {:trigger SpecialAt(r, i)} | 0 <= i < |r| :: !SpecialAt(r, i)
  }

  lemma {:induction false} InertExpands(r: Text, i: nat, text: Text, v: View, caps: Captures)
    requires i <= |r| && ViewOk(v, text) && CapturesOk(caps, |v.codepoints|) && Inert(r)
    ensures Expand(r, i, text, v, caps) == r[i..]
    decreases |r| - i
  {
    if i >= |r| {
    } else {
      assert !SpecialAt(r, i);
      InertExpands(r, i + 1, text, v, caps);
    }
  }

  // ----- the matches of one pass over the text -----

  /** Where the search goes on after a match. */
  function Next(m: Found): nat
    requires m.Found?
  {
    if m.end == m.start then m.start + 1 else m.end
  }

  function Matches(s: Subject, prog: Program, search: nat): (ms: seq<Found>)
    ensures MatchesOk(ms, search, |s.text|)
    decreases |s.text| + 1 - search
  {
    if search > |s.text| then []
    else
      var m := Find(s, prog, search);
      if m.NoMatch? then [] else [m] + Matches(s, prog, Next(m))
  }

  /** The matches lie in the text, one after the other, from `search` on. */
  predicate MatchesOk(ms: seq<Found>, search: nat, n: nat) {
    ms == [] ||
    (&& ms[0].Found? && search <= ms[0].start <= ms[0].end <= n
     && CapturesOk(ms[0].caps, n) && |ms[0].caps| > 0 && ms[0].caps[0] == Span(ms[0].start, ms[0].end)
     && MatchesOk(ms[1..], Next(ms[0]), n))
  }

  /** The text from `emit` on, without the matches. */
  function Pieces(text: Text, v: View, ms: seq<Found>, emit: nat): (r: seq<Text>)
    requires ViewOk(v, text) && MatchesOk(ms, emit, |v.codepoints|) && emit <= |v.codepoints|
    ensures |r| == |ms| + 1
    decreases |ms|
  {
    if ms == [] then [Cut(text, v, emit, |v.codepoints|)]
    else
      MatchesFrom(ms[1..], Next(ms[0]), ms[0].end, |v.codepoints|);
      [Cut(text, v, emit, ms[0].start)] + Pieces(text, v, ms[1..], ms[0].end)
  }

  lemma {:induction false} MatchesFrom(ms: seq<Found>, search: nat, search': nat, n: nat)
    requires MatchesOk(ms, search, n) && search' <= search
    ensures MatchesOk(ms, search', n)
  {
  }

  /** What each match is replaced with. */
  function Expansions(r: Text, text: Text, v: View, ms: seq<Found>, search: nat): (es: seq<Text>)
    requires ViewOk(v, text) && MatchesOk(ms, search, |v.codepoints|)
    ensures |es| == |ms|
    decreases |ms|
  {
    if ms == [] then [] else [Expand(r, 0, text, v, ms[0].caps)] + Expansions(r, text, v, ms[1..], Next(ms[0]))
  }

  function Interleave(pieces: seq<Text>, fillers: seq<Text>): Text
    requires |pieces| == |fillers| + 1
    decreases |fillers|
  {
    if fillers == [] then pieces[0] else pieces[0] + fillers[0] + Interleave(pieces[1..], fillers[1..])
  }

  function Join(pieces: seq<Text>, separator: Text): Text
    requires |pieces| > 0
    decreases |pieces|
  {
    if |pieces| == 1 then pieces[0] else pieces[0] + separator + Join(pieces[1..], separator)
  }

  // ----- what the loops compute -----

  function SplitOf(text: Text, s: Subject, v: View, prog: Program): seq<Text>
    requires ViewOk(v, text) && s.text == v.codepoints
  {
    Pieces(text, v, Matches(s, prog, 0), 0)
  }

  /** The rest of the output once everything before `emit` has been written. */
  function ReplaceRest(r: Text, text: Text, v: View, ms: seq<Found>, emit: nat): Text
    requires ViewOk(v, text) && MatchesOk(ms, emit, |v.codepoints|) && emit <= |v.codepoints|
  {
    Interleave(Pieces(text, v, ms, emit), Expansions(r, text, v, ms, emit))
  }

  function ReplaceOf(r: Text, text: Text, s: Subject, v: View, prog: Program): Text
    requires ViewOk(v, text) && s.text == v.codepoints
  {
    ReplaceRest(r, text, v, Matches(s, prog, 0), 0)
  }

  lemma {:induction false} MatchesStep(text: Text, s: Subject, v: View, prog: Program, search: nat, emit: nat)
    requires ViewOk(v, text) && s.text == v.codepoints && emit <= |v.codepoints|
    requires MatchesOk(Matches(s, prog, search), emit, |v.codepoints|)
    requires search <= |v.codepoints| && Find(s, prog, search).Found?
    ensures var m := Find(s, prog, search);
      && Matches(s, prog, search) == [m] + Matches(s, prog, Next(m))
      && MatchesOk(Matches(s, prog, Next(m)), m.end, |v.codepoints|)
      && Pieces(text, v, Matches(s, prog, search), emit)
         == [Cut(text, v, emit, m.start)] + Pieces(text, v, Matches(s, prog, Next(m)), m.end)
  {
  }

  method Split(text: Text, s: Subject, v: View, prog: Program) returns (result: seq<Text>)
    requires ViewOk(v, text) && s.text == v.codepoints
    ensures result == SplitOf(text, s, v, prog)
  {
    result := [];
    var searchStart, emitStart := 0, 0;
    while searchStart <= |v.codepoints|
      invariant 0 <= emitStart <= searchStart && emitStart <= |v.codepoints|
      invariant MatchesOk(Matches(s, prog, searchStart), emitStart, |v.codepoints|)
      invariant result + Pieces(text, v, Matches(s, prog, searchStart), emitStart) == SplitOf(text, s, v, prog)
      decreases |v.codepoints| + 1 - searchStart
    {
      var found := FindMatch(s, prog, searchStart);
      if found.NoMatch? {
        break;
      }
      MatchesStep(text, s, v, prog, searchStart, emitStart);
      result := result + [Cut(text, v, emitStart, found.start)];
      if found.end == found.start {
        emitStart := found.start;
        searchStart := if found.start < |v.codepoints| then found.start + 1 else |v.codepoints| + 1;
      } else {
        emitStart := found.end;
        searchStart := found.end;
      }
    }
    result := result + [Cut(text, v, emitStart, |v.codepoints|)];
  }

  lemma {:induction false} ReplaceRestMoves(r: Text, text: Text, v: View, ms: seq<Found>, a: nat, b: nat)
    requires ViewOk(v, text) && a <= b <= |v.codepoints| && MatchesOk(ms, b, |v.codepoints|)
    ensures MatchesOk(ms, a, |v.codepoints|)
    ensures ReplaceRest(r, text, v, ms, a) == Cut(text, v, a, b) + ReplaceRest(r, text, v, ms, b)
  {
    MatchesFrom(ms, b, a, |v.codepoints|);
    var stop := if ms == [] then |v.codepoints| else ms[0].start;
    CutJoins(text, v, a, b, stop);
    if ms != [] {
      MatchesFrom(ms[1..], Next(ms[0]), ms[0].end, |v.codepoints|);
      assert Pieces(text, v, ms, a)[1..] == Pieces(text, v, ms, b)[1..];
      assert Expansions(r, text, v, ms, a) == Expansions(r, text, v, ms, b);
    }
  }

  lemma {:induction false} ReplaceRestStep(r: Text, text: Text, v: View, ms: seq<Found>, emit: nat)
    requires ViewOk(v, text) && MatchesOk(ms, emit, |v.codepoints|) && emit <= |v.codepoints| && ms != []
    ensures MatchesOk(ms[1..], ms[0].end, |v.codepoints|)
    ensures ReplaceRest(r, text, v, ms, emit)
         == Cut(text, v, emit, ms[0].start) + Expand(r, 0, text, v, ms[0].caps)
           + ReplaceRest(r, text, v, ms[1..], ms[0].end)
  {
    MatchesFrom(ms[1..], Next(ms[0]), ms[0].end, |v.codepoints|);
    assert Pieces(text, v, ms, emit)[1..] == Pieces(text, v, ms[1..], ms[0].end);
    assert Expansions(r, text, v, ms, emit)[1..] == Expansions(r, text, v, ms[1..], ms[0].end);
  }

  lemma {:induction false} ReplaceRestOne(r: Text, text: Text, v: View, ms: seq<Found>, a: nat, result: Text)
    requires ViewOk(v, text) && a < |v.codepoints| && MatchesOk(ms, a + 1, |v.codepoints|)
      && MatchesOk(ms, a, |v.codepoints|)
    ensures result + Cut(text, v, a, a + 1) + ReplaceRest(r, text, v, ms, a + 1) ==
      result + ReplaceRest(r, text, v, ms, a)
  {
    ReplaceRestMoves(r, text, v, ms, a, a + 1);
    Regroup(result, Cut(text, v, a, a + 1), ReplaceRest(r, text, v, ms, a + 1));
  }

  method ReplaceAll(r: Text, text: Text, s: Subject, v: View, prog: Program) returns (result: Text)
    requires ViewOk(v, text) && s.text == v.codepoints
    ensures result == ReplaceOf(r, text, s, v, prog)
  {
    result := [];
    var searchStart, emitStart := 0, 0;
    while searchStart <= |v.codepoints|
      invariant 0 <= emitStart <= searchStart && emitStart <= |v.codepoints|
      invariant MatchesOk(Matches(s, prog, searchStart), emitStart, |v.codepoints|)
      invariant result + ReplaceRest(r, text, v, Matches(s, prog, searchStart), emitStart) ==
        ReplaceOf(r, text, s, v, prog)
      decreases |v.codepoints| + 1 - searchStart
    {
      var found := FindMatch(s, prog, searchStart);
      if found.NoMatch? {
        break;
      }
      MatchesStep(text, s, v, prog, searchStart, emitStart);
      ReplaceRestStep(r, text, v, Matches(s, prog, searchStart), emitStart);
      ghost var later := Matches(s, prog, Next(found));
      assert Matches(s, prog, searchStart)[1..] == later;
      var expanded := ExpandReplacement(r, text, v, found.caps);
      var gap := Cut(text, v, emitStart, found.start);
      Regroup(result, gap + expanded, ReplaceRest(r, text, v, later, found.end));
      result := result + (gap + expanded);
      assert result + ReplaceRest(r, text, v, later, found.end) == ReplaceOf(r, text, s, v, prog);
      if found.end == found.start {
        if found.start < |v.codepoints| {
          var one := Cut(text, v, found.start, found.start + 1);
          ReplaceRestOne(r, text, v, later, found.start, result);
          result := result + one;
          emitStart := found.start + 1;
          searchStart := found.start + 1;
        } else {
          emitStart := found.end;
          searchStart := |v.codepoints| + 1;
        }
      } else {
        emitStart := found.end;
        searchStart := found.end;
      }
    }
    if emitStart <= |v.codepoints| {
      result := result + Cut(text, v, emitStart, |v.codepoints|);
    }
  }

  // ----- main results -----

  predicate AllAre(fillers: seq<Text>, r: Text) {
    forall i | 0 <= i < |fillers| :: fillers[i] == r
  }

  lemma {:induction false} SameFillersJoin(pieces: seq<Text>, fillers: seq<Text>, r: Text)
    requires |pieces| == |fillers| + 1 && AllAre(fillers, r)
    ensures Interleave(pieces, fillers) == Join(pieces, r)
    decreases |fillers|
  {
    if fillers == [] {
    } else {
      SameFillersJoin(pieces[1..], fillers[1..], r);
    }
  }

  lemma {:induction false} InertExpansions(r: Text, text: Text, v: View, ms: seq<Found>, search: nat)
    requires ViewOk(v, text) && MatchesOk(ms, search, |v.codepoints|) && Inert(r)
    ensures AllAre(Expansions(r, text, v, ms, search), r)
    decreases |ms|
  {
    if ms == [] {
    } else {
      InertExpands(r, 0, text, v, ms[0].caps);
      InertExpansions(r, text, v, ms[1..], Next(ms[0]));
    }
  }

  /** Replacing every match by a text without references is joining the pieces of the split by it. */
  lemma {:induction false} ReplaceIsJoinedSplit(r: Text, text: Text, s: Subject, v: View, prog: Program)
    requires ViewOk(v, text) && s.text == v.codepoints && Inert(r)
    ensures ReplaceOf(r, text, s, v, prog) == Join(SplitOf(text, s, v, prog), r)
  {
    var ms := Matches(s, prog, 0);
    InertExpansions(r, text, v, ms, 0);
    SameFillersJoin(Pieces(text, v, ms, 0), Expansions(r, text, v, ms, 0), r);
  }

  const WHOLE: Text := [DOLLAR, AMPERSAND]

  lemma {:induction false} WholeRest(text: Text, v: View, ms: seq<Found>, emit: nat)
    requires ViewOk(v, text) && MatchesOk(ms, emit, |v.codepoints|) && emit <= |v.codepoints|
    ensures ReplaceRest(WHOLE, text, v, ms, emit) == Cut(text, v, emit, |v.codepoints|)
    decreases |ms|
  {
    if ms == [] {
    } else {
      var m := ms[0];
      ReplaceRestStep(WHOLE, text, v, ms, emit);
      WholeRest(text, v, ms[1..], m.end);
      assert Expand(WHOLE, 2, text, v, m.caps) == [];
      assert SpecialAt(WHOLE, 0) && !RefersAt(WHOLE, 0);
      assert Expand(WHOLE, 0, text, v, m.caps) == Cut(text, v, m.start, m.end);
      CutJoins(text, v, emit, m.start, m.end);
      CutJoins(text, v, emit, m.end, |v.codepoints|);
    }
  }

  /** Replacing every match by itself gives the text back. */
  lemma {:induction false} ReplaceByWholeKeeps(text: Text, s: Subject, v: View, prog: Program)
    requires ViewOk(v, text) && s.text == v.codepoints
    ensures ReplaceOf(WHOLE, text, s, v, prog) == text
  {
    WholeRest(text, v, Matches(s, prog, 0), 0);
  }
}
