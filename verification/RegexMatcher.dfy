/** The matcher of libs/regex/regex.c over capture arrays: every attempt works on a snapshot that is
    copied back when the attempt succeeds. */
module RegexMatcher {
  import opened Wrappers
  import opened RegexMatch

  /** A call that answered `ok` and `out` and took the captures from `before` to `after` did what the
      result says, and left the captures alone when it failed. */
  ghost predicate Leaves(r: Result, ok: bool, out: nat, before: Captures, after: Captures) {
    if ok then r == Match(out, after) else r == Fail && after == before
  }

  lemma {:induction false} SizeOfItem(items: seq<Node>, i: nat)
    requires i < |items|
    ensures Size(items[i]) + SizeAll(items[i + 1..]) == SizeAll(items[i..]) <= SizeAll(items)
  {
    assert items[i..][1..] == items[i + 1..];
    if i == 0 {
    } else {
      assert items[1..][i - 1..] == items[i..] && items[1..][i..] == items[i + 1..];
      SizeOfItem(items[1..], i - 1);
    }
  }

  method CloneCaptures(captures: array<Capture>) returns (snapshot: array<Capture>)
    ensures fresh(snapshot) && snapshot[..] == captures[..]
  {
    snapshot := new Capture[captures.Length](i requires 0 <= i < captures.Length reads captures => captures[i]);
  }

  method CopyBack(snapshot: array<Capture>, captures: array<Capture>)
    requires snapshot.Length == captures.Length
    modifies captures
    ensures captures[..] == old(snapshot[..])
  {
    forall i | 0 <= i < captures.Length {
      captures[i] := snapshot[i];
    }
  }

  method MatchNodeInto(s: Subject, n: Node, position: nat, captures: array<Capture>) returns (ok: bool, out: nat)
    requires position <= |s.text| && CapturesOk(captures[..], |s.text|)
    modifies captures
    ensures Leaves(MatchNode(s, n, position, old(captures[..])), ok, out, old(captures[..]), captures[..])
    decreases Size(n), |s.text| - position, 2
  {
    out := position;
    match n
    case Sequence(items) =>
      assert items[0..] == items;
      ok, out := MatchSequenceItems(s, items, 0, position, captures);
    case Alternation(branches) =>
      var i := 0;
      assert branches[0..] == branches;
      while i < |branches|
        invariant 0 <= i <= |branches|
        invariant captures[..] == old(captures[..])
        invariant MatchNode(s, n, position, old(captures[..])) ==
          MatchBranches(s, branches[i..], position, old(captures[..]))
      {
        SizeOfItem(branches, i);
        var snapshot := CloneCaptures(captures);
        var end;
        ok, end := MatchNodeInto(s, branches[i], position, snapshot);
        assert branches[i..][1..] == branches[i + 1..];
        if ok {
          CopyBack(snapshot, captures);
          return true, end;
        }
        i := i + 1;
      }
      ok := false;
    case Repeat(_, _, _, _) =>
      assert [n][1..] == [];
      ok, out := MatchRepeatInto(s, n, [n], 1, position, captures, 0);
    case Group(child, capturing, index) =>
      var snapshot := CloneCaptures(captures);
      var end;
      ok, end := MatchNodeInto(s, child, position, snapshot);
      if ok {
        if capturing && index < snapshot.Length {
          snapshot[index] := Span(position, end);
        }
        CopyBack(snapshot, captures);
        out := end;
      }
    case Backref(index) =>
      ok, out := MatchBackref(s, index, position, captures);
    case Look(child, positive, behind) =>
      if behind {
        ok := MatchLookbehind(s, n, position, captures);
      } else {
        var snapshot := CloneCaptures(captures);
        var matched, _ := MatchNodeInto(s, child, position, snapshot);
        ok := matched == positive;
        if ok && matched {
          CopyBack(snapshot, captures);
        }
      }
    case _ =>
      var end := Single(s, n, position, captures[..]);
      ok := end.Some?;
      if ok {
        out := end.value;
      }
  }

  lemma {:induction false} SlicesDiffer(text: seq<nat>, a: nat, b: nat, length: nat, i: nat)
    requires a + length <= |text| && b + length <= |text| && i < length && text[a + i] != text[b + i]
    ensures text[b..b + length] != text[a..a + length]
  {
    assert text[a..a + length][i] != text[b..b + length][i];
  }

  lemma {:induction false} SlicesGrow(text: seq<nat>, a: nat, b: nat, i: nat)
    requires a + i < |text| && b + i < |text| && text[b..b + i] == text[a..a + i] && text[a + i] == text[b + i]
    ensures text[b..b + (i + 1)] == text[a..a + (i + 1)]
  {
    assert text[a..a + (i + 1)] == text[a..a + i] + [text[a + i]];
    assert text[b..b + (i + 1)] == text[b..b + i] + [text[b + i]];
  }

  /** The captured text is compared with the text at `position`, character by character. */
  method MatchBackref(s: Subject, index: nat, position: nat, captures: array<Capture>) returns (ok: bool, out: nat)
    requires position <= |s.text| && CapturesOk(captures[..], |s.text|)
    ensures Single(s, Backref(index), position, captures[..]) == if ok then Some(out) else None
  {
    out := position;
    if index == 0 || index >= captures.Length || captures[index].Unset? {
      return false, out;
    }
    var length := captures[index].end - captures[index].start;
    var from := captures[index].start;
    assert captures[..][index] == captures[index];
    if position + length > |s.text| {
      return false, out;
    }
    for i := 0 to length
      invariant s.text[position..position + i] == s.text[from..from + i]
    {
      if s.text[from + i] != s.text[position + i] {
        SlicesDiffer(s.text, from, position, length, i);
        return false, out;
      }
      SlicesGrow(s.text, from, position, i);
    }
    return true, position + length;
  }

  method MatchSequenceItems(s: Subject, items: seq<Node>, index: nat, position: nat, captures: array<Capture>)
    returns (ok: bool, out: nat)
    requires index <= |items| && position <= |s.text| && CapturesOk(captures[..], |s.text|)
    modifies captures
    ensures Leaves(MatchItems(s, items[index..], position, old(captures[..])), ok, out, old(captures[..]), captures[..])
    decreases SizeAll(items[index..]), |s.text| - position, 3
  {
    if index >= |items| {
      return true, position;
    }
    SizeOfItem(items, index);
    assert items[index..][1..] == items[index + 1..];
    if items[index].Repeat? {
      ok, out := MatchRepeatInto(s, items[index], items, index + 1, position, captures, 0);
      return;
    }
    var snapshot := CloneCaptures(captures);
    var next;
    ok, next := MatchNodeInto(s, items[index], position, snapshot);
    out := position;
    if ok {
      ok, out := MatchSequenceItems(s, items, index + 1, next, snapshot);
      if ok {
        CopyBack(snapshot, captures);
      }
    }
  }

  method MatchRepeatInto(s: Subject, rep: Node, items: seq<Node>, next: nat, position: nat, captures: array<Capture>,
        repeats: nat)
    returns (ok: bool, out: nat)
    requires rep.Repeat? && next <= |items| && position <= |s.text| && CapturesOk(captures[..], |s.text|)
    modifies captures
    ensures Leaves(MatchRepeat(s, rep, items[next..], position, old(captures[..]), repeats), ok, out,
      old(captures[..]), captures[..])
    decreases Size(rep) + SizeAll(items[next..]), |s.text| - position, 1
  {
    if !rep.greedy && repeats >= rep.min {
      var snapshot := CloneCaptures(captures);
      ok, out := MatchSequenceItems(s, items, next, position, snapshot);
      if ok {
        CopyBack(snapshot, captures);
        return;
      }
    }
    if rep.max.None? || repeats < rep.max.value {
      var snapshot := CloneCaptures(captures);
      var end;
      ok, end := MatchNodeInto(s, rep.child, position, snapshot);
      if ok {
        if end != position {
          ok, out := MatchRepeatInto(s, rep, items, next, end, snapshot, repeats + 1);
          if ok {
            CopyBack(snapshot, captures);
            return;
          }
        } else if repeats + 1 >= rep.min {
          ok, out := MatchSequenceItems(s, items, next, end, snapshot);
          if ok {
            CopyBack(snapshot, captures);
            return;
          }
        }
      }
    }
    if rep.greedy && repeats >= rep.min {
      var snapshot := CloneCaptures(captures);
      ok, out := MatchSequenceItems(s, items, next, position, snapshot);
      if ok {
        CopyBack(snapshot, captures);
        return;
      }
    }
    return false, position;
  }

  method MatchLookbehind(s: Subject, n: Node, position: nat, captures: array<Capture>) returns (ok: bool)
    requires n.Look? && n.behind && position <= |s.text| && CapturesOk(captures[..], |s.text|)
    modifies captures
    ensures Leaves(MatchNode(s, n, position, old(captures[..])), ok, position, old(captures[..]), captures[..])
    decreases 1 + Size(n.child), |s.text| - position, 0
  {
    var start := 0;
    while start <= position
      invariant 0 <= start <= position + 1
      invariant captures[..] == old(captures[..])
      invariant MatchBehind(s, n.child, 0, position, old(captures[..])) ==
        MatchBehind(s, n.child, start, position, old(captures[..]))
    {
      var snapshot := CloneCaptures(captures);
      var matched, end := MatchNodeInto(s, n.child, start, snapshot);
      if matched && end == position {
        if n.positive {
          CopyBack(snapshot, captures);
          return true;
        }
        return false;
      }
      start := start + 1;
    }
    return !n.positive;
  }
}
