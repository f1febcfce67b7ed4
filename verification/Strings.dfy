/** Splitting, joining and replacing in libs/string: loops over byte strings that agree with each other. */
module Strings {
  import opened Bytes

  /** The delimiter stands at `i`. */
  predicate StandsAtByte(value: Text, i: nat, delim: Text) {
    i + |delim| <= |value| && value[i..i + |delim|] == delim
  }

  /** The pieces of `value` from `start` on, looking for the delimiter from `i` on. */
  function SplitFrom(value: Text, delim: Text, start: nat, i: nat): (r: seq<Text>)
    requires delim != [] && start <= i <= |value|
    ensures r != []
    decreases |value| - i
  {
    if i + |delim| > |value| then [value[start..]]
    else if StandsAtByte(value, i, delim) then [value[start..i]] + SplitFrom(value, delim, i + |delim|, i + |delim|)
    else SplitFrom(value, delim, start, i + 1)
  }

  function Characters(value: Text): seq<Text> {
    if value == [] then [] else [[value[0]]] + Characters(value[1..])
  }

  function Split(value: Text, delim: Text): seq<Text> {
    if delim == [] then Characters(value) else SplitFrom(value, delim, 0, 0)
  }

  function Join(parts: seq<Text>, delim: Text): Text {
    if parts == [] then []
    else if |parts| == 1 then parts[0]
    else parts[0] + (delim + Join(parts[1..], delim))
  }

  function ReplaceFrom(value: Text, pattern: Text, by_: Text, i: nat): Text
    requires pattern != [] && i <= |value|
    decreases |value| - i
  {
    if i == |value| then []
    else if StandsAtByte(value, i, pattern) then by_ + ReplaceFrom(value, pattern, by_, i + |pattern|)
    else [value[i]] + ReplaceFrom(value, pattern, by_, i + 1)
  }

  function ReplaceAll(value: Text, pattern: Text, by_: Text): Text {
    if pattern == [] then value else ReplaceFrom(value, pattern, by_, 0)
  }

  // ----- the loops -----

  method SplitText(value: Text, delim: Text) returns (result: seq<Text>)
    ensures result == Split(value, delim)
  {
    result := [];
    if |delim| == 0 {
      for i := 0 to |value|
        invariant result + Characters(value[i..]) == Characters(value)
      {
        assert value[i..][1..] == value[i + 1..];
        result := result + [[value[i]]];
      }
      return;
    }
    var start, i := 0, 0;
    while i <= |value| - |delim|
      invariant 0 <= start <= i <= |value|
      invariant result + SplitFrom(value, delim, start, i) == SplitFrom(value, delim, 0, 0)
    {
      if value[i..i + |delim|] == delim {
        result := result + [value[start..i]];
        i := i + |delim|;
        start := i;
      } else {
        i := i + 1;
      }
    }
    result := result + [value[start..]];
  }

  method JoinTexts(parts: seq<Text>, delim: Text) returns (result: Text)
    ensures result == Join(parts, delim)
  {
    result := [];
    for i := 0 to |parts|
      invariant result == Join(parts[..i], delim)
    {
      assert parts[..i + 1] == parts[..i] + [parts[i]];
      JoinAppend(parts[..i], parts[i], delim);
      if i > 0 {
        result := result + delim;
      }
      result := result + parts[i];
    }
    assert parts[..|parts|] == parts;
  }

  lemma {:induction false} JoinAppend(parts: seq<Text>, part: Text, delim: Text)
    ensures Join(parts + [part], delim) == if parts == [] then part else Join(parts, delim) + delim + part
    decreases |parts|
  {
    if |parts| == 1 {
      assert (parts + [part])[1..] == [part];
      Regroup(parts[0], delim, part);
    } else if |parts| > 1 {
      assert (parts + [part])[1..] == parts[1..] + [part];
      JoinAppend(parts[1..], part, delim);
      var later := Join(parts[1..], delim);
      assert parts[0] + (delim + (later + delim + part)) == (parts[0] + (delim + later)) + delim + part;
    }
  }

  method ReplaceAllIn(value: Text, pattern: Text, by_: Text) returns (result: Text)
    ensures result == ReplaceAll(value, pattern, by_)
  {
    if |pattern| == 0 {
      return value;
    }
    result := [];
    var i := 0;
    while i < |value|
      invariant 0 <= i <= |value|
      invariant result + ReplaceFrom(value, pattern, by_, i) == ReplaceFrom(value, pattern, by_, 0)
    {
      if i <= |value| - |pattern| && value[i..i + |pattern|] == pattern {
        Regroup(result, by_, ReplaceFrom(value, pattern, by_, i + |pattern|));
        result := result + by_;
        i := i + |pattern|;
      } else {
        Regroup(result, [value[i]], ReplaceFrom(value, pattern, by_, i + 1));
        result := result + [value[i]];
        i := i + 1;
      }
    }
  }

  lemma {:induction false} Regroup(a: Text, b: Text, c: Text)
    ensures a + (b + c) == a + b + c
  {
  }

  // ----- split and join -----

  lemma {:induction false} CharactersJoin(value: Text)
    ensures Join(Characters(value), []) == value
    decreases |value|
  {
    if value == [] {
    } else {
      CharactersJoin(value[1..]);
      assert Characters(value)[1..] == Characters(value[1..]);
      if |value| == 1 {
        assert value[1..] == [];
      }
    }
  }

  lemma {:induction false} JoinCons(first: Text, rest: seq<Text>, delim: Text)
    requires rest != []
    ensures Join([first] + rest, delim) == first + (delim + Join(rest, delim))
  {
    assert ([first] + rest)[1..] == rest;
  }

  /** Joining the pieces by what the delimiter is replaced with is replacing it; what stands before the
      place looked at has been copied already. */
  lemma {:induction false} JoinReplaces(value: Text, delim: Text, by_: Text, start: nat, i: nat)
    requires delim != [] && start <= i <= |value|
    ensures Join(SplitFrom(value, delim, start, i), by_) == value[start..i] + ReplaceFrom(value, delim, by_, i)
    decreases |value| - i
  {
    if i + |delim| > |value| {
      NothingReplaced(value, delim, by_, i);
      assert value[start..] == value[start..i] + value[i..];
    } else if StandsAtByte(value, i, delim) {
      var next := i + |delim|;
      JoinReplaces(value, delim, by_, next, next);
      JoinAtMatch(value[start..i], SplitFrom(value, delim, next, next), by_, value[next..next],
        ReplaceFrom(value, delim, by_, next));
    } else {
      JoinReplaces(value, delim, by_, start, i + 1);
      assert value[start..i + 1] == value[start..i] + [value[i]];
      Regroup(value[start..i], [value[i]], ReplaceFrom(value, delim, by_, i + 1));
    }
  }

  lemma {:induction false} JoinAtMatch(first: Text, rest: seq<Text>, by_: Text, none: Text, later: Text)
    requires rest != [] && none == [] && Join(rest, by_) == none + later
    ensures Join([first] + rest, by_) == first + (by_ + later)
  {
    JoinCons(first, rest, by_);
    assert none + later == later;
  }

  lemma {:induction false} NothingReplaced(value: Text, delim: Text, by_: Text, i: nat)
    requires delim != [] && i <= |value| && i + |delim| > |value|
    ensures ReplaceFrom(value, delim, by_, i) == value[i..]
    decreases |value| - i
  {
    if i >= |value| {
    } else {
      NothingReplaced(value, delim, by_, i + 1);
    }
  }

  /** Replacing every occurrence is joining the pieces by the replacement. */
  lemma {:induction false} ReplaceIsJoinedSplit(value: Text, delim: Text, by_: Text)
    requires delim != []
    ensures ReplaceAll(value, delim, by_) == Join(Split(value, delim), by_)
  {
    JoinReplaces(value, delim, by_, 0, 0);
    assert value[0..0] == [];
  }

  lemma {:induction false} ReplaceBySame(value: Text, delim: Text, i: nat)
    requires delim != [] && i <= |value|
    ensures ReplaceFrom(value, delim, delim, i) == value[i..]
    decreases |value| - i
  {
    if i < |value| && StandsAtByte(value, i, delim) {
      ReplaceBySame(value, delim, i + |delim|);
      assert value[i..] == value[i..i + |delim|] + value[i + |delim|..];
    } else if i < |value| {
      ReplaceBySame(value, delim, i + 1);
    }
  }

  /** Joining the pieces by the delimiter gives the value back, the empty delimiter included. */
  lemma {:induction false} SplitJoins(value: Text, delim: Text)
    ensures Join(Split(value, delim), delim) == value
  {
    if delim == [] {
      CharactersJoin(value);
    } else {
      ReplaceIsJoinedSplit(value, delim, delim);
      ReplaceBySame(value, delim, 0);
    }
  }

  /** The text stands nowhere in the piece. */
  ghost predicate Free(piece: Text, delim: Text) {
    forall k: nat {:trigger StandsAtByte(piece, k, delim)} :: !StandsAtByte(piece, k, delim)
  }

  /** Nothing before `i` from `start` on is the start of a delimiter. */
  ghost predicate Passed(value: Text, delim: Text, start: nat, i: nat) {
    forall k: nat {:trigger StandsAtByte(value, k, delim)} | start <= k < i :: !StandsAtByte(value, k, delim)
  }

  lemma {:induction false} SliceOfSlice(value: Text, start: nat, end: nat, a: nat, b: nat)
    requires start <= end <= |value| && a <= b <= end - start
    ensures value[start..end][a..b] == value[start + a..start + b]
  {
    var left, right := value[start..end][a..b], value[start + a..start + b];
    forall j | 0 <= j < b - a ensures left[j] == right[j] {
      assert left[j] == value[start..end][a + j] == value[start + (a + j)];
    }
  }

  lemma {:induction false} PassedIsFree(value: Text, delim: Text, start: nat, i: nat, end: nat)
    requires delim != [] && start <= i <= end <= |value| && Passed(value, delim, start, i)
    requires end == i || i + |delim| > |value|
    ensures Free(value[start..end], delim)
  {
    var piece := value[start..end];
    forall k: nat ensures !StandsAtByte(piece, k, delim) {
      if StandsAtByte(piece, k, delim) {
        SliceOfSlice(value, start, end, k, k + |delim|);
        assert StandsAtByte(value, start + k, delim);
      }
    }
  }

  /** No piece contains the delimiter. */
  lemma {:induction false} PiecesFree(value: Text, delim: Text, start: nat, i: nat)
    requires delim != [] && start <= i <= |value| && Passed(value, delim, start, i)
    ensures forall j | 0 <= j < |SplitFrom(value, delim, start, i)| :: Free(SplitFrom(value, delim, start, i)[j], delim)
    decreases |value| - i
  {
    if i + |delim| > |value| {
      PassedIsFree(value, delim, start, i, |value|);
      assert value[start..|value|] == value[start..];
    } else if StandsAtByte(value, i, delim) {
      PassedIsFree(value, delim, start, i, i);
      PiecesFree(value, delim, i + |delim|, i + |delim|);
    } else {
      PiecesFree(value, delim, start, i + 1);
    }
  }

  lemma {:induction false} SplitPiecesFree(value: Text, delim: Text)
    requires delim != []
    ensures forall j | 0 <= j < |Split(value, delim)| :: Free(Split(value, delim)[j], delim)
  {
    PiecesFree(value, delim, 0, 0);
  }

  /** An empty delimiter splits into single bytes, and an empty pattern is replaced nowhere. */
  lemma {:induction false} EmptyDelimiter(value: Text, by_: Text)
    ensures |Split(value, [])| == |value| && forall i | 0 <= i < |value| :: Split(value, [])[i] == [value[i]]
    ensures ReplaceAll(value, [], by_) == value
    decreases value
  {
    if value == [] {
    } else {
      EmptyDelimiter(value[1..], by_);
      assert Split(value, []) == [[value[0]]] + Split(value[1..], []);
    }
  }

  // ----- join and split -----

  /** From `i` on, a part without the delimiter's byte and then the other parts are split again. */
  lemma {:induction false} PartsSplit(value: Text, c: Byte, start: nat, i: nat, part: Text, rest: seq<Text>)
    requires start <= i <= |value| && c !in part
    requires value[i..] == part + if rest == [] then [] else [c] + Join(rest, [c])
    requires forall j | 0 <= j < |rest| :: c !in rest[j]
    ensures SplitFrom(value, [c], start, i) == [value[start..i] + part] + rest
    decreases |value| - i
  {
    if part == [] {
      assert value[start..i] + part == value[start..i];
      if rest == [] {
        assert i == |value| && value[start..] == value[start..i];
      } else {
        assert value[i] == value[i..][0] == c;
        assert StandsAtByte(value, i, [c]);
        assert value[i + 1..] == value[i..][1..] == Join(rest, [c]);
        PartsSplit(value, c, i + 1, i + 1, rest[0], rest[1..]);
        assert value[i + 1..i + 1] + rest[0] == rest[0];
        assert [rest[0]] + rest[1..] == rest;
      }
    } else {
      assert value[i] == value[i..][0] == part[0];
      assert value[i..i + 1] == [value[i]];
      assert value[i + 1..] == value[i..][1..];
      assert part == [part[0]] + part[1..];
      PartsSplit(value, c, start, i + 1, part[1..], rest);
      assert value[start..i + 1] + part[1..] == value[start..i] + part;
    }
  }

  /** Splitting what was joined by a single byte gives the parts back, if the byte is in none of them. */
  lemma {:induction false} JoinSplits(parts: seq<Text>, c: Byte)
    requires parts != [] && forall j | 0 <= j < |parts| :: c !in parts[j]
    ensures Split(Join(parts, [c]), [c]) == parts
  {
    var value := Join(parts, [c]);
    assert value[0..] == value;
    if |parts| == 1 {
      assert parts[1..] == [];
      assert parts[0] + [] == parts[0];
    }
    PartsSplit(value, c, 0, 0, parts[0], parts[1..]);
    assert value[0..0] + parts[0] == parts[0];
    assert [parts[0]] + parts[1..] == parts;
  }
}
