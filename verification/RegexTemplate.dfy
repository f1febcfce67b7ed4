/** What a replacement template means, and that no match is passed over. */
module RegexTemplate {
  import opened RegexMatch
  import opened RegexRelation
  import opened RegexFind
  import opened Bytes
  import opened Slices
  import opened RegexText
  import opened RegexPrint
  import opened RegexReplace

  // ----- templates as lists of parts -----

  /** Text that is kept, a reference to a group by either mark, a doubled dollar, the whole match. */
  datatype Part = Kept(t: Text) | Reference(mark: Byte, k: nat) | Doubled | Whole

  function WritePart(part: Part): Text {
    match part
    case Kept(t) => t
    case Reference(mark, k) => [mark] + Decimal(k)
    case Doubled => [36, 36]
    case Whole => [36, 38]
  }

  function WriteParts(parts: seq<Part>): Text {
    if parts == [] then [] else WritePart(parts[0]) + WriteParts(parts[1..])
  }

  /** Kept text holds no mark, and does not go on with the number of a reference before it. */
  predicate WellWritten(parts: seq<Part>) {
    parts == [] ||
    (&& (match parts[0]
         case Kept(t) => t != [] && 36 !in t && 92 !in t
         case Reference(mark, _) =>
           (mark == 36 || mark == 92) && (|parts| > 1 && parts[1].Kept? && parts[1].t != [] ==> !IsDigit(parts[1].t[0]))
         case _ => true)
     && WellWritten(parts[1..]))
  }

  /** The bytes that a group has captured: nothing if it has captured nothing, or does not exist. */
  function Captured(text: Text, v: View, caps: Captures, k: nat): Text
    requires ViewOk(v, text) && CapturesOk(caps, |v.codepoints|)
  {
    if k >= |caps| || caps[k].Unset? then []
    else
      OffsetsRise(v, text, caps[k].start, caps[k].end);
      text[v.offsets[caps[k].start]..v.offsets[caps[k].end]]
  }

  function PartMeans(part: Part, text: Text, v: View, caps: Captures): Text
    requires ViewOk(v, text) && CapturesOk(caps, |v.codepoints|)
  {
    match part
    case Kept(t) => t
    case Reference(_, k) => Captured(text, v, caps, k)
    case Doubled => [36]
    case Whole => Captured(text, v, caps, 0)
  }

  function PartsMean(parts: seq<Part>, text: Text, v: View, caps: Captures): Text
    requires ViewOk(v, text) && CapturesOk(caps, |v.codepoints|)
  {
    if parts == [] then [] else PartMeans(parts[0], text, v, caps) + PartsMean(parts[1..], text, v, caps)
  }

  // ----- expanding them -----

  /** Where the part of the template that starts at `i` ends. */
  function PartEnd(r: Text, i: nat): (j: nat)
    requires i < |r|
    ensures i < j <= |r|
  {
    if i + 1 < |r| && (r[i] == 36 || r[i] == 92) && IsDigit(r[i + 1]) then Number(r, i + 1, 0).1
    else if i + 1 < |r| && r[i] == 36 && (r[i + 1] == 36 || r[i + 1] == 38) then i + 2
    else i + 1
  }

  function PartText(r: Text, i: nat, text: Text, v: View, caps: Captures): Text
    requires i < |r| && ViewOk(v, text) && CapturesOk(caps, |v.codepoints|)
  {
    if i + 1 < |r| && (r[i] == 36 || r[i] == 92) && IsDigit(r[i + 1]) then
      Captured(text, v, caps, Number(r, i + 1, 0).0)
    else if i + 1 < |r| && r[i] == 36 && r[i + 1] == 36 then [36]
    else if i + 1 < |r| && r[i] == 36 && r[i + 1] == 38 then Captured(text, v, caps, 0)
    else [r[i]]
  }

  ghost predicate ExpandsTo(r: Text, i: nat, text: Text, v: View, caps: Captures, x: Text) {
    && i <= |r| && ViewOk(v, text) && CapturesOk(caps, |v.codepoints|)
    && forall z {:trigger Unseal(z)} :: Unseal(z) ==> Expand(r, i, text, v, caps) == x
  }

  /** The template is expanded part by part. */
  lemma {:induction false} ExpandIsParts(r: Text, i: nat, text: Text, v: View, caps: Captures)
    requires i < |r| && ViewOk(v, text) && CapturesOk(caps, |v.codepoints|)
    ensures Expand(r, i, text, v, caps)
         == PartText(r, i, text, v, caps) + Expand(r, PartEnd(r, i), text, v, caps)
  {
    assert RefersAt(r, i) <==> i + 1 < |r| && (r[i] == 36 || r[i] == 92) && IsDigit(r[i + 1]);
  }

  lemma {:induction false} ExpandStep(r: Text, i: nat, text: Text, v: View, caps: Captures, x: Text)
    requires i < |r| && ExpandsTo(r, PartEnd(r, i), text, v, caps, x)
    ensures ExpandsTo(r, i, text, v, caps, PartText(r, i, text, v, caps) + x)
  {
    assert Unseal(0);
    ExpandIsParts(r, i, text, v, caps);
  }

  lemma {:induction false} ExpandRest(r: Text, i: nat, text: Text, v: View, caps: Captures, x: Text) returns (y: Text)
    requires i < |r| && ExpandsTo(r, i, text, v, caps, x)
    ensures ExpandsTo(r, PartEnd(r, i), text, v, caps, y) && x == PartText(r, i, text, v, caps) + y
  {
    assert Unseal(0);
    ExpandIsParts(r, i, text, v, caps);
    y := Expand(r, PartEnd(r, i), text, v, caps);
  }

  lemma {:induction false} ExpandEnds(r: Text, text: Text, v: View, caps: Captures)
    requires ViewOk(v, text) && CapturesOk(caps, |v.codepoints|)
    ensures ExpandsTo(r, |r|, text, v, caps, [])
  {
  }

  // ----- one part -----

  lemma {:induction false} KeptExpands(r: Text, i: nat, t: Text, text: Text, v: View, caps: Captures, x: Text)
    requires i + |t| <= |r| && r[i..i + |t|] == t && 36 !in t && 92 !in t
    requires ExpandsTo(r, i + |t|, text, v, caps, x)
    ensures ExpandsTo(r, i, text, v, caps, t + x)
    decreases |t|
  {
    if t == [] {
      assert t + x == x;
    } else {
      assert r[i] == r[i..i + |t|][0] == t[0] && t[0] in t;
      assert r[i + 1..i + |t|] == r[i..i + |t|][1..] == t[1..];
      KeptExpands(r, i + 1, t[1..], text, v, caps, x);
      ExpandStep(r, i, text, v, caps, t[1..] + x);
      assert [t[0]] + (t[1..] + x) == t + x;
    }
  }

  lemma {:induction false} ReferenceStands(r: Text, i: nat, mark: Byte, d: Text)
    requires i + 1 + |d| <= |r| && r[i..i + 1 + |d|] == [mark] + d && d != []
    ensures r[i] == mark && r[i + 1] == d[0] && Stands(r, i + 1, d)
  {
    var w := r[i..i + 1 + |d|];
    assert r[i] == w[0] && r[i + 1] == w[1];
    forall n | 0 <= n < |d|
      ensures r[i + 1 + n] == d[n]
    {
      assert w[1 + n] == d[n];
    }
  }

  lemma {:induction false} ReferenceIs(r: Text, i: nat, mark: Byte, k: nat, text: Text, v: View, caps: Captures)
    requires ViewOk(v, text) && CapturesOk(caps, |v.codepoints|) && (mark == 36 || mark == 92)
    requires var j := i + 1 + |Decimal(k)|; j <= |r| && r[i..j] == [mark] + Decimal(k) && (j < |r| ==> !IsDigit(r[j]))
    ensures i < |r| && PartEnd(r, i) == i + 1 + |Decimal(k)|
    ensures PartText(r, i, text, v, caps) == Captured(text, v, caps, k)
  {
    DecimalDigits(k);
    ReferenceStands(r, i, mark, Decimal(k));
    NumberReadsBack(r, i + 1, k);
  }

  lemma {:induction false} PairIs(r: Text, i: nat, b: Byte, text: Text, v: View, caps: Captures)
    requires ViewOk(v, text) && CapturesOk(caps, |v.codepoints|) && (b == 36 || b == 38)
    requires i + 2 <= |r| && r[i..i + 2] == [36, b]
    ensures PartEnd(r, i) == i + 2
    ensures PartText(r, i, text, v, caps) == if b == 36 then [36] else Captured(text, v, caps, 0)
  {
    assert r[i] == r[i..i + 2][0] == 36 && r[i + 1] == r[i..i + 2][1] == b;
  }

  lemma {:induction false} PartStands(r: Text, i: nat, w: Text, rest: Text)
    requires i <= |r| && r[i..] == w + rest
    ensures i + |w| <= |r| && r[i..i + |w|] == w && r[i + |w|..] == rest
  {
    assert |r| - i == |w| + |rest|;
    assert r[i..i + |w|] == r[i..][..|w|];
    assert r[i + |w|..] == r[i..][|w|..];
  }

  /** The first part, where it stands in front of the others. */
  lemma {:induction false} FirstPart(r: Text, i: nat, parts: seq<Part>, rest: Text) returns (j: nat)
    requires WellWritten(parts) && parts != [] && rest == WriteParts(parts[1..])
    requires i <= |r| && r[i..] == WritePart(parts[0]) + rest
    ensures j == i + |WritePart(parts[0])| && j <= |r| && r[i..j] == WritePart(parts[0]) && r[j..] == rest
    ensures parts[0].Reference? && j < |r| ==> !IsDigit(r[j])
  {
    j := i + |WritePart(parts[0])|;
    PartStands(r, i, WritePart(parts[0]), rest);
    if j < |r| {
      NextPart(parts[1..]);
      assert r[j] == rest[0];
    }
  }

  lemma {:induction false} PartExpands(
      r: Text, i: nat, j: nat, part: Part, text: Text, v: View, caps: Captures, x: Text)
    requires i <= j <= |r| && r[i..j] == WritePart(part) && j == i + |WritePart(part)|
    requires part.Kept? ==> 36 !in part.t && 92 !in part.t
    requires part.Reference? ==> (part.mark == 36 || part.mark == 92) && (j < |r| ==> !IsDigit(r[j]))
    requires ExpandsTo(r, j, text, v, caps, x)
    ensures ExpandsTo(r, i, text, v, caps, PartMeans(part, text, v, caps) + x)
  {
    match part
    case Kept(t) => KeptExpands(r, i, t, text, v, caps, x);
    case Reference(mark, k) =>
      ReferenceIs(r, i, mark, k, text, v, caps);
      ExpandStep(r, i, text, v, caps, x);
    case Doubled =>
      PairIs(r, i, 36, text, v, caps);
      ExpandStep(r, i, text, v, caps, x);
    case Whole =>
      PairIs(r, i, 38, text, v, caps);
      ExpandStep(r, i, text, v, caps, x);
  }

  /** Only kept text begins with a digit. */
  lemma {:induction false} NextPart(parts: seq<Part>)
    requires WellWritten(parts) && WriteParts(parts) != []
    ensures parts != [] && WriteParts(parts)[0] == WritePart(parts[0])[0]
    ensures !parts[0].Kept? ==> !IsDigit(WriteParts(parts)[0])
    ensures parts[0].Kept? ==> parts[0].t != [] && WriteParts(parts)[0] == parts[0].t[0]
  {
  }

  lemma {:induction false} PartsExpand(r: Text, i: nat, parts: seq<Part>, text: Text, v: View, caps: Captures)
    requires ViewOk(v, text) && CapturesOk(caps, |v.codepoints|) && WellWritten(parts)
    requires i <= |r| && r[i..] == WriteParts(parts)
    ensures ExpandsTo(r, i, text, v, caps, PartsMean(parts, text, v, caps))
    decreases |parts|
  {
    if parts == [] {
      ExpandEnds(r, text, v, caps);
    } else {
      var j := FirstPart(r, i, parts, WriteParts(parts[1..]));
      PartsExpand(r, j, parts[1..], text, v, caps);
      PartExpands(r, i, j, parts[0], text, v, caps, PartsMean(parts[1..], text, v, caps));
    }
  }

  /** A template means its parts, one after the other. */
  lemma {:induction false} TemplateMeans(parts: seq<Part>, text: Text, v: View, caps: Captures)
    requires ViewOk(v, text) && CapturesOk(caps, |v.codepoints|) && WellWritten(parts)
    ensures Expand(WriteParts(parts), 0, text, v, caps) == PartsMean(parts, text, v, caps)
  {
    var r := WriteParts(parts);
    assert r[0..] == r;
    PartsExpand(r, 0, parts, text, v, caps);
    assert Unseal(0);
  }

  // ----- replacing by them -----

  /** Each match has been replaced with what the parts mean for its captures. */
  ghost predicate Filled(es: seq<Text>, parts: seq<Part>, text: Text, v: View, ms: seq<Found>)
    requires ViewOk(v, text) && |es| == |ms|
    requires forall i | 0 <= i < |ms| :: ms[i].Found? && CapturesOk(ms[i].caps, |v.codepoints|)
  {
    forall i | 0 <= i < |es| :: es[i] == PartsMean(parts, text, v, ms[i].caps)
  }

  lemma {:induction false} MatchesSet(ms: seq<Found>, search: nat, n: nat, i: nat)
    requires MatchesOk(ms, search, n) && i < |ms|
    ensures ms[i].Found? && ms[i].start <= ms[i].end <= n && CapturesOk(ms[i].caps, n)
    decreases |ms|
  {
    if i == 0 {
    } else {
      MatchesSet(ms[1..], Next(ms[0]), n, i - 1);
    }
  }

  lemma {:induction false} ExpansionAt(r: Text, text: Text, v: View, ms: seq<Found>, search: nat, i: nat)
    requires ViewOk(v, text) && MatchesOk(ms, search, |v.codepoints|) && i < |ms|
    ensures ms[i].Found? && CapturesOk(ms[i].caps, |v.codepoints|)
    ensures Expansions(r, text, v, ms, search)[i] == Expand(r, 0, text, v, ms[i].caps)
    decreases |ms|
  {
    if i == 0 {
    } else {
      ExpansionAt(r, text, v, ms[1..], Next(ms[0]), i - 1);
    }
  }

  /** Replacing all matches puts between the pieces of the split what the template means for each match: captured text,
      kept text and single dollars. */
  lemma {:induction false} ReplaceByParts(parts: seq<Part>, text: Text, s: Subject, v: View, prog: Program)
      returns (es: seq<Text>)
    requires ViewOk(v, text) && s.text == v.codepoints && WellWritten(parts)
    ensures var ms := Matches(s, prog, 0);
      && |es| == |ms| && |SplitOf(text, s, v, prog)| == |es| + 1
      && (forall i | 0 <= i < |ms| :: ms[i].Found? && CapturesOk(ms[i].caps, |v.codepoints|))
      && Filled(es, parts, text, v, ms)
      && ReplaceOf(WriteParts(parts), text, s, v, prog) == Interleave(SplitOf(text, s, v, prog), es)
  {
    var ms, r := Matches(s, prog, 0), WriteParts(parts);
    es := Expansions(r, text, v, ms, 0);
    forall i | 0 <= i < |ms|
      ensures ms[i].Found? && CapturesOk(ms[i].caps, |v.codepoints|) && es[i] == PartsMean(parts, text, v, ms[i].caps)
    {
      ExpansionAt(r, text, v, ms, 0, i);
      TemplateMeans(parts, text, v, ms[i].caps);
    }
  }

  /** One reference alone: each match is replaced with what that group has captured in it. */
  lemma {:induction false} ReplaceByGroup(mark: Byte, k: nat, text: Text, s: Subject, v: View, prog: Program)
      returns (es: seq<Text>)
    requires ViewOk(v, text) && s.text == v.codepoints && (mark == 36 || mark == 92)
    ensures var ms := Matches(s, prog, 0);
      && |es| == |ms| && |SplitOf(text, s, v, prog)| == |es| + 1
      && (forall i | 0 <= i < |ms| ::
            && ms[i].Found? && CapturesOk(ms[i].caps, |v.codepoints|)
            && es[i] == Captured(text, v, ms[i].caps, k))
      && ReplaceOf([mark] + Decimal(k), text, s, v, prog) == Interleave(SplitOf(text, s, v, prog), es)
  {
    var parts := [Reference(mark, k)];
    assert parts[1..] == [];
    assert WriteParts(parts) == [mark] + Decimal(k);
    es := ReplaceByParts(parts, text, s, v, prog);
    var ms := Matches(s, prog, 0);
    forall i | 0 <= i < |ms|
      ensures es[i] == Captured(text, v, ms[i].caps, k)
    {
      assert es[i] == PartsMean(parts, text, v, ms[i].caps);
      assert PartsMean(parts[1..], text, v, ms[i].caps) == [];
    }
  }

  // ----- any template, cut in two -----

  /** Reading the template part by part from `i` on, a part ends at `j`. */
  predicate Between(r: Text, i: nat, j: nat)
    requires i <= |r|
    decreases |r| - i
  {
    i == j || (i < j && i < |r| && Between(r, PartEnd(r, i), j))
  }

  lemma {:induction false} NumberOfFront(a: Text, b: Text, i: nat, value: nat)
    requires i <= |a| && Number(a + b, i, value).1 <= |a|
    ensures Number(a, i, value) == Number(a + b, i, value)
    decreases |a| - i
  {
    if i < |a| {
      assert (a + b)[i] == a[i];
      if IsDigit(a[i]) {
        NumberOfFront(a, b, i + 1, value * 10 + (a[i] as int - 48));
      }
    } else {
      assert Number(a + b, i, value).1 <= i;
    }
  }

  lemma {:induction false} PartOfFront(a: Text, b: Text, i: nat, text: Text, v: View, caps: Captures)
    requires ViewOk(v, text) && CapturesOk(caps, |v.codepoints|) && i < |a| && PartEnd(a + b, i) <= |a|
    ensures PartEnd(a, i) == PartEnd(a + b, i)
    ensures PartText(a, i, text, v, caps) == PartText(a + b, i, text, v, caps)
  {
    var r := a + b;
    assert r[i] == a[i] && (i + 1 < |a| ==> r[i + 1] == a[i + 1]);
    if i + 1 < |r| && (r[i] == 36 || r[i] == 92) && IsDigit(r[i + 1]) {
      NumberOfFront(a, b, i + 1, 0);
    }
  }

  lemma {:induction false} NumberBehind(a: Text, b: Text, i: nat, value: nat)
    requires i <= |b|
    ensures Number(a + b, |a| + i, value) == (Number(b, i, value).0, |a| + Number(b, i, value).1)
    decreases |b| - i
  {
    if i < |b| {
      assert (a + b)[|a| + i] == b[i];
      if IsDigit(b[i]) {
        NumberBehind(a, b, i + 1, value * 10 + (b[i] as int - 48));
      }
    }
  }

  lemma {:induction false} PartBehind(a: Text, b: Text, i: nat, text: Text, v: View, caps: Captures)
    requires ViewOk(v, text) && CapturesOk(caps, |v.codepoints|) && i < |b|
    ensures PartEnd(a + b, |a| + i) == |a| + PartEnd(b, i)
    ensures PartText(a + b, |a| + i, text, v, caps) == PartText(b, i, text, v, caps)
  {
    var r := a + b;
    assert r[|a| + i] == b[i] && (i + 1 < |b| ==> r[|a| + i + 1] == b[i + 1]);
    if i + 1 < |b| && (b[i] == 36 || b[i] == 92) && IsDigit(b[i + 1]) {
      NumberBehind(a, b, i + 1, 0);
    }
  }

  lemma {:induction false} ExpandBehind(a: Text, b: Text, i: nat, text: Text, v: View, caps: Captures, x: Text)
    requires ExpandsTo(b, i, text, v, caps, x)
    ensures ExpandsTo(a + b, |a| + i, text, v, caps, x)
    decreases |b| - i
  {
    if i < |b| {
      var y := ExpandRest(b, i, text, v, caps, x);
      ExpandBehind(a, b, PartEnd(b, i), text, v, caps, y);
      PartBehind(a, b, i, text, v, caps);
      ExpandStep(a + b, |a| + i, text, v, caps, y);
    } else {
      assert Unseal(0);
      ExpandEnds(a + b, text, v, caps);
    }
  }

  lemma {:induction false} CutExpands(a: Text, b: Text, i: nat, text: Text, v: View, caps: Captures, x: Text, y: Text)
    requires ExpandsTo(a, i, text, v, caps, x) && ExpandsTo(b, 0, text, v, caps, y) && Between(a + b, i, |a|)
    ensures ExpandsTo(a + b, i, text, v, caps, x + y)
    decreases |a| - i
  {
    if i == |a| {
      ExpandBehind(a, b, 0, text, v, caps, y);
      assert Unseal(0);
      assert x == [] && x + y == y;
    } else {
      var j := PartEnd(a + b, i);
      BetweenUpTo(a + b, j, |a|);
      PartOfFront(a, b, i, text, v, caps);
      var rest := ExpandRest(a, i, text, v, caps, x);
      CutExpands(a, b, j, text, v, caps, rest, y);
      ExpandStep(a + b, i, text, v, caps, rest + y);
      Regroup(PartText(a, i, text, v, caps), rest, y);
    }
  }

  lemma {:induction false} BetweenUpTo(r: Text, i: nat, j: nat)
    requires i <= |r| && Between(r, i, j)
    ensures i <= j
  {
  }

  /** A template that is cut between two of its parts expands to the expansions of the two halves. */
  lemma {:induction false} ExpandCut(a: Text, b: Text, text: Text, v: View, caps: Captures)
    requires ViewOk(v, text) && CapturesOk(caps, |v.codepoints|) && Between(a + b, 0, |a|)
    ensures Expand(a + b, 0, text, v, caps) == Expand(a, 0, text, v, caps) + Expand(b, 0, text, v, caps)
  {
    CutExpands(a, b, 0, text, v, caps, Expand(a, 0, text, v, caps), Expand(b, 0, text, v, caps));
    assert Unseal(0);
  }

  // ----- no match is passed over -----

  /** Where a search may go on: behind a match, and behind the next character if the match is empty. */
  function Behind(m: Found): nat
    requires m.Found?
  {
    m.end + if m.start == m.end then 1 else 0
  }

  ghost predicate Follows(s: Subject, prog: Program, ms: seq<Found>, search: nat, i: nat)
    requires i < |ms| && forall j | 0 <= j < |ms| :: ms[j].Found?
  {
    ms[i] == Find(s, prog, if i == 0 then search else Behind(ms[i - 1]))
  }

  /** Each match is what is found behind the one before it, and behind the last one nothing is. */
  lemma {:induction false} MatchesFollow(s: Subject, prog: Program, search: nat)
    ensures var ms := Matches(s, prog, search);
      && (forall j | 0 <= j < |ms| :: ms[j].Found?)
      && (forall i | 0 <= i < |ms| :: Follows(s, prog, ms, search, i))
      && Find(s, prog, if ms == [] then search else Behind(ms[|ms| - 1])).NoMatch?
    decreases |s.text| + 1 - search
  {
    var ms := Matches(s, prog, search);
    if ms != [] {
      var m := Find(s, prog, search);
      var rest := Matches(s, prog, Behind(m));
      assert Next(m) == Behind(m) && ms == [m] + rest;
      MatchesFollow(s, prog, Behind(m));
      forall i | 0 <= i < |ms|
        ensures ms[i].Found?
      {
        assert i > 0 ==> ms[i] == rest[i - 1];
      }
      forall i | 0 <= i < |ms|
        ensures Follows(s, prog, ms, search, i)
      {
        if i > 0 {
          assert Follows(s, prog, rest, Behind(m), i - 1);
          assert ms[i] == rest[i - 1] && (i > 1 ==> ms[i - 1] == rest[i - 2]);
        }
      }
    }
  }

  /** A found match reaches over the position: it is inside the match, or where the match begins. */
  ghost predicate Covered(ms: seq<Found>, p: nat) {
    exists i | 0 <= i < |ms| :: ms[i].Found? && ms[i].start <= p < Behind(ms[i])
  }

  lemma {:induction false} CoveredLater(m: Found, rest: seq<Found>, p: nat)
    requires Covered(rest, p)
    ensures Covered([m] + rest, p)
  {
    var i :| 0 <= i < |rest| && rest[i].Found? && rest[i].start <= p < Behind(rest[i]);
    assert ([m] + rest)[i + 1] == rest[i];
  }

  /** In a linear pattern every position at which there is any match at all is covered by one that is found. */
  lemma {:induction false} NothingMissed(s: Subject, prog: Program, search: nat, p: nat)
    requires Linear(prog.root) && search <= p && MatchesAt(s, prog, p)
    ensures Covered(Matches(s, prog, search), p)
    decreases |s.text| + 1 - search
  {
    var m := Find(s, prog, search);
    FindLeftmost(s, prog, search);
    assert m.Found? && m.start <= p;
    var rest := Matches(s, prog, Next(m));
    assert Matches(s, prog, search) == [m] + rest;
    if p < Behind(m) {
      assert ([m] + rest)[0] == m;
    } else {
      NothingMissed(s, prog, Behind(m), p);
      CoveredLater(m, rest, p);
    }
  }
}
