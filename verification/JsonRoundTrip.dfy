/** What is printed, compact or indented, is valid and is parsed back to the value printed. */
module JsonRoundTrip {
  import opened Wrappers
  import opened Bytes
  import opened Slices
  import opened Json

  // ----- what holds of the numbers in a value -----

  /** Every number in the value satisfies `p`. */
  predicate All<N>(p: N -> bool, v: Value<N>)
    decreases Size(v)
  {
    match v
    case Number(n) => p(n)
    case Arr(items) => AllItems(p, items)
    case Obj(members) => AllMembers(p, members)
    case _ => true
  }

  predicate AllItems<N>(p: N -> bool, items: seq<Value<N>>)
    decreases SizeItems(items)
  {
    |items| == 0 || (All(p, items[0]) && AllItems(p, items[1..]))
  }

  predicate AllMembers<N>(p: N -> bool, members: seq<Member<N>>)
    decreases SizeMembers(members)
  {
    |members| == 0 || (All(p, members[0].value) && AllMembers(p, members[1..]))
  }

  lemma {:induction false} AllWeaker<N>(p: N -> bool, q: N -> bool, v: Value<N>)
    requires All(p, v) && forall n :: p(n) ==> q(n)
    ensures All(q, v)
    decreases Size(v)
  {
    match v
    case Arr(items) => AllItemsWeaker(p, q, items);
    case Obj(members) => AllMembersWeaker(p, q, members);
    case _ =>
  }

  lemma {:induction false} AllItemsWeaker<N>(p: N -> bool, q: N -> bool, items: seq<Value<N>>)
    requires AllItems(p, items) && forall n :: p(n) ==> q(n)
    ensures AllItems(q, items)
    decreases SizeItems(items)
  {
    if items == [] {
    } else {
      AllWeaker(p, q, items[0]);
      AllItemsWeaker(p, q, items[1..]);
    }
  }

  lemma {:induction false} AllMembersWeaker<N>(p: N -> bool, q: N -> bool, members: seq<Member<N>>)
    requires AllMembers(p, members) && forall n :: p(n) ==> q(n)
    ensures AllMembers(q, members)
    decreases SizeMembers(members)
  {
    if members == [] {
    } else {
      AllWeaker(p, q, members[0].value);
      AllMembersWeaker(p, q, members[1..]);
    }
  }

  predicate IsSolid(l: Text) {
    |l| > 0 && !IsWhitespace(l[0]) && l[0] != CLOSE_BRACKET && l[0] != CLOSE_BRACE
  }

  /** The text of the number starts like an element. */
  function Solid<N>(f: Floats<N>): N -> bool {
    n => IsSolid(f.show(n))
  }

  /** The text of the number is in the grammar of the number parser. */
  function Written<N>(f: Floats<N>): N -> bool {
    n => NumberEnd(f.show(n), 0) == Some(|f.show(n)|)
  }

  /** The value that comes back: every number is converted to text and from text again. */
  function Reread<N>(f: Floats<N>, v: Value<N>): Value<N>
    decreases Size(v)
  {
    match v
    case Number(n) => Number(f.read(f.show(n)))
    case Arr(items) => Arr(RereadItems(f, items))
    case Obj(members) => Obj(RereadMembers(f, members))
    case _ => v
  }

  function RereadItems<N>(f: Floats<N>, items: seq<Value<N>>): seq<Value<N>>
    decreases SizeItems(items)
  {
    if |items| == 0 then [] else [Reread(f, items[0])] + RereadItems(f, items[1..])
  }

  function RereadMembers<N>(f: Floats<N>, members: seq<Member<N>>): seq<Member<N>>
    decreases SizeMembers(members)
  {
    if |members| == 0 then []
    else [Member(members[0].key, Reread(f, members[0].value))] + RereadMembers(f, members[1..])
  }

  function RereadMember<N>(f: Floats<N>, m: Member<N>): Member<N> {
    Member(m.key, Reread(f, m.value))
  }

  /** The text ends at `j`, or something follows that continues no number. */
  ghost predicate Stops(t: Text, j: nat) {
    j < |t| ==> t[j] == COMMA || t[j] == CLOSE_BRACKET || t[j] == CLOSE_BRACE || IsWhitespace(t[j])
  }

  // ----- what the parser reads, sealed -----

  /** A value is read from `i` to `q`. */
  ghost predicate ValueAt<N>(f: Floats<N>, t: Text, i: nat, v: Value<N>, q: nat) {
    i < q <= |t| && forall k {:trigger Unseal(k)} :: Unseal(k) ==> ParseValue(f, t, i) == Ok(v, q)
  }

  ghost predicate KeyAt(t: Text, i: nat, key: Text, q: nat) {
    i < q <= |t| && forall k {:trigger Unseal(k)} :: Unseal(k) ==> ParseKey(t, i) == Ok(key, q)
  }

  /** The elements from `i` on, after those before them, are read as an array up to `q`. */
  ghost predicate ItemsAt<N>(f: Floats<N>, t: Text, i: nat, before: seq<Value<N>>, items: seq<Value<N>>, q: nat) {
    i < q <= |t| && forall k {:trigger Unseal(k)} :: Unseal(k) ==> ParseItems(f, t, i, before) == Ok(Arr(items), q)
  }

  ghost predicate MembersAt<N>(f: Floats<N>, t: Text, i: nat, before: seq<Member<N>>, members: seq<Member<N>>, q: nat) {
    i < q <= |t| && forall k {:trigger Unseal(k)} :: Unseal(k) ==> ParseMembers(f, t, i, before) == Ok(Obj(members), q)
  }

  // ----- whitespace -----

  ghost predicate AllSpace(w: Text) {
    forall i | 0 <= i < |w| :: IsWhitespace(w[i])
  }

  lemma {:induction false} BreakIsSpace(level: nat, pretty: bool)
    ensures AllSpace(Break(level, pretty))
  {
    if pretty {
      IndentIsSpace(level);
    }
  }

  lemma {:induction false} IndentIsSpace(level: nat)
    ensures AllSpace(Indent(level))
  {
    if level == 0 {
    } else {
      IndentIsSpace(level - 1);
    }
  }

  lemma {:induction false} Skips(t: Text, i: nat, w: Text)
    requires AllSpace(w) && Stands(t, i, w)
    requires i + |w| < |t| ==> !IsWhitespace(t[i + |w|])
    ensures SkipWs(t, i) == i + |w|
    decreases |w|
  {
    if w == [] {
    } else {
      StandsAt(t, i, w, 0);
      assert w == [w[0]] + w[1..];
      StandsSplit(t, i, [w[0]], w[1..]);
      Skips(t, i + 1, w[1..]);
    }
  }

  // ----- strings -----

  lemma {:induction false} EscapedByteReads(t: Text, i: nat, c: Byte, result: Text)
    requires Stands(t, i, EscapeByte(c))
    ensures ParseStringRest(t, i, result) == ParseStringRest(t, i + |EscapeByte(c)|, result + [c])
  {
    StandsAt(t, i, EscapeByte(c), 0);
    if |EscapeByte(c)| > 1 {
      StandsAt(t, i, EscapeByte(c), 1);
      assert Unescape(t[i + 1]) == Some(c);
    }
  }

  lemma {:induction false} StringRestReads(t: Text, i: nat, s: Text, result: Text)
    requires Stands(t, i, EscapeAll(s) + [QUOTE])
    ensures ParseStringRest(t, i, result) == Ok(result + s, i + |EscapeAll(s)| + 1)
    decreases |s|
  {
    if s == [] {
      StandsAt(t, i, EscapeAll(s) + [QUOTE], 0);
      assert result + s == result;
    } else {
      var first, rest := EscapeByte(s[0]), EscapeAll(s[1..]);
      assert EscapeAll(s) + [QUOTE] == first + (rest + [QUOTE]);
      StandsSplit(t, i, first, rest + [QUOTE]);
      EscapedByteReads(t, i, s[0], result);
      StringRestReads(t, i + |first|, s[1..], result + [s[0]]);
      assert result + [s[0]] + s[1..] == result + s;
    }
  }

  /** Any string, quoted, is read back. */
  lemma {:induction false} QuoteReads(t: Text, i: nat, s: Text)
    requires Stands(t, i, Quote(s))
    ensures At(t, i, QUOTE) && ParseString(t, i) == Ok(s, i + |Quote(s)|)
  {
    StandsSplit(t, i, [QUOTE], EscapeAll(s) + [QUOTE]);
    StandsAt(t, i, [QUOTE], 0);
    StringRestReads(t, i + 1, s, []);
    assert [] + s == s;
  }

  // ----- numbers -----

  lemma {:induction false} DigitsMove(t: Text, i: nat, l: Text, j: nat)
    requires Stands(t, i, l) && j <= |l| && (i + |l| < |t| ==> !IsDigit(t[i + |l|]))
    ensures DigitsEnd(t, i + j) == i + DigitsEnd(l, j)
    decreases |l| - j
  {
    if j >= |l| {
    } else {
      StandsAt(t, i, l, j);
      DigitsMove(t, i, l, j + 1);
    }
  }

  lemma {:induction false} AtMoves(t: Text, i: nat, l: Text, j: nat, c: Byte)
    requires Stands(t, i, l) && j <= |l| && (i + |l| < |t| ==> t[i + |l|] != c)
    ensures At(t, i + j, c) <==> At(l, j, c)
  {
  }

  lemma {:induction false} FractionMoves(t: Text, i: nat, l: Text, start: nat, whole: nat)
    requires Stands(t, i, l) && Stops(t, i + |l|) && start <= whole <= |l|
    ensures FractionEnd(t, i + start, i + whole) == (i + FractionEnd(l, start, whole).0, FractionEnd(l, start, whole).1)
  {
    AtMoves(t, i, l, whole, DOT);
    if At(l, whole, DOT) {
      DigitsMove(t, i, l, whole + 1);
    }
  }

  lemma {:induction false} MantissaMoves(t: Text, i: nat, l: Text)
    requires Stands(t, i, l) && Stops(t, i + |l|)
    ensures MantissaEnd(t, i) == (i + MantissaEnd(l, 0).0, MantissaEnd(l, 0).1)
  {
    AtMoves(t, i, l, 0, MINUS);
    var start := if At(l, 0, MINUS) then 1 else 0;
    DigitsMove(t, i, l, start);
    FractionMoves(t, i, l, start, DigitsEnd(l, start));
  }

  lemma {:induction false} ExponentMoves(t: Text, i: nat, l: Text, j: nat)
    requires Stands(t, i, l) && Stops(t, i + |l|) && j <= |l|
    ensures ExponentEnd(t, i + j).Some? <==> ExponentEnd(l, j).Some?
    ensures ExponentEnd(l, j).Some? ==> ExponentEnd(t, i + j) == Some(i + ExponentEnd(l, j).value)
  {
    AtMoves(t, i, l, j, Ch('e'));
    AtMoves(t, i, l, j, Ch('E'));
    if j < |l| && IsExponent(l[j]) {
      AtMoves(t, i, l, j + 1, PLUS);
      AtMoves(t, i, l, j + 1, MINUS);
      var start := if At(l, j + 1, PLUS) || At(l, j + 1, MINUS) then j + 2 else j + 1;
      DigitsMove(t, i, l, start);
    }
  }

  /** A number ends in a longer text where it ends by itself, if nothing continues it there. */
  lemma {:induction false} NumberMoves(t: Text, i: nat, l: Text)
    requires Stands(t, i, l) && Stops(t, i + |l|)
    ensures NumberEnd(t, i).Some? <==> NumberEnd(l, 0).Some?
    ensures NumberEnd(l, 0).Some? ==> NumberEnd(t, i) == Some(i + NumberEnd(l, 0).value)
  {
    MantissaMoves(t, i, l);
    ExponentMoves(t, i, l, MantissaEnd(l, 0).0);
  }

  /** A number in the grammar is read to its end wherever nothing continues it. */
  lemma {:induction false} NumberReads(t: Text, i: nat, l: Text)
    requires Stands(t, i, l) && Stops(t, i + |l|) && NumberEnd(l, 0) == Some(|l|)
    ensures NumberEnd(t, i) == Some(i + |l|) && t[i..i + |l|] == l
  {
    NumberMoves(t, i, l);
  }

  // ----- values -----

  predicate StartsNumber(c: Byte) {
    c == MINUS || c == DOT || IsDigit(c)
  }

  lemma {:induction false} NumberStarts(l: Text)
    requires NumberEnd(l, 0).Some?
    ensures l != [] && StartsNumber(l[0])
  {
  }

  lemma {:induction false} PrintStarts<N>(f: Floats<N>, v: Value<N>, level: nat, pretty: bool)
    requires All(Solid(f), v)
    ensures var p := Print(f, v, level, pretty);
      p != [] && !IsWhitespace(p[0]) && p[0] != CLOSE_BRACKET && p[0] != CLOSE_BRACE
  {
  }

  lemma {:induction false} WordReads<N>(f: Floats<N>, t: Text, i: nat, v: Value<N>)
    requires v.Null? || v.Bool?
    requires Stands(t, i, Print(f, v, 0, false))
    ensures ValueAt(f, t, i, v, i + |Print(f, v, 0, false)|)
  {
    var p := Print(f, v, 0, false);
    StandsAt(t, i, p, 0);
    assert SkipWs(t, i) == i;
    assert t[i..i + |p|] == p;
    assert v == Bool(false) ==> !Word(t, i, TRUE) by {
      if Word(t, i, TRUE) {
        assert t[i..i + 4][0] == t[i];
      }
    }
    assert v == Null ==> !Word(t, i, TRUE) && !Word(t, i, FALSE) by {
      if Word(t, i, TRUE) {
        assert t[i..i + 4][0] == t[i];
      } else if Word(t, i, FALSE) {
        assert t[i..i + 5][0] == t[i];
      }
    }
  }

  lemma {:induction false} NumberIsNoWord(t: Text, i: nat)
    requires i < |t| && StartsNumber(t[i])
    ensures SkipWs(t, i) == i && !Word(t, i, TRUE) && !Word(t, i, FALSE) && !Word(t, i, NULL)
  {
  }

  lemma {:induction false} NumberValueReads<N>(f: Floats<N>, t: Text, i: nat, n: N)
    requires var l := f.show(n); Stands(t, i, l) && Stops(t, i + |l|) && Written(f)(n)
    ensures ValueAt(f, t, i, Number(f.read(f.show(n))), i + |f.show(n)|)
  {
    var l := f.show(n);
    NumberStarts(l);
    StandsAt(t, i, l, 0);
    NumberReads(t, i, l);
    NumberIsNoWord(t, i);
  }

  lemma {:induction false} StringValueReads<N>(f: Floats<N>, t: Text, i: nat, s: Text)
    requires Stands(t, i, Quote(s))
    ensures ValueAt(f, t, i, Str(s), i + |Quote(s)|)
  {
    QuoteReads(t, i, s);
    assert SkipWs(t, i) == i;
  }

  lemma {:induction false} AtomReads<N>(f: Floats<N>, t: Text, i: nat, v: Value<N>, level: nat, pretty: bool)
    requires All(Written(f), v) && !v.Arr? && !v.Obj?
    requires var p := Print(f, v, level, pretty); Stands(t, i, p) && Stops(t, i + |p|)
    ensures ValueAt(f, t, i, Reread(f, v), i + |Print(f, v, level, pretty)|)
  {
    match v
    case Number(n) => NumberValueReads(f, t, i, n);
    case Str(s) => StringValueReads(f, t, i, s);
    case _ => WordReads(f, t, i, v);
  }

  /** What follows the first printed element: its comma and the others, or the closing bracket. */
  ghost predicate Ending(t: Text, q: nat, rest: Text, close: Byte, level: nat, pretty: bool) {
    Stands(t, q, rest + (Break(level, pretty) + [close]))
  }

  /** After the last element only whitespace comes before the bracket. */
  lemma {:induction false} LastReads(t: Text, q: nat, close: Byte, level: nat, pretty: bool)
    requires close == CLOSE_BRACKET || close == CLOSE_BRACE
    requires Ending(t, q, [], close, level, pretty)
    ensures Stops(t, q) && q <= |t|
    ensures var c := SkipWs(t, q); At(t, c, close) && c + 1 == q + |Break(level, pretty)| + 1
  {
    var lead := Break(level, pretty);
    assert [] + (lead + [close]) == lead + [close];
    StandsSplit(t, q, lead, [close]);
    StandsAt(t, q + |lead|, [close], 0);
    BreakIsSpace(level, pretty);
    Skips(t, q, lead);
    if lead != [] {
      StandsAt(t, q, lead, 0);
    }
  }

  /** Before another element a comma and whitespace come. */
  lemma {:induction false} CommaReads(t: Text, q: nat, text: Text, level: nat, pretty: bool)
    requires Stands(t, q, [COMMA] + (Break(level, pretty) + text)) && text != [] && !IsWhitespace(text[0])
    ensures At(t, q, COMMA) && Stops(t, q) && SkipWs(t, q) == q
    ensures var s := q + 1 + |Break(level, pretty)|; SkipWs(t, q + 1) == s && Stands(t, s, text)
  {
    var lead := Break(level, pretty);
    StandsSplit(t, q, [COMMA], lead + text);
    StandsAt(t, q, [COMMA], 0);
    StandsSplit(t, q + 1, lead, text);
    StandsAt(t, q + 1 + |lead|, text, 0);
    BreakIsSpace(level, pretty);
    Skips(t, q + 1, lead);
  }

  lemma {:induction false} NextStands(t: Text, q: nat, rest: Text, text: Text, level: nat, pretty: bool)
    requires rest == [COMMA] + (Break(level, pretty) + text) && Stands(t, q, rest) && text != []
      && !IsWhitespace(text[0])
    ensures var s := q + 1 + |Break(level, pretty)|;
      && Stops(t, q) && SkipWs(t, q) == q && At(t, q, COMMA) && SkipWs(t, q + 1) == s && Stands(t, s, text)
      && q + |rest| == s + |text|
  {
    CommaReads(t, q, text, level, pretty);
  }

  /** What comes after the first element. */
  function ItemsRest<N>(f: Floats<N>, items: seq<Value<N>>, level: nat, pretty: bool): Text
    requires items != []
  {
    PrintItems(f, items[1..], false, level, pretty) + (Break(level, pretty) + [CLOSE_BRACKET])
  }

  /** The elements of an array without the line break before the first. */
  function ItemsText<N>(f: Floats<N>, items: seq<Value<N>>, level: nat, pretty: bool): Text
    requires items != []
  {
    Print(f, items[0], level + 1, pretty) + ItemsRest(f, items, level, pretty)
  }

  lemma {:induction false} ItemsTextStarts<N>(f: Floats<N>, items: seq<Value<N>>, level: nat, pretty: bool)
    requires items != [] && AllItems(Solid(f), items)
    ensures var x := ItemsText(f, items, level, pretty); x != [] && !IsWhitespace(x[0]) && x[0] != CLOSE_BRACKET
  {
  }

  /** What comes after the first element, told apart by whether there are more. */
  lemma {:induction false} ItemsTextRest<N>(f: Floats<N>, items: seq<Value<N>>, level: nat, pretty: bool)
    requires |items| >= 2
    ensures ItemsRest(f, items, level, pretty) ==
      [COMMA] + (Break(level + 1, pretty) + ItemsText(f, items[1..], level, pretty))
  {
    var more := items[1..];
    var lead, text := Break(level + 1, pretty), Print(f, more[0], level + 1, pretty);
    var later, end := PrintItems(f, more[1..], false, level, pretty), Break(level, pretty) + [CLOSE_BRACKET];
    Regroup([COMMA], lead, text + later, end);
    assert (text + later) + end == text + (later + end);
  }

  lemma {:induction false} ParseItemsMore<N>(f: Floats<N>, t: Text, i: nat, before: seq<Value<N>>, item: Value<N>,
        next: nat, start: nat, items: seq<Value<N>>, q: nat)
    requires ValueAt(f, t, i, item, next)
    requires SkipWs(t, next) == next && At(t, next, COMMA) && SkipWs(t, next + 1) == start
    requires ItemsAt(f, t, start, before + [item], items, q)
    ensures ItemsAt(f, t, i, before, items, q)
  {
    assert Unseal(0);
  }

  lemma {:induction false} ParseItemsLast<N>(f: Floats<N>, t: Text, i: nat, before: seq<Value<N>>, item: Value<N>,
        next: nat)
    requires ValueAt(f, t, i, item, next) && At(t, SkipWs(t, next), CLOSE_BRACKET)
    ensures ItemsAt(f, t, i, before, before + [item], SkipWs(t, next) + 1)
  {
  }

  lemma {:induction false} LastItemStands<N>(f: Floats<N>, t: Text, q: nat, items: seq<Value<N>>, level: nat,
        pretty: bool)
    requires |items| == 1 && Stands(t, q, ItemsRest(f, items, level, pretty))
    ensures Ending(t, q, [], CLOSE_BRACKET, level, pretty)
      && |ItemsRest(f, items, level, pretty)| == |Break(level, pretty)| + 1
  {
  }

  lemma {:induction false} NextItemStands<N>(f: Floats<N>, t: Text, q: nat, items: seq<Value<N>>, level: nat,
        pretty: bool)
    requires |items| >= 2 && AllItems(Solid(f), items) && Stands(t, q, ItemsRest(f, items, level, pretty))
    ensures var text := ItemsText(f, items[1..], level, pretty); var s := q + 1 + |Break(level + 1, pretty)|;
      && Stops(t, q) && SkipWs(t, q) == q && At(t, q, COMMA) && SkipWs(t, q + 1) == s && Stands(t, s, text)
      && q + |ItemsRest(f, items, level, pretty)| == s + |text|
  {
    ItemsTextRest(f, items, level, pretty);
    ItemsTextStarts(f, items[1..], level, pretty);
    NextStands(t, q, ItemsRest(f, items, level, pretty), ItemsText(f, items[1..], level, pretty), level + 1, pretty);
  }

  /** The first of some printed items and what follows it, where they stand. */
  lemma {:induction false} ItemsStand<N>(f: Floats<N>, t: Text, i: nat, items: seq<Value<N>>, level: nat, pretty: bool,
        q: nat, end: nat)
    requires items != [] && AllItems(Solid(f), items) && Stands(t, i, ItemsText(f, items, level, pretty))
    requires q == i + |Print(f, items[0], level + 1, pretty)| && end == i + |ItemsText(f, items, level, pretty)|
    ensures i < q && Stands(t, i, Print(f, items[0], level + 1, pretty)) && Stops(t, q)
    ensures |items| == 1 ==> Ending(t, q, [], CLOSE_BRACKET, level, pretty) && end == q + |Break(level, pretty)| + 1
    ensures |items| >= 2 ==>
      var s := q + 1 + |Break(level + 1, pretty)|;
      && SkipWs(t, q) == q && At(t, q, COMMA) && SkipWs(t, q + 1) == s
      && Stands(t, s, ItemsText(f, items[1..], level, pretty)) && end == s + |ItemsText(f, items[1..], level, pretty)|
  {
    StandsSplit(t, i, Print(f, items[0], level + 1, pretty), ItemsRest(f, items, level, pretty));
    PrintStarts(f, items[0], level + 1, pretty);
    if |items| == 1 {
      LastItemStands(f, t, q, items, level, pretty);
      LastReads(t, q, CLOSE_BRACKET, level, pretty);
    } else {
      NextItemStands(f, t, q, items, level, pretty);
    }
  }

  lemma {:induction false} ItemsRead<N>(f: Floats<N>, t: Text, i: nat, items: seq<Value<N>>, before: seq<Value<N>>,
        level: nat, pretty: bool, end: nat)
    requires items != [] && AllItems(Written(f), items) && Stands(t, i, ItemsText(f, items, level, pretty))
    requires end == i + |ItemsText(f, items, level, pretty)|
    ensures ItemsAt(f, t, i, before, before + RereadItems(f, items), end)
    decreases SizeItems(items), 0
  {
    var item, all := Reread(f, items[0]), RereadItems(f, items);
    var q := i + |Print(f, items[0], level + 1, pretty)|;
    AllItemsWeaker(Written(f), Solid(f), items);
    ItemsStand(f, t, i, items, level, pretty, q, end);
    ValueReads(f, t, i, items[0], level + 1, pretty);
    if |items| == 1 {
      LastReads(t, q, CLOSE_BRACKET, level, pretty);
      ParseItemsLast(f, t, i, before, item, q);
      assert RereadItems(f, items[1..]) == [];
      assert all == [item];
    } else {
      var s := q + 1 + |Break(level + 1, pretty)|;
      ItemsRead(f, t, s, items[1..], before + [item], level, pretty, end);
      ParseItemsMore(f, t, i, before, item, q, s, before + [item] + all[1..], end);
      Appended(before, all);
    }
  }

  lemma {:induction false} Appended<T>(before: seq<T>, items: seq<T>)
    requires items != []
    ensures before + [items[0]] + items[1..] == before + items
  {
  }

  lemma {:induction false} ParseArrayItems<N>(f: Floats<N>, t: Text, i: nat, start: nat, items: seq<Value<N>>, q: nat)
    requires At(t, i, OPEN_BRACKET) && SkipWs(t, i + 1) == start < |t| && t[start] != CLOSE_BRACKET
    requires ItemsAt(f, t, start, [], items, q)
    ensures ValueAt(f, t, i, Arr(items), q)
  {
  }

  /** An opening bracket and the whitespace after it. */
  lemma {:induction false} OpenReads(t: Text, i: nat, open: Byte, text: Text, level: nat, pretty: bool)
    requires Stands(t, i, [open] + (Break(level, pretty) + text)) && text != [] && !IsWhitespace(text[0])
    ensures var s := i + 1 + |Break(level, pretty)|;
      At(t, i, open) && SkipWs(t, i + 1) == s && Stands(t, s, text) && At(t, s, text[0])
  {
    var lead := Break(level, pretty);
    StandsSplit(t, i, [open], lead + text);
    StandsAt(t, i, [open], 0);
    StandsSplit(t, i + 1, lead, text);
    StandsAt(t, i + 1 + |lead|, text, 0);
    BreakIsSpace(level, pretty);
    Skips(t, i + 1, lead);
  }

  lemma {:induction false} ArrayText<N>(f: Floats<N>, items: seq<Value<N>>, level: nat, pretty: bool)
    requires items != []
    ensures Print(f, Arr(items), level, pretty) ==
      [OPEN_BRACKET] + (Break(level + 1, pretty) + ItemsText(f, items, level, pretty))
  {
    var lead, first := Break(level + 1, pretty), Print(f, items[0], level + 1, pretty);
    var later, end := PrintItems(f, items[1..], false, level, pretty), Break(level, pretty) + [CLOSE_BRACKET];
    assert PrintItems(f, items, true, level, pretty) == lead + (first + later);
    Regroup(lead, first, later, end);
  }

  lemma {:induction false} Regroup(a: Text, b: Text, c: Text, d: Text)
    ensures (a + (b + c)) + d == a + (b + (c + d))
  {
  }

  lemma {:induction false} ArrayReads<N>(f: Floats<N>, t: Text, i: nat, items: seq<Value<N>>, level: nat, pretty: bool)
    requires AllItems(Written(f), items) && Stands(t, i, Print(f, Arr(items), level, pretty))
    ensures ValueAt(f, t, i, Reread(f, Arr(items)), i + |Print(f, Arr(items), level, pretty)|)
    decreases SizeItems(items), 1
  {
    if items == [] {
      var p := Print(f, Arr(items), level, pretty);
      StandsAt(t, i, p, 0);
      StandsAt(t, i, p, 1);
      assert SkipWs(t, i) == i && SkipWs(t, i + 1) == i + 1;
    } else {
      var text := ItemsText(f, items, level, pretty);
      ArrayText(f, items, level, pretty);
      AllItemsWeaker(Written(f), Solid(f), items);
      ItemsTextStarts(f, items, level, pretty);
      OpenReads(t, i, OPEN_BRACKET, text, level + 1, pretty);
      var s := i + 1 + |Break(level + 1, pretty)|;
      ItemsRead(f, t, s, items, [], level, pretty, s + |text|);
      assert [] + RereadItems(f, items) == RereadItems(f, items);
      ParseArrayItems(f, t, i, s, RereadItems(f, items), s + |text|);
    }
  }

  // ----- objects -----

  /** A key with its colon. */
  function KeyText(key: Text, pretty: bool): Text {
    Quote(key) + PrintColon(pretty)
  }

  lemma {:induction false} KeyReads(t: Text, i: nat, key: Text, pretty: bool)
    requires Stands(t, i, KeyText(key, pretty))
    requires var j := i + |KeyText(key, pretty)|; j < |t| && !IsWhitespace(t[j])
    ensures KeyAt(t, i, key, i + |KeyText(key, pretty)|)
  {
    StandsSplit(t, i, Quote(key), PrintColon(pretty));
    QuoteReads(t, i, key);
    var c := i + |Quote(key)|;
    StandsAt(t, c, PrintColon(pretty), 0);
    assert SkipWs(t, c) == c;
    if pretty {
      StandsAt(t, c, PrintColon(pretty), 1);
      assert SkipWs(t, c + 1) == SkipWs(t, c + 2) == c + 2;
    }
  }

  /** What comes after the first member. */
  function MembersRest<N>(f: Floats<N>, members: seq<Member<N>>, level: nat, pretty: bool): Text
    requires members != []
  {
    PrintMembers(f, members[1..], false, level, pretty) + (Break(level, pretty) + [CLOSE_BRACE])
  }

  function MembersText<N>(f: Floats<N>, members: seq<Member<N>>, level: nat, pretty: bool): Text
    requires members != []
  {
    KeyText(members[0].key, pretty) + (Print(f, members[0].value, level + 1, pretty)
      + MembersRest(f, members, level, pretty))
  }

  lemma {:induction false} MembersTextStarts<N>(f: Floats<N>, members: seq<Member<N>>, level: nat, pretty: bool)
    requires members != []
    ensures var x := MembersText(f, members, level, pretty); x != [] && !IsWhitespace(x[0]) && x[0] != CLOSE_BRACE
  {
  }

  lemma {:induction false} MembersTextRest<N>(f: Floats<N>, members: seq<Member<N>>, level: nat, pretty: bool)
    requires |members| >= 2
    ensures MembersRest(f, members, level, pretty) ==
      [COMMA] + (Break(level + 1, pretty) + MembersText(f, members[1..], level, pretty))
  {
    var more := members[1..];
    MembersLead(f, more, false, level, pretty);
    var later := PrintMembers(f, more[1..], false, level, pretty);
    var first := Print(f, more[0].value, level + 1, pretty);
    Regroup([COMMA], Break(level + 1, pretty), KeyText(more[0].key, pretty) + (first + later), Break(level, pretty)
      + [CLOSE_BRACE]);
    Regroup(KeyText(more[0].key, pretty), first, later, Break(level, pretty) + [CLOSE_BRACE]);
  }

  /** The first printed member, its key and colon together. */
  lemma {:induction false} MembersLead<N>(f: Floats<N>, members: seq<Member<N>>, first: bool, level: nat, pretty: bool)
    requires members != []
    ensures PrintMembers(f, members, first, level, pretty)
         == (if first then [] else [COMMA]) + (Break(level + 1, pretty) + (KeyText(members[0].key, pretty)
            + (Print(f, members[0].value, level + 1, pretty) + PrintMembers(f, members[1..], false, level, pretty))))
  {
    var rest := Print(f, members[0].value, level + 1, pretty) + PrintMembers(f, members[1..], false, level, pretty);
    assert Quote(members[0].key) + (PrintColon(pretty) + rest) == KeyText(members[0].key, pretty) + rest;
  }

  lemma {:induction false} ParseMembersMore<N>(f: Floats<N>, t: Text, i: nat, before: seq<Member<N>>, m: Member<N>,
        at: nat, next: nat, start: nat, members: seq<Member<N>>, q: nat)
    requires KeyAt(t, i, m.key, at) && ValueAt(f, t, at, m.value, next)
    requires SkipWs(t, next) == next && At(t, next, COMMA) && SkipWs(t, next + 1) == start
    requires MembersAt(f, t, start, before + [m], members, q)
    ensures MembersAt(f, t, i, before, members, q)
  {
  }

  lemma {:induction false} ParseMembersLast<N>(f: Floats<N>, t: Text, i: nat, before: seq<Member<N>>, m: Member<N>,
        at: nat, next: nat)
    requires KeyAt(t, i, m.key, at) && ValueAt(f, t, at, m.value, next) && At(t, SkipWs(t, next), CLOSE_BRACE)
    ensures MembersAt(f, t, i, before, before + [m], SkipWs(t, next) + 1)
  {
  }

  /** A printed member and what follows it, where they stand. */
  lemma {:induction false} MemberStands<N>(f: Floats<N>, t: Text, i: nat, m: Member<N>, rest: Text, level: nat,
        pretty: bool)
    requires All(Solid(f), m.value) && Stands(t, i, KeyText(m.key, pretty) + (Print(f, m.value, level, pretty) + rest))
    ensures var at := i + |KeyText(m.key, pretty)|; var q := at + |Print(f, m.value, level, pretty)|;
      KeyAt(t, i, m.key, at) && Stands(t, at, Print(f, m.value, level, pretty)) && Stands(t, q, rest)
  {
    var key, text := KeyText(m.key, pretty), Print(f, m.value, level, pretty);
    StandsSplit(t, i, key, text + rest);
    StandsSplit(t, i + |key|, text, rest);
    PrintStarts(f, m.value, level, pretty);
    StandsAt(t, i + |key|, text, 0);
    KeyReads(t, i, m.key, pretty);
  }

  lemma {:induction false} LastMemberStands<N>(f: Floats<N>, t: Text, q: nat, members: seq<Member<N>>, level: nat,
        pretty: bool)
    requires |members| == 1 && Stands(t, q, MembersRest(f, members, level, pretty))
    ensures Ending(t, q, [], CLOSE_BRACE, level, pretty)
      && |MembersRest(f, members, level, pretty)| == |Break(level, pretty)| + 1
  {
  }

  lemma {:induction false} NextMemberStands<N>(f: Floats<N>, t: Text, q: nat, members: seq<Member<N>>, level: nat,
        pretty: bool)
    requires |members| >= 2 && Stands(t, q, MembersRest(f, members, level, pretty))
    ensures var text := MembersText(f, members[1..], level, pretty); var s := q + 1 + |Break(level + 1, pretty)|;
      && Stops(t, q) && SkipWs(t, q) == q && At(t, q, COMMA) && SkipWs(t, q + 1) == s && Stands(t, s, text)
      && q + |MembersRest(f, members, level, pretty)| == s + |text|
  {
    MembersTextRest(f, members, level, pretty);
    MembersTextStarts(f, members[1..], level, pretty);
    NextStands(t, q, MembersRest(f, members, level, pretty), MembersText(f, members[1..], level, pretty), level + 1,
      pretty);
  }

  lemma {:induction false} MembersStand<N>(f: Floats<N>, t: Text, i: nat, members: seq<Member<N>>, level: nat,
        pretty: bool, at: nat, q: nat, end: nat)
    requires members != [] && AllMembers(Solid(f), members) && Stands(t, i, MembersText(f, members, level, pretty))
    requires at == i + |KeyText(members[0].key, pretty)| && q == at + |Print(f, members[0].value, level + 1, pretty)|
    requires end == i + |MembersText(f, members, level, pretty)|
    ensures KeyAt(t, i, members[0].key, at) && Stands(t, at, Print(f, members[0].value, level + 1, pretty))
      && Stops(t, q)
    ensures |members| == 1 ==> Ending(t, q, [], CLOSE_BRACE, level, pretty) && end == q + |Break(level, pretty)| + 1
    ensures |members| >= 2 ==>
      var s := q + 1 + |Break(level + 1, pretty)|;
      && SkipWs(t, q) == q && At(t, q, COMMA) && SkipWs(t, q + 1) == s
      && Stands(t, s, MembersText(f, members[1..], level, pretty)) && end == s
        + |MembersText(f, members[1..], level, pretty)|
  {
    MemberStands(f, t, i, members[0], MembersRest(f, members, level, pretty), level + 1, pretty);
    if |members| == 1 {
      LastMemberStands(f, t, q, members, level, pretty);
      LastReads(t, q, CLOSE_BRACE, level, pretty);
    } else {
      NextMemberStands(f, t, q, members, level, pretty);
    }
  }

  /** The first of some printed members is read, and what follows it stands. */
  lemma {:induction false} MemberReads<N>(f: Floats<N>, t: Text, i: nat, members: seq<Member<N>>, level: nat,
        pretty: bool, at: nat, q: nat, end: nat)
    requires members != [] && AllMembers(Written(f), members) && Stands(t, i, MembersText(f, members, level, pretty))
    requires at == i + |KeyText(members[0].key, pretty)| && q == at + |Print(f, members[0].value, level + 1, pretty)|
    requires end == i + |MembersText(f, members, level, pretty)|
    ensures KeyAt(t, i, members[0].key, at) && ValueAt(f, t, at, Reread(f, members[0].value), q)
    ensures |members| == 1 ==> At(t, SkipWs(t, q), CLOSE_BRACE) && end == SkipWs(t, q) + 1
    ensures |members| >= 2 ==>
      var s := q + 1 + |Break(level + 1, pretty)|;
      && SkipWs(t, q) == q && At(t, q, COMMA) && SkipWs(t, q + 1) == s
      && Stands(t, s, MembersText(f, members[1..], level, pretty))
      && end == s + |MembersText(f, members[1..], level, pretty)|
    decreases SizeMembers(members), -1
  {
    AllMembersWeaker(Written(f), Solid(f), members);
    MembersStand(f, t, i, members, level, pretty, at, q, end);
    ValueReads(f, t, at, members[0].value, level + 1, pretty);
    if |members| == 1 {
      LastReads(t, q, CLOSE_BRACE, level, pretty);
    }
  }

  lemma {:induction false} MembersRead<N>(f: Floats<N>, t: Text, i: nat, members: seq<Member<N>>,
        before: seq<Member<N>>, level: nat, pretty: bool, end: nat)
    requires members != [] && AllMembers(Written(f), members) && Stands(t, i, MembersText(f, members, level, pretty))
    requires end == i + |MembersText(f, members, level, pretty)|
    ensures MembersAt(f, t, i, before, before + RereadMembers(f, members), end)
    decreases SizeMembers(members), 0
  {
    var m, member, all := members[0], RereadMember(f, members[0]), RereadMembers(f, members);
    var at := i + |KeyText(m.key, pretty)|;
    var q := at + |Print(f, m.value, level + 1, pretty)|;
    MemberReads(f, t, i, members, level, pretty, at, q, end);
    if |members| == 1 {
      ParseMembersLast(f, t, i, before, member, at, q);
      assert RereadMembers(f, members[1..]) == [];
      assert all == [member];
    } else {
      var s := q + 1 + |Break(level + 1, pretty)|;
      MembersRead(f, t, s, members[1..], before + [member], level, pretty, end);
      ParseMembersMore(f, t, i, before, member, at, q, s, before + [member] + all[1..], end);
      Appended(before, all);
    }
  }

  lemma {:induction false} ParseObjectMembers<N>(f: Floats<N>, t: Text, i: nat, start: nat, members: seq<Member<N>>,
        q: nat)
    requires At(t, i, OPEN_BRACE) && SkipWs(t, i + 1) == start < |t| && t[start] != CLOSE_BRACE
    requires MembersAt(f, t, start, [], members, q)
    ensures ValueAt(f, t, i, Obj(members), q)
  {
  }

  /** The text of one member and of those after it, regrouped with what ends the object. */
  lemma {:induction false} RegroupMember(lead: Text, key: Text, first: Text, later: Text, end: Text)
    ensures ([] + (lead + (key + (first + later)))) + end == lead + (key + (first + (later + end)))
  {
  }

  lemma {:induction false} ObjectText<N>(f: Floats<N>, members: seq<Member<N>>, level: nat, pretty: bool)
    requires members != []
    ensures Print(f, Obj(members), level, pretty) ==
      [OPEN_BRACE] + (Break(level + 1, pretty) + MembersText(f, members, level, pretty))
  {
    MembersLead(f, members, true, level, pretty);
    RegroupMember(Break(level + 1, pretty), KeyText(members[0].key, pretty),
      Print(f, members[0].value, level + 1, pretty),
      PrintMembers(f, members[1..], false, level, pretty), Break(level, pretty) + [CLOSE_BRACE]);
  }

  lemma {:induction false} ObjectReads<N>(f: Floats<N>, t: Text, i: nat, members: seq<Member<N>>, level: nat,
        pretty: bool)
    requires AllMembers(Written(f), members) && Stands(t, i, Print(f, Obj(members), level, pretty))
    ensures ValueAt(f, t, i, Reread(f, Obj(members)), i + |Print(f, Obj(members), level, pretty)|)
    decreases SizeMembers(members), 1
  {
    if members == [] {
      var p := Print(f, Obj(members), level, pretty);
      StandsAt(t, i, p, 0);
      StandsAt(t, i, p, 1);
      assert SkipWs(t, i) == i && SkipWs(t, i + 1) == i + 1;
    } else {
      var text := MembersText(f, members, level, pretty);
      ObjectText(f, members, level, pretty);
      MembersTextStarts(f, members, level, pretty);
      OpenReads(t, i, OPEN_BRACE, text, level + 1, pretty);
      var s := i + 1 + |Break(level + 1, pretty)|;
      MembersRead(f, t, s, members, [], level, pretty, s + |text|);
      assert [] + RereadMembers(f, members) == RereadMembers(f, members);
      ParseObjectMembers(f, t, i, s, RereadMembers(f, members), s + |text|);
    }
  }

  /** A printed value is read back wherever nothing continues it. */
  lemma {:induction false} ValueReads<N>(f: Floats<N>, t: Text, i: nat, v: Value<N>, level: nat, pretty: bool)
    requires All(Written(f), v)
    requires var p := Print(f, v, level, pretty); Stands(t, i, p) && Stops(t, i + |p|)
    ensures ValueAt(f, t, i, Reread(f, v), i + |Print(f, v, level, pretty)|)
    decreases Size(v), 0
  {
    match v
    case Arr(items) => ArrayReads(f, t, i, items, level, pretty);
    case Obj(members) => ObjectReads(f, t, i, members, level, pretty);
    case _ => AtomReads(f, t, i, v, level, pretty);
  }

  // ----- main results -----

  /** With any whitespace around it, a printed value is a valid text with that value. */
  lemma {:induction false} PrintedIsRead<N>(f: Floats<N>, v: Value<N>, pretty: bool, before: Text, after: Text)
    requires All(Written(f), v) && AllSpace(before) && AllSpace(after)
    ensures Whole(f, before + (Print(f, v, 0, pretty) + after)) == Some(Reread(f, v))
  {
    var p := Print(f, v, 0, pretty);
    var t := before + (p + after);
    AllWeaker(Written(f), Solid(f), v);
    PrintStarts(f, v, 0, pretty);
    Padding(t, before, p, after);
    ValueReads(f, t, |before|, v, 0, pretty);
    WholeReads(f, t, |before|, Reread(f, v), |before| + |p|);
  }

  lemma {:induction false} Padding(t: Text, before: Text, p: Text, after: Text)
    requires t == before + (p + after) && AllSpace(before) && AllSpace(after) && p != [] && !IsWhitespace(p[0])
    ensures SkipWs(t, 0) == |before| && Stands(t, |before|, p)
    ensures var q := |before| + |p|; Stops(t, q) && SkipWs(t, q) == |t|
  {
    StandsThree(t, before, p, after);
    assert SkipWs(t, 0) == |before| by {
      StandsAt(t, |before|, p, 0);
      Skips(t, 0, before);
    }
    var q := |before| + |p|;
    if after != [] {
      StandsAt(t, q, after, 0);
    }
    assert SkipWs(t, q) == |t| by {
      Skips(t, q, after);
    }
  }

  lemma {:induction false} StandsThree(t: Text, before: Text, p: Text, after: Text)
    requires t == before + (p + after)
    ensures Stands(t, 0, before) && Stands(t, |before|, p) && Stands(t, |before| + |p|, after)
    ensures |t| == |before| + |p| + |after|
  {
  }

  lemma {:induction false} WholeReads<N>(f: Floats<N>, t: Text, i: nat, v: Value<N>, q: nat)
    requires SkipWs(t, 0) == i && ValueAt(f, t, i, v, q) && SkipWs(t, q) == |t|
    ensures Whole(f, t) == Some(v)
  {
    assert Unseal(0);
    assert SkipWs(t, i) == i;
    assert ParseValue(f, t, 0) == ParseValue(f, t, i);
  }

  lemma {:induction false} StringifyParses<N>(f: Floats<N>, v: Value<N>)
    requires All(Written(f), v)
    ensures Parse(f, Stringify(f, v)) == Reread(f, v)
  {
    PrintedIsRead(f, v, false, [], []);
    assert [] + (Stringify(f, v) + []) == Stringify(f, v);
  }

  lemma {:induction false} PrettyParses<N>(f: Floats<N>, v: Value<N>)
    requires All(Written(f), v)
    ensures Parse(f, Pretty(f, v)) == Reread(f, v)
  {
    PrintedIsRead(f, v, true, [], []);
    assert [] + (Pretty(f, v) + []) == Pretty(f, v);
  }
}
