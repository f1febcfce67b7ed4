/** How printed values are laid out: as lines, each indented by two spaces for every bracket it stands in. */
module JsonLayout {
  import opened Bytes
  import opened Json

  datatype Line = Line(depth: nat, text: Text)

  type Lines = ls: seq<Line> | |ls| > 0 witness [Line(0, [])]

  /** The last line with a comma at its end. */
  function WithComma(ls: Lines): Lines {
    var last := ls[|ls| - 1];
    ls[..|ls| - 1] + [Line(last.depth, last.text + [44])]
  }

  /** The first line with a key in front. */
  function WithKey(key: Text, ls: Lines): Lines {
    [Line(ls[0].depth, key + ls[0].text)] + ls[1..]
  }

  /** The lines of a value that stands `depth` brackets deep: the elements of an array or an object that is not empty
      have lines of their own, one bracket deeper. */
  function LinesOf<N>(f: Floats<N>, v: Value<N>, depth: nat, colon: Text): Lines
    decreases Size(v)
  {
    match v
    case Arr(items) =>
      if items == [] then [Line(depth, [91, 93])]
      else [Line(depth, [91])] + ItemLines(f, items, depth + 1, colon) + [Line(depth, [93])]
    case Obj(members) =>
      if members == [] then [Line(depth, [123, 125])]
      else [Line(depth, [123])] + MemberLines(f, members, depth + 1, colon) + [Line(depth, [125])]
    case Null => [Line(depth, [110, 117, 108, 108])]
    case Bool(b) => [Line(depth, if b then [116, 114, 117, 101] else [102, 97, 108, 115, 101])]
    case Number(n) => [Line(depth, f.show(n))]
    case Str(s) => [Line(depth, Quote(s))]
  }

  function ItemLines<N>(f: Floats<N>, items: seq<Value<N>>, depth: nat, colon: Text): Lines
    requires items != []
    decreases SizeItems(items)
  {
    var here := LinesOf(f, items[0], depth, colon);
    if |items| == 1 then here else WithComma(here) + ItemLines(f, items[1..], depth, colon)
  }

  function MemberLines<N>(f: Floats<N>, members: seq<Member<N>>, depth: nat, colon: Text): Lines
    requires members != []
    decreases SizeMembers(members)
  {
    var here := WithKey(Quote(members[0].key) + colon, LinesOf(f, members[0].value, depth, colon));
    if |members| == 1 then here else WithComma(here) + MemberLines(f, members[1..], depth, colon)
  }

  // ----- lines as text -----

  function Spaces(n: nat): Text {
    seq(n, _ => 32)
  }

  /** What begins a line: a line feed and the indentation, or nothing where all is written in one line. */
  function Lead(depth: nat, broken: bool): Text {
    if broken then [10] + Spaces(2 * depth) else []
  }

  /** The lines, each with its beginning. */
  function Rest(ls: seq<Line>, broken: bool): Text {
    if ls == [] then [] else (Lead(ls[0].depth, broken) + ls[0].text) + Rest(ls[1..], broken)
  }

  /** The first line goes on where the text before it has ended. */
  function Render(ls: Lines, broken: bool): Text {
    ls[0].text + Rest(ls[1..], broken)
  }

  lemma {:induction false} RestAppend(a: seq<Line>, b: seq<Line>, broken: bool)
    ensures Rest(a + b, broken) == Rest(a, broken) + Rest(b, broken)
    decreases a
  {
    if a == [] {
      assert a + b == b;
    } else {
      assert (a + b)[1..] == a[1..] + b;
      RestAppend(a[1..], b, broken);
    }
  }

  lemma {:induction false} RestOne(l: Line, broken: bool)
    ensures Rest([l], broken) == Lead(l.depth, broken) + l.text
  {
    assert [l][1..] == [];
  }

  lemma {:induction false} RestFirst(ls: Lines, broken: bool)
    ensures Rest(ls, broken) == Lead(ls[0].depth, broken) + Render(ls, broken)
  {
  }

  lemma {:induction false} RestComma(ls: Lines, broken: bool)
    ensures Rest(WithComma(ls), broken) == Rest(ls, broken) + [44]
  {
    var last := ls[|ls| - 1];
    var front := ls[..|ls| - 1];
    assert ls == front + [last];
    RestAppend(front, [last], broken);
    RestAppend(front, [Line(last.depth, last.text + [44])], broken);
    RestOne(last, broken);
    RestOne(Line(last.depth, last.text + [44]), broken);
  }

  lemma {:induction false} RenderKey(key: Text, ls: Lines, broken: bool)
    ensures Render(WithKey(key, ls), broken) == key + Render(ls, broken) && WithKey(key, ls)[0].depth == ls[0].depth
  {
    assert WithKey(key, ls)[1..] == ls[1..];
  }

  lemma {:induction false} RenderEnclosed(open: Line, ls: seq<Line>, close: Line, broken: bool)
    ensures Render([open] + ls + [close], broken)
         == open.text + (Rest(ls, broken) + (Lead(close.depth, broken) + close.text))
  {
    assert ([open] + ls + [close])[1..] == ls + [close];
    RestAppend(ls, [close], broken);
    RestOne(close, broken);
  }

  // ----- printing writes these lines -----

  lemma {:induction false} IndentIs(level: nat)
    ensures Indent(level) == Spaces(2 * level)
  {
    if level == 0 {
    } else {
      IndentIs(level - 1);
    }
  }

  function Colon(pretty: bool): Text {
    if pretty then [58, 32] else [58]
  }

  lemma {:induction false} FirstDepth<N>(f: Floats<N>, v: Value<N>, depth: nat, colon: Text)
    ensures LinesOf(f, v, depth, colon)[0].depth == depth
  {
  }

  /** What follows the first of several lists of lines. */
  function After(ls: seq<Line>, broken: bool): Text {
    if ls == [] then [] else [44] + Rest(ls, broken)
  }

  lemma {:induction false} RestPair(here: Lines, later: Lines, broken: bool)
    ensures Rest(WithComma(here) + later, broken) == Rest(here, broken) + After(later, broken)
  {
    RestComma(here, broken);
    RestAppend(WithComma(here), later, broken);
    assert (Rest(here, broken) + [44]) + Rest(later, broken) == Rest(here, broken) + After(later, broken);
  }

  lemma {:induction false} RestAlone(here: Lines, broken: bool)
    ensures Rest(here, broken) == Rest(here, broken) + After([], broken)
  {
  }

  lemma {:induction false} ItemLinesRest<N>(f: Floats<N>, items: seq<Value<N>>, depth: nat, colon: Text, broken: bool)
    requires items != []
    ensures var later: seq<Line> := if |items| == 1 then [] else ItemLines(f, items[1..], depth, colon);
      Rest(ItemLines(f, items, depth, colon), broken)
        == (Lead(depth, broken) + Render(LinesOf(f, items[0], depth, colon), broken)) + After(later, broken)
  {
    var here := LinesOf(f, items[0], depth, colon);
    FirstDepth(f, items[0], depth, colon);
    RestFirst(here, broken);
    RestAlone(here, broken);
    if |items| > 1 {
      RestPair(here, ItemLines(f, items[1..], depth, colon), broken);
    }
  }

  lemma {:induction false} MemberLinesRest<N>(
      f: Floats<N>, members: seq<Member<N>>, depth: nat, colon: Text, broken: bool)
    requires members != []
    ensures var later: seq<Line> := if |members| == 1 then [] else MemberLines(f, members[1..], depth, colon);
      var value := Render(LinesOf(f, members[0].value, depth, colon), broken);
      Rest(MemberLines(f, members, depth, colon), broken)
        == (Lead(depth, broken) + ((Quote(members[0].key) + colon) + value)) + After(later, broken)
  {
    var key := Quote(members[0].key) + colon;
    var value := LinesOf(f, members[0].value, depth, colon);
    var here := WithKey(key, value);
    FirstDepth(f, members[0].value, depth, colon);
    RenderKey(key, value, broken);
    RestFirst(here, broken);
    RestAlone(here, broken);
    if |members| > 1 {
      RestPair(here, MemberLines(f, members[1..], depth, colon), broken);
    }
  }

  lemma {:induction false} LeadIs(level: nat, pretty: bool)
    ensures Break(level, pretty) == Lead(level, pretty)
  {
    IndentIs(level);
  }

  lemma {:induction false} Grouped(a: Text, b: Text, c: Text, d: Text)
    ensures a + (b + (c + d)) == a + ((b + c) + d)
  {
  }

  /** Every printed value is its lines: broken and indented in the pretty form, one after the other in the other. */
  lemma {:induction false} PrintIsLines<N>(f: Floats<N>, v: Value<N>, level: nat, pretty: bool)
    ensures Print(f, v, level, pretty) == Render(LinesOf(f, v, level, Colon(pretty)), pretty)
    decreases Size(v), 1
  {
    match v
    case Arr(items) => ArrayIsLines(f, items, level, pretty);
    case Obj(members) => ObjectIsLines(f, members, level, pretty);
    case Null => assert Rest([], pretty) == [];
    case Bool(_) => assert Rest([], pretty) == [];
    case Number(_) => assert Rest([], pretty) == [];
    case Str(_) => assert Rest([], pretty) == [];
  }

  lemma {:induction false} ArrayIsLines<N>(f: Floats<N>, items: seq<Value<N>>, level: nat, pretty: bool)
    ensures Print(f, Arr(items), level, pretty) == Render(LinesOf(f, Arr(items), level, Colon(pretty)), pretty)
    decreases Size(Arr(items)), 0
  {
    if items == [] {
      assert Rest([], pretty) == [];
    } else {
      var ls := ItemLines(f, items, level + 1, Colon(pretty));
      ItemsAreLines(f, items, true, level, pretty);
      assert [] + Rest(ls, pretty) == Rest(ls, pretty);
      LeadIs(level, pretty);
      RenderEnclosed(Line(level, [91]), ls, Line(level, [93]), pretty);
    }
  }

  lemma {:induction false} ObjectIsLines<N>(f: Floats<N>, members: seq<Member<N>>, level: nat, pretty: bool)
    ensures Print(f, Obj(members), level, pretty) == Render(LinesOf(f, Obj(members), level, Colon(pretty)), pretty)
    decreases Size(Obj(members)), 0
  {
    if members == [] {
      assert Rest([], pretty) == [];
    } else {
      var ls := MemberLines(f, members, level + 1, Colon(pretty));
      MembersAreLines(f, members, true, level, pretty);
      assert [] + Rest(ls, pretty) == Rest(ls, pretty);
      LeadIs(level, pretty);
      RenderEnclosed(Line(level, [123]), ls, Line(level, [125]), pretty);
    }
  }

  lemma {:induction false} ItemsAreLines<N>(f: Floats<N>, items: seq<Value<N>>, first: bool, level: nat, pretty: bool)
    requires items != []
    ensures PrintItems(f, items, first, level, pretty)
         == (if first then [] else [44]) + Rest(ItemLines(f, items, level + 1, Colon(pretty)), pretty)
    decreases SizeItems(items), 0
  {
    var colon := Colon(pretty);
    var shown := Print(f, items[0], level + 1, pretty);
    var more := PrintItems(f, items[1..], false, level, pretty);
    PrintIsLines(f, items[0], level + 1, pretty);
    LeadIs(level + 1, pretty);
    if |items| > 1 {
      ItemsAreLines(f, items[1..], false, level, pretty);
    } else {
      assert items[1..] == [];
    }
    ItemLinesRest(f, items, level + 1, colon, pretty);
    Grouped(if first then [] else [44], Lead(level + 1, pretty), shown, more);
  }

  lemma {:induction false} MembersAreLines<N>(
      f: Floats<N>, members: seq<Member<N>>, first: bool, level: nat, pretty: bool)
    requires members != []
    ensures PrintMembers(f, members, first, level, pretty)
         == (if first then [] else [44]) + Rest(MemberLines(f, members, level + 1, Colon(pretty)), pretty)
    decreases SizeMembers(members), 0
  {
    var colon := Colon(pretty);
    var key := Quote(members[0].key);
    var shown := Print(f, members[0].value, level + 1, pretty);
    var more := PrintMembers(f, members[1..], false, level, pretty);
    PrintIsLines(f, members[0].value, level + 1, pretty);
    LeadIs(level + 1, pretty);
    if |members| > 1 {
      MembersAreLines(f, members[1..], false, level, pretty);
    } else {
      assert members[1..] == [];
    }
    MemberLinesRest(f, members, level + 1, colon, pretty);
    MembersUnfold(f, members, first, level, pretty);
    GroupedKey(if first then [] else [44], Lead(level + 1, pretty), key, colon, shown, more);
  }

  lemma {:induction false} MembersUnfold<N>(f: Floats<N>, members: seq<Member<N>>, first: bool, level: nat,
        pretty: bool)
    requires members != []
    ensures PrintMembers(f, members, first, level, pretty) ==
      (if first then [] else [44]) + (Break(level + 1, pretty) + (Quote(members[0].key) + (Colon(pretty)
        + (Print(f, members[0].value, level + 1, pretty) + PrintMembers(f, members[1..], false, level, pretty)))))
  {
  }

  lemma {:induction false} GroupedKey(a: Text, b: Text, key: Text, colon: Text, c: Text, d: Text)
    ensures a + (b + (key + (colon + (c + d)))) == a + ((b + ((key + colon) + c)) + d)
  {
  }
}
