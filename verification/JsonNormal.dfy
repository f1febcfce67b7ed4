/** Which values and texts survive printing. */
module JsonNormal {
  import opened Wrappers
  import opened Bytes
  import opened Slices
  import opened Json
  import opened JsonRoundTrip

  // ----- the text of a number is a number -----

  lemma {:induction false} DigitsOfSlice(t: Text, i: nat, l: Text, j: nat)
    requires Stands(t, i, l) && j <= |l| && DigitsEnd(t, i + j) <= i + |l|
    ensures DigitsEnd(t, i + j) == i + DigitsEnd(l, j)
    decreases |l| - j
  {
    if j >= |l| {
    } else {
      StandsAt(t, i, l, j);
      if IsDigit(l[j]) {
        DigitsOfSlice(t, i, l, j + 1);
      }
    }
  }

  lemma {:induction false} AtOfSlice(t: Text, i: nat, l: Text, j: nat, c: Byte)
    requires Stands(t, i, l) && (At(t, i + j, c) ==> j < |l|)
    ensures At(t, i + j, c) <==> At(l, j, c)
  {
  }

  lemma {:induction false} MantissaOfSlice(t: Text, i: nat, l: Text)
    requires Stands(t, i, l) && MantissaEnd(t, i).0 <= i + |l| && MantissaEnd(t, i).1
    ensures MantissaEnd(t, i) == (i + MantissaEnd(l, 0).0, MantissaEnd(l, 0).1)
  {
    AtOfSlice(t, i, l, 0, MINUS);
    var start := if At(t, i, MINUS) then 1 else 0;
    DigitsOfSlice(t, i, l, start);
    var whole := DigitsEnd(l, start);
    assert DigitsEnd(t, i + start) == i + whole;
    AtOfSlice(t, i, l, whole, DOT);
    if At(l, whole, DOT) {
      DigitsOfSlice(t, i, l, whole + 1);
    }
  }

  lemma {:induction false} ExponentOfSlice(t: Text, i: nat, l: Text, j: nat)
    requires Stands(t, i, l) && j <= |l| && ExponentEnd(t, i + j) == Some(i + |l|)
    ensures ExponentEnd(l, j) == Some(|l|)
  {
  }

  lemma {:induction false} NumberOfSlice(t: Text, i: nat, end: nat)
    requires i <= |t| && NumberEnd(t, i) == Some(end)
    ensures NumberEnd(t[i..end], 0) == Some(end - i)
  {
    var l := t[i..end];
    var mantissa := MantissaEnd(t, i).0;
    assert mantissa <= end;
    MantissaOfSlice(t, i, l);
    ExponentOfSlice(t, i, l, MantissaEnd(l, 0).0);
  }

  // ----- parsed values -----

  ghost predicate IsNumber(l: Text) {
    NumberEnd(l, 0) == Some(|l|)
  }

  /** The number was read from a text in the grammar. */
  ghost function FromText<N>(f: Floats<N>): N -> bool {
    n => exists l :: IsNumber(l) && f.read(l) == n
  }

  lemma {:induction false} AllAppend<N>(p: N -> bool, items: seq<Value<N>>, v: Value<N>)
    requires AllItems(p, items) && All(p, v)
    ensures AllItems(p, items + [v])
    decreases |items|
  {
    var all := items + [v];
    if items == [] {
      assert all[1..] == [];
    } else {
      AllAppend(p, items[1..], v);
      assert all[1..] == items[1..] + [v];
    }
  }

  lemma {:induction false} AllAppendMember<N>(p: N -> bool, members: seq<Member<N>>, m: Member<N>)
    requires AllMembers(p, members) && All(p, m.value)
    ensures AllMembers(p, members + [m])
    decreases |members|
  {
    var all := members + [m];
    if members == [] {
      assert all[1..] == [];
    } else {
      AllAppendMember(p, members[1..], m);
      assert all[1..] == members[1..] + [m];
    }
  }

  lemma {:induction false} ValueFormed<N>(f: Floats<N>, t: Text, i: nat)
    requires i <= |t| && ParseValue(f, t, i).Ok?
    ensures All(FromText(f), ParseValue(f, t, i).value)
    decreases |t| - i, 1
  {
    var c := SkipWs(t, i);
    if t[c] == QUOTE {
    } else if t[c] == OPEN_BRACE {
      var s := SkipWs(t, c + 1);
      if !At(t, s, CLOSE_BRACE) {
        MembersFormed(f, t, s, []);
      }
    } else if t[c] == OPEN_BRACKET {
      var s := SkipWs(t, c + 1);
      if !At(t, s, CLOSE_BRACKET) {
        ItemsFormed(f, t, s, []);
      }
    } else if !Word(t, c, TRUE) && !Word(t, c, FALSE) && !Word(t, c, NULL) {
      var end := NumberEnd(t, c).value;
      NumberOfSlice(t, c, end);
      assert IsNumber(t[c..end]);
    }
  }

  lemma {:induction false} ItemsFormed<N>(f: Floats<N>, t: Text, i: nat, items: seq<Value<N>>)
    requires i <= |t| && AllItems(FromText(f), items) && ParseItems(f, t, i, items).Ok?
    ensures All(FromText(f), ParseItems(f, t, i, items).value)
    decreases |t| - i, 2
  {
    var r := ParseValue(f, t, i);
    ValueFormed(f, t, i);
    AllAppend(FromText(f), items, r.value);
    var c := SkipWs(t, r.next);
    if At(t, c, COMMA) {
      ItemsFormed(f, t, SkipWs(t, c + 1), items + [r.value]);
    } else {
      assert All(FromText(f), Arr(items + [r.value]));
    }
  }

  lemma {:induction false} MemberFormed<N>(f: Floats<N>, t: Text, i: nat)
    requires i <= |t| && ParseMember(f, t, i).Ok?
    ensures All(FromText(f), ParseMember(f, t, i).value.value)
    decreases |t| - i, 2
  {
    ValueFormed(f, t, ParseKey(t, i).next);
  }

  lemma {:induction false} MembersFormed<N>(f: Floats<N>, t: Text, i: nat, members: seq<Member<N>>)
    requires i <= |t| && AllMembers(FromText(f), members) && ParseMembers(f, t, i, members).Ok?
    ensures All(FromText(f), ParseMembers(f, t, i, members).value)
    decreases |t| - i, 3
  {
    var m := ParseMember(f, t, i);
    MemberFormed(f, t, i);
    AllAppendMember(FromText(f), members, m.value);
    var c := SkipWs(t, m.next);
    if At(t, c, COMMA) {
      MembersFormed(f, t, SkipWs(t, c + 1), members + [m.value]);
    } else {
      assert All(FromText(f), Obj(members + [m.value]));
    }
  }

  // ----- numbers that survive -----

  /** The text of the number is in the grammar and is converted back to the number. */
  function Survives<N(==)>(f: Floats<N>): N -> bool {
    n => NumberEnd(f.show(n), 0) == Some(|f.show(n)|) && f.read(f.show(n)) == n
  }

  /** Nothing but the numbers changes. */
  lemma {:induction false} RereadKeeps<N>(f: Floats<N>, v: Value<N>)
    requires All(Written(f), v)
    ensures Reread(f, v) == v <==> All(Survives(f), v)
    decreases Size(v)
  {
    match v
    case Arr(items) => RereadItemsKeeps(f, items);
    case Obj(members) => RereadMembersKeeps(f, members);
    case _ =>
  }

  lemma {:induction false} RereadItemsKeeps<N>(f: Floats<N>, items: seq<Value<N>>)
    requires AllItems(Written(f), items)
    ensures RereadItems(f, items) == items <==> AllItems(Survives(f), items)
    decreases SizeItems(items)
  {
    if items == [] {
    } else {
      RereadKeeps(f, items[0]);
      RereadItemsKeeps(f, items[1..]);
      var all := RereadItems(f, items);
      assert all == [all[0]] + all[1..] && items == [items[0]] + items[1..];
    }
  }

  lemma {:induction false} RereadMembersKeeps<N>(f: Floats<N>, members: seq<Member<N>>)
    requires AllMembers(Written(f), members)
    ensures RereadMembers(f, members) == members <==> AllMembers(Survives(f), members)
    decreases SizeMembers(members)
  {
    if members == [] {
    } else {
      RereadKeeps(f, members[0].value);
      RereadMembersKeeps(f, members[1..]);
      var all := RereadMembers(f, members);
      assert all == [all[0]] + all[1..] && members == [members[0]] + members[1..];
    }
  }

  // ----- only numbers that survive are read back -----

  predicate IsPlainByte(c: Byte) {
    && !IsWhitespace(c) && c != QUOTE && c != COMMA && c != COLON
    && c != OPEN_BRACKET && c != CLOSE_BRACKET && c != OPEN_BRACE && c != CLOSE_BRACE
  }

  /** What a conversion to text may write: something, without whitespace, quotes and punctuation. */
  predicate IsPlain(l: Text) {
    |l| > 0 && forall k | 0 <= k < |l| :: IsPlainByte(l[k])
  }

  function Plain<N>(f: Floats<N>): N -> bool {
    n => IsPlain(f.show(n))
  }

  /** After whitespace the text ends at `j`, or an element, an array or an object does. */
  predicate Closes(t: Text, j: nat)
    requires j <= |t|
  {
    var c := SkipWs(t, j);
    c == |t| || t[c] == COMMA || t[c] == CLOSE_BRACKET || t[c] == CLOSE_BRACE
  }

  lemma {:induction false} PlainStopsLate(t: Text, i: nat, l: Text, j: nat)
    requires IsPlain(l) && Stands(t, i, l) && j <= |l|
    ensures Closes(t, i + j) ==> j == |l|
  {
    if j < |l| {
      StandsAt(t, i, l, j);
      assert IsPlainByte(l[j]);
    }
  }

  lemma {:induction false} NumberBack<N>(f: Floats<N>, t: Text, i: nat, n: N, next: nat)
    requires var l := f.show(n); IsPlain(l) && Stands(t, i, l) && Stops(t, i + |l|)
    requires ValueAt(f, t, i, Number(n), next) && Closes(t, next)
    ensures Survives(f)(n)
  {
    var l := f.show(n);
    StandsAt(t, i, l, 0);
    NumberValue(f, t, i, n, next);
    NumberMoves(t, i, l);
    var end := NumberEnd(l, 0).value;
    PlainStopsLate(t, i, l, end);
    assert t[i..next] == l;
  }

  lemma {:induction false} NumberValue<N>(f: Floats<N>, t: Text, i: nat, n: N, next: nat)
    requires ValueAt(f, t, i, Number(n), next) && i < |t| && IsPlainByte(t[i])
    ensures NumberEnd(t, i) == Some(next) && f.read(t[i..next]) == n
  {
    assert Unseal(0);
    assert SkipWs(t, i) == i;
  }

  lemma {:induction false} ValueBack<N>(f: Floats<N>, t: Text, i: nat, v: Value<N>, level: nat, pretty: bool, next: nat)
    requires All(Plain(f), v)
    requires var p := Print(f, v, level, pretty); Stands(t, i, p) && Stops(t, i + |p|)
    requires ValueAt(f, t, i, v, next) && Closes(t, next)
    ensures All(Survives(f), v)
    decreases Size(v), 0
  {
    match v
    case Number(n) => NumberBack(f, t, i, n, next);
    case Arr(items) =>
      if items != [] {
        ArrayBack(f, t, i, items, level, pretty, next);
      }
    case Obj(members) =>
      if members != [] {
        ObjectBack(f, t, i, members, level, pretty, next);
      }
    case _ =>
  }

  lemma {:induction false} ReadsAgain<N>(f: Floats<N>, t: Text, i: nat, v: Value<N>, level: nat, pretty: bool)
    requires All(Survives(f), v)
    requires var p := Print(f, v, level, pretty); Stands(t, i, p) && Stops(t, i + |p|)
    ensures ValueAt(f, t, i, v, i + |Print(f, v, level, pretty)|)
  {
    AllWeaker(Survives(f), Written(f), v);
    RereadKeeps(f, v);
    ValueReads(f, t, i, v, level, pretty);
  }

  // ----- arrays that are read back -----

  lemma {:induction false} ArrayBack<N>(
      f: Floats<N>, t: Text, i: nat, items: seq<Value<N>>, level: nat, pretty: bool, next: nat)
    requires items != [] && AllItems(Plain(f), items) && Stands(t, i, Print(f, Arr(items), level, pretty))
    requires ValueAt(f, t, i, Arr(items), next)
    ensures AllItems(Survives(f), items)
    decreases SizeItems(items), 1
  {
    var text := ItemsText(f, items, level, pretty);
    ArrayText(f, items, level, pretty);
    AllItemsWeaker(Plain(f), Solid(f), items);
    ItemsTextStarts(f, items, level, pretty);
    OpenReads(t, i, OPEN_BRACKET, text, level + 1, pretty);
    var s := i + 1 + |Break(level + 1, pretty)|;
    ArrayOpens(f, t, i, s, items, next);
    assert [] + items == items;
    ItemsBack(f, t, s, items, [], level, pretty, next);
  }

  lemma {:induction false} ArrayOpens<N>(f: Floats<N>, t: Text, i: nat, start: nat, items: seq<Value<N>>, next: nat)
    requires At(t, i, OPEN_BRACKET) && SkipWs(t, i + 1) == start < |t| && t[start] != CLOSE_BRACKET
    requires ValueAt(f, t, i, Arr(items), next)
    ensures ItemsAt(f, t, start, [], items, next)
  {
    assert Unseal(0);
    assert SkipWs(t, i) == i;
    assert ParseValue(f, t, i) == ParseArray(f, t, i) == ParseItems(f, t, start, []);
    ItemsMove(f, t, start, []);
  }

  lemma {:induction false} ItemsMove<N>(f: Floats<N>, t: Text, i: nat, before: seq<Value<N>>)
    requires i <= |t| && ParseItems(f, t, i, before).Ok?
    ensures i < ParseItems(f, t, i, before).next <= |t|
  {
  }

  /** The first of the elements that are read, and those after it. */
  lemma {:induction false} ItemsTurn<N>(f: Floats<N>, t: Text, i: nat, before: seq<Value<N>>, all: seq<Value<N>>,
        q: nat)
      returns (item: Value<N>, next: nat)
    requires ItemsAt(f, t, i, before, all, q)
    ensures ValueAt(f, t, i, item, next) && Closes(t, next)
    ensures var c := SkipWs(t, next);
      if At(t, c, COMMA) then ItemsAt(f, t, SkipWs(t, c + 1), before + [item], all, q) else all == before + [item]
  {
    assert Unseal(0);
    item, next := ParseValue(f, t, i).value, ParseValue(f, t, i).next;
    var c := SkipWs(t, next);
    if At(t, c, COMMA) {
      ItemsMove(f, t, SkipWs(t, c + 1), before + [item]);
    }
  }

  lemma {:induction false} ShorterPrefix<T>(before: seq<T>, x: T, all: seq<T>)
    requires before + [x] <= all
    ensures before <= all
  {
  }

  /** The array that is read starts with the elements before. */
  lemma {:induction false} ItemsExtend<N>(f: Floats<N>, t: Text, i: nat, before: seq<Value<N>>, all: seq<Value<N>>,
        q: nat)
    requires ItemsAt(f, t, i, before, all, q)
    ensures before <= all
    decreases |t| - i
  {
    var item, next := ItemsTurn(f, t, i, before, all, q);
    var c := SkipWs(t, next);
    if At(t, c, COMMA) {
      ItemsExtend(f, t, SkipWs(t, c + 1), before + [item], all, q);
      ShorterPrefix(before, item, all);
    }
  }

  lemma {:induction false} SameHead<T>(before: seq<T>, x: T, later: seq<T>)
    requires later != [] && before + [x] <= before + later
    ensures x == later[0]
  {
    assert (before + [x])[|before|] == (before + later)[|before|];
  }

  lemma {:induction false} ItemsTaken<N>(f: Floats<N>, t: Text, i: nat, before: seq<Value<N>>, items: seq<Value<N>>,
        q: nat)
      returns (next: nat)
    requires items != [] && ItemsAt(f, t, i, before, before + items, q)
    ensures ValueAt(f, t, i, items[0], next) && Closes(t, next)
    ensures At(t, SkipWs(t, next), COMMA) ==>
      ItemsAt(f, t, SkipWs(t, SkipWs(t, next) + 1), before + [items[0]], before + items, q)
  {
    var item;
    item, next := ItemsTurn(f, t, i, before, before + items, q);
    var c := SkipWs(t, next);
    if At(t, c, COMMA) {
      ItemsExtend(f, t, SkipWs(t, c + 1), before + [item], before + items, q);
    }
    SameHead(before, item, items);
  }

  /** The first element, and where the others are read if a comma follows. */
  lemma {:induction false} ItemBack<N>(
      f: Floats<N>, t: Text, i: nat, items: seq<Value<N>>, before: seq<Value<N>>, level: nat, pretty: bool, q: nat,
      s: nat, end: nat)
    requires items != [] && All(Plain(f), items[0])
    requires var p := Print(f, items[0], level, pretty); Stands(t, i, p) && q == i + |p| && Stops(t, q)
    requires ItemsAt(f, t, i, before, before + items, end)
    ensures All(Survives(f), items[0])
    ensures SkipWs(t, q) == q && At(t, q, COMMA) && SkipWs(t, q + 1) == s ==>
      ItemsAt(f, t, s, before + [items[0]], before + items, end)
    decreases Size(items[0]), 1
  {
    var next := ItemsTaken(f, t, i, before, items, end);
    ValueBack(f, t, i, items[0], level, pretty, next);
    ReadsAgain(f, t, i, items[0], level, pretty);
    SameEnd(f, t, i, items[0], q, next);
  }

  lemma {:induction false} PlainItemStands<N>(
      f: Floats<N>, t: Text, i: nat, items: seq<Value<N>>, level: nat, pretty: bool, q: nat, s: nat)
    requires items != [] && AllItems(Plain(f), items) && Stands(t, i, ItemsText(f, items, level, pretty))
    requires q == i + |Print(f, items[0], level + 1, pretty)| && s == q + 1 + |Break(level + 1, pretty)|
    ensures Stands(t, i, Print(f, items[0], level + 1, pretty)) && Stops(t, q)
    ensures |items| >= 2 ==>
      && SkipWs(t, q) == q && At(t, q, COMMA) && SkipWs(t, q + 1) == s
      && Stands(t, s, ItemsText(f, items[1..], level, pretty))
  {
    AllItemsWeaker(Plain(f), Solid(f), items);
    ItemsStand(f, t, i, items, level, pretty, q, i + |ItemsText(f, items, level, pretty)|);
  }

  lemma {:induction false} ItemsBack<N>(
      f: Floats<N>, t: Text, i: nat, items: seq<Value<N>>, before: seq<Value<N>>, level: nat, pretty: bool, end: nat)
    requires items != [] && AllItems(Plain(f), items) && Stands(t, i, ItemsText(f, items, level, pretty))
    requires ItemsAt(f, t, i, before, before + items, end)
    ensures AllItems(Survives(f), items)
    decreases SizeItems(items), 0
  {
    var item := items[0];
    var q := i + |Print(f, item, level + 1, pretty)|;
    var s := q + 1 + |Break(level + 1, pretty)|;
    PlainItemStands(f, t, i, items, level, pretty, q, s);
    ItemBack(f, t, i, items, before, level + 1, pretty, q, s, end);
    if |items| >= 2 {
      Appended(before, items);
      ItemsBack(f, t, s, items[1..], before + [item], level, pretty, end);
    }
  }

  lemma {:induction false} SameEnd<N>(f: Floats<N>, t: Text, i: nat, v: Value<N>, q: nat, next: nat)
    requires ValueAt(f, t, i, v, q) && ValueAt(f, t, i, v, next)
    ensures q == next
  {
    assert Unseal(0);
  }

  // ----- objects that are read back -----

  lemma {:induction false} ObjectBack<N>(
      f: Floats<N>, t: Text, i: nat, members: seq<Member<N>>, level: nat, pretty: bool, next: nat)
    requires members != [] && AllMembers(Plain(f), members) && Stands(t, i, Print(f, Obj(members), level, pretty))
    requires ValueAt(f, t, i, Obj(members), next)
    ensures AllMembers(Survives(f), members)
    decreases SizeMembers(members), 1
  {
    var text := MembersText(f, members, level, pretty);
    ObjectText(f, members, level, pretty);
    MembersTextStarts(f, members, level, pretty);
    OpenReads(t, i, OPEN_BRACE, text, level + 1, pretty);
    var s := i + 1 + |Break(level + 1, pretty)|;
    ObjectOpens(f, t, i, s, members, next);
    assert [] + members == members;
    MembersBack(f, t, s, members, [], level, pretty, next);
  }

  lemma {:induction false} ObjectOpens<N>(f: Floats<N>, t: Text, i: nat, start: nat, members: seq<Member<N>>, next: nat)
    requires At(t, i, OPEN_BRACE) && SkipWs(t, i + 1) == start < |t| && t[start] != CLOSE_BRACE
    requires ValueAt(f, t, i, Obj(members), next)
    ensures MembersAt(f, t, start, [], members, next)
  {
    assert Unseal(0);
    assert SkipWs(t, i) == i;
    assert ParseValue(f, t, i) == ParseObject(f, t, i) == ParseMembers(f, t, start, []);
    MembersMove(f, t, start, []);
  }

  lemma {:induction false} MembersMove<N>(f: Floats<N>, t: Text, i: nat, before: seq<Member<N>>)
    requires i <= |t| && ParseMembers(f, t, i, before).Ok?
    ensures i < ParseMembers(f, t, i, before).next <= |t|
  {
  }

  lemma {:induction false} MemberParts<N>(f: Floats<N>, t: Text, i: nat, m: Member<N>, next: nat) returns (at: nat)
    requires i <= |t| && ParseMember(f, t, i) == Ok(m, next)
    ensures KeyAt(t, i, m.key, at) && ValueAt(f, t, at, m.value, next)
  {
    at := ParseKey(t, i).next;
  }

  lemma {:induction false} MembersTurn<N>(f: Floats<N>, t: Text, i: nat, before: seq<Member<N>>, all: seq<Member<N>>,
        q: nat)
      returns (m: Member<N>, at: nat, next: nat)
    requires MembersAt(f, t, i, before, all, q)
    ensures KeyAt(t, i, m.key, at) && ValueAt(f, t, at, m.value, next) && Closes(t, next)
    ensures var c := SkipWs(t, next);
      if At(t, c, COMMA) then MembersAt(f, t, SkipWs(t, c + 1), before + [m], all, q) else all == before + [m]
  {
    assert Unseal(0);
    m, next := ParseMember(f, t, i).value, ParseMember(f, t, i).next;
    at := MemberParts(f, t, i, m, next);
    var c := SkipWs(t, next);
    if At(t, c, COMMA) {
      MembersMove(f, t, SkipWs(t, c + 1), before + [m]);
    }
  }

  lemma {:induction false} MembersExtend<N>(f: Floats<N>, t: Text, i: nat, before: seq<Member<N>>, all: seq<Member<N>>,
        q: nat)
    requires MembersAt(f, t, i, before, all, q)
    ensures before <= all
    decreases |t| - i
  {
    var m, at, next := MembersTurn(f, t, i, before, all, q);
    var c := SkipWs(t, next);
    if At(t, c, COMMA) {
      MembersExtend(f, t, SkipWs(t, c + 1), before + [m], all, q);
      ShorterPrefix(before, m, all);
    }
  }

  lemma {:induction false} SameKey(t: Text, i: nat, key: Text, at: nat, key': Text, at': nat)
    requires KeyAt(t, i, key, at) && KeyAt(t, i, key', at')
    ensures key == key' && at == at'
  {
    assert Unseal(0);
  }

  lemma {:induction false} MembersTaken<N>(
      f: Floats<N>, t: Text, i: nat, before: seq<Member<N>>, members: seq<Member<N>>, q: nat, at: nat)
      returns (next: nat)
    requires members != [] && MembersAt(f, t, i, before, before + members, q) && KeyAt(t, i, members[0].key, at)
    ensures ValueAt(f, t, at, members[0].value, next) && Closes(t, next)
    ensures At(t, SkipWs(t, next), COMMA) ==>
      MembersAt(f, t, SkipWs(t, SkipWs(t, next) + 1), before + [members[0]], before + members, q)
  {
    var m, at';
    m, at', next := MembersTurn(f, t, i, before, before + members, q);
    var c := SkipWs(t, next);
    if At(t, c, COMMA) {
      MembersExtend(f, t, SkipWs(t, c + 1), before + [m], before + members, q);
    }
    SameHead(before, m, members);
    SameKey(t, i, m.key, at', members[0].key, at);
  }

  /** The first member, and where the others are read if a comma follows. */
  lemma {:induction false} MemberBack<N>(
      f: Floats<N>, t: Text, i: nat, members: seq<Member<N>>, before: seq<Member<N>>, level: nat, pretty: bool,
      at: nat, q: nat, s: nat, end: nat)
    requires members != [] && All(Plain(f), members[0].value) && KeyAt(t, i, members[0].key, at)
    requires var p := Print(f, members[0].value, level, pretty); Stands(t, at, p) && q == at + |p| && Stops(t, q)
    requires MembersAt(f, t, i, before, before + members, end)
    ensures All(Survives(f), members[0].value)
    ensures SkipWs(t, q) == q && At(t, q, COMMA) && SkipWs(t, q + 1) == s ==>
      MembersAt(f, t, s, before + [members[0]], before + members, end)
    decreases Size(members[0].value), 1
  {
    var next := MembersTaken(f, t, i, before, members, end, at);
    ValueBack(f, t, at, members[0].value, level, pretty, next);
    ReadsAgain(f, t, at, members[0].value, level, pretty);
    SameEnd(f, t, at, members[0].value, q, next);
  }

  lemma {:induction false} PlainMemberStands<N>(
      f: Floats<N>, t: Text, i: nat, members: seq<Member<N>>, level: nat, pretty: bool, at: nat, q: nat, s: nat)
    requires members != [] && AllMembers(Plain(f), members) && Stands(t, i, MembersText(f, members, level, pretty))
    requires at == i + |KeyText(members[0].key, pretty)| && q == at + |Print(f, members[0].value, level + 1, pretty)|
    requires s == q + 1 + |Break(level + 1, pretty)|
    ensures KeyAt(t, i, members[0].key, at) && Stands(t, at, Print(f, members[0].value, level + 1, pretty))
      && Stops(t, q)
    ensures |members| >= 2 ==>
      && SkipWs(t, q) == q && At(t, q, COMMA) && SkipWs(t, q + 1) == s
      && Stands(t, s, MembersText(f, members[1..], level, pretty))
  {
    AllMembersWeaker(Plain(f), Solid(f), members);
    MembersStand(f, t, i, members, level, pretty, at, q, i + |MembersText(f, members, level, pretty)|);
  }

  lemma {:induction false} MembersBack<N>(
      f: Floats<N>, t: Text, i: nat, members: seq<Member<N>>, before: seq<Member<N>>, level: nat, pretty: bool,
      end: nat)
    requires members != [] && AllMembers(Plain(f), members) && Stands(t, i, MembersText(f, members, level, pretty))
    requires MembersAt(f, t, i, before, before + members, end)
    ensures AllMembers(Survives(f), members)
    decreases SizeMembers(members), 0
  {
    var m := members[0];
    var at := i + |KeyText(m.key, pretty)|;
    var q := at + |Print(f, m.value, level + 1, pretty)|;
    var s := q + 1 + |Break(level + 1, pretty)|;
    PlainMemberStands(f, t, i, members, level, pretty, at, q, s);
    MemberBack(f, t, i, members, before, level + 1, pretty, at, q, s, end);
    if |members| >= 2 {
      Appended(before, members);
      MembersBack(f, t, s, members[1..], before + [m], level, pretty, end);
    }
  }

  // ----- main results -----

  /** A value comes back from its print, in either form, exactly if all its numbers survive. */
  lemma {:induction false} RoundTripExactly<N>(f: Floats<N>, v: Value<N>, pretty: bool)
    requires All(Plain(f), v)
    ensures Parse(f, Print(f, v, 0, pretty)) == v <==> All(Survives(f), v)
  {
    var p := Print(f, v, 0, pretty);
    assert [] + (p + []) == p;
    if All(Survives(f), v) {
      AllWeaker(Survives(f), Written(f), v);
      PrintedIsRead(f, v, pretty, [], []);
      RereadKeeps(f, v);
    }
    if Parse(f, p) == v && Whole(f, p).Some? {
      StandsWhole(p);
      ValueBack(f, p, 0, v, 0, pretty, ParseValue(f, p, 0).next);
    } else if Parse(f, p) == v {
      assert v.Null?;
    }
  }

  /** Printing the value of a text and reading that gives the same value. */
  ghost predicate Kept<N>(f: Floats<N>, t: Text, pretty: bool) {
    Parse(f, Print(f, Parse(f, t), 0, pretty)) == Parse(f, t)
  }

  /** A text is kept exactly if the numbers in it survive. */
  lemma {:induction false} ReprintExactly<N>(f: Floats<N>, t: Text, pretty: bool)
    requires All(Plain(f), Parse(f, t))
    ensures Kept(f, t, pretty) <==> All(Survives(f), Parse(f, t))
  {
    RoundTripExactly(f, Parse(f, t), pretty);
  }

  /** Every text is kept exactly if every number that can be written survives. */
  lemma {:induction false} ReprintKeeps<N>(f: Floats<N>, pretty: bool)
    requires forall l | IsNumber(l) :: Plain(f)(f.read(l))
    ensures (forall t :: Kept(f, t, pretty)) <==> (forall l | IsNumber(l) :: Survives(f)(f.read(l)))
  {
    if forall l | IsNumber(l) :: Survives(f)(f.read(l)) {
      forall t
        ensures Kept(f, t, pretty)
      {
        ParsedFormed(f, t);
        AllWeaker(FromText(f), Plain(f), Parse(f, t));
        AllWeaker(FromText(f), Survives(f), Parse(f, t));
        ReprintExactly(f, t, pretty);
      }
    }
    if forall t :: Kept(f, t, pretty) {
      forall l | IsNumber(l)
        ensures Survives(f)(f.read(l))
      {
        LoneNumber(f, l);
        ReprintExactly(f, l, pretty);
        assert Kept(f, l, pretty);
      }
    }
  }

  lemma {:induction false} ParsedFormed<N>(f: Floats<N>, t: Text)
    ensures All(FromText(f), Parse(f, t))
  {
    if Whole(f, t).Some? {
      ValueFormed(f, t, 0);
    }
  }

  lemma {:induction false} LoneNumber<N>(f: Floats<N>, l: Text)
    requires IsNumber(l)
    ensures Parse(f, l) == Number(f.read(l))
  {
    NumberStarts(l);
    NumberIsNoWord(l, 0);
    assert l[0..|l|] == l;
  }

  // ----- what one print settles -----

  /** Converting the text of the number back and forth gives the same text. */
  function Settles<N>(f: Floats<N>): N -> bool {
    n => f.show(f.read(f.show(n))) == f.show(n)
  }

  lemma {:induction false} RereadPrints<N>(f: Floats<N>, v: Value<N>, level: nat, pretty: bool)
    requires All(Settles(f), v)
    ensures Print(f, Reread(f, v), level, pretty) == Print(f, v, level, pretty)
    decreases Size(v)
  {
    match v
    case Arr(items) => RereadItemsPrint(f, items, true, level, pretty);
    case Obj(members) => RereadMembersPrint(f, members, true, level, pretty);
    case _ =>
  }

  lemma {:induction false} RereadItemsPrint<N>(f: Floats<N>, items: seq<Value<N>>, first: bool, level: nat,
        pretty: bool)
    requires AllItems(Settles(f), items)
    ensures PrintItems(f, RereadItems(f, items), first, level, pretty) == PrintItems(f, items, first, level, pretty)
    decreases SizeItems(items)
  {
    if items == [] {
    } else {
      RereadPrints(f, items[0], level + 1, pretty);
      RereadItemsPrint(f, items[1..], false, level, pretty);
      assert RereadItems(f, items)[1..] == RereadItems(f, items[1..]);
    }
  }

  lemma {:induction false} RereadMembersPrint<N>(f: Floats<N>, members: seq<Member<N>>, first: bool, level: nat,
        pretty: bool)
    requires AllMembers(Settles(f), members)
    ensures PrintMembers(f, RereadMembers(f, members), first, level, pretty) ==
      PrintMembers(f, members, first, level, pretty)
    decreases SizeMembers(members)
  {
    if members == [] {
    } else {
      RereadPrints(f, members[0].value, level + 1, pretty);
      RereadMembersPrint(f, members[1..], false, level, pretty);
      assert RereadMembers(f, members)[1..] == RereadMembers(f, members[1..]);
    }
  }

  /** A text that was printed is printed the same again, even where its numbers have lost digits. */
  lemma {:induction false} PrintSettles<N>(f: Floats<N>, v: Value<N>, pretty: bool)
    requires All(Written(f), v) && All(Settles(f), v)
    ensures var p := Print(f, v, 0, pretty); Print(f, Parse(f, p), 0, pretty) == p
  {
    var p := Print(f, v, 0, pretty);
    assert [] + (p + []) == p;
    PrintedIsRead(f, v, pretty, [], []);
    RereadPrints(f, v, 0, pretty);
  }

  // ----- inputs that are not kept -----

  /** 0.1234567, and what six digits keep of it. */
  const SEVEN_DIGITS: Text := [48, 46, 49, 50, 51, 52, 53, 54, 55]
  const SIX_DIGITS: Text := [48, 46, 49, 50, 51, 52, 53, 55]

  /** 1e999 and inf. */
  const TOO_LARGE: Text := [49, 101, 57, 57, 57]
  const INFINITE: Text := [105, 110, 102]

  lemma {:induction false} LongIsNumber()
    ensures IsNumber(SEVEN_DIGITS)
  {
    assert DigitsEnd(SEVEN_DIGITS, 0) == 1;
    AllDigits(SEVEN_DIGITS, 2);
  }

  lemma {:induction false} ShortIsNumber()
    ensures IsNumber(SIX_DIGITS)
  {
    assert DigitsEnd(SIX_DIGITS, 0) == 1;
    AllDigits(SIX_DIGITS, 2);
  }

  /** A conversion that keeps six digits changes a text with seven. */
  lemma {:induction false} SixDigitsLose<N>(f: Floats<N>, pretty: bool)
    requires f.show(f.read(SEVEN_DIGITS)) == SIX_DIGITS && f.read(SIX_DIGITS) != f.read(SEVEN_DIGITS)
    ensures var v := Parse(f, SEVEN_DIGITS); Parse(f, Print(f, v, 0, pretty)) == Number(f.read(SIX_DIGITS)) != v
  {
    LongIsNumber();
    ShortIsNumber();
    LoneNumber(f, SEVEN_DIGITS);
    LoneNumber(f, SIX_DIGITS);
  }

  lemma {:induction false} AllDigits(t: Text, i: nat)
    requires i <= |t| && forall j | i <= j < |t| :: IsDigit(t[j])
    ensures DigitsEnd(t, i) == |t|
    decreases |t| - i
  {
    if i >= |t| {
    } else {
      AllDigits(t, i + 1);
    }
  }

  /** A number too large for the type is printed as a text that is not valid. */
  lemma {:induction false} InfinityLost<N>(f: Floats<N>, pretty: bool)
    requires f.show(f.read(TOO_LARGE)) == INFINITE
    ensures var v := Parse(f, TOO_LARGE); v.Number? && Parse(f, Print(f, v, 0, pretty)) == Null
  {
    assert IsNumber(TOO_LARGE) by {
      assert DigitsEnd(TOO_LARGE, 0) == 1;
      AllDigits(TOO_LARGE, 2);
    }
    LoneNumber(f, TOO_LARGE);
    assert SkipWs(INFINITE, 0) == 0;
    assert DigitsEnd(INFINITE, 0) == 0;
  }
}
