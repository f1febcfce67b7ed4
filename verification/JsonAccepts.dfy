/** Every document is taken, and nothing else. */
module JsonAccepts {
  import opened Wrappers
  import opened Bytes
  import opened Slices
  import opened Json
  import opened JsonRoundTrip
  import opened JsonGrammar
  import opened JsonDocument

  // ----- one step of the parser -----

  lemma {:induction false} ItemsGoOn<N>(
      f: Floats<N>, t: Text, i: nat, before: seq<Value<N>>, v: Value<N>, next: nat, c: nat, all: seq<Value<N>>, q: nat)
    requires ValueAt(f, t, i, v, next) && SkipWs(t, next) == c && At(t, c, 44)
    requires ItemsAt(f, t, SkipWs(t, c + 1), before + [v], all, q)
    ensures ItemsAt(f, t, i, before, all, q)
  {
    assert Unseal(0);
  }

  lemma {:induction false} MembersGoOn<N>(
      f: Floats<N>, t: Text, i: nat, before: seq<Member<N>>, m: Member<N>, at: nat, next: nat, c: nat,
      all: seq<Member<N>>, q: nat)
    requires KeyAt(t, i, m.key, at) && ValueAt(f, t, at, m.value, next) && SkipWs(t, next) == c && At(t, c, 44)
    requires MembersAt(f, t, SkipWs(t, c + 1), before + [m], all, q)
    ensures MembersAt(f, t, i, before, all, q)
  {
    assert Unseal(0);
  }

  lemma {:induction false} EmptyArrayReads<N>(f: Floats<N>, t: Text, i: nat, c: nat)
    requires At(t, i, 91) && SkipWs(t, i + 1) == c && At(t, c, 93)
    ensures ValueAt(f, t, i, Arr([]), c + 1)
  {
    assert SkipWs(t, i) == i;
  }

  lemma {:induction false} EmptyObjectReads<N>(f: Floats<N>, t: Text, i: nat, c: nat)
    requires At(t, i, 123) && SkipWs(t, i + 1) == c && At(t, c, 125)
    ensures ValueAt(f, t, i, Obj([]), c + 1)
  {
    assert SkipWs(t, i) == i;
  }

  // ----- first bytes -----

  lemma {:induction false} SpacesSkip(t: Text, i: nat, w: Text)
    requires Spaces(w) && Stands(t, i, w)
    requires i + |w| < |t| ==> t[i + |w|] !in {32, 9, 10, 13}
    ensures SkipWs(t, i) == i + |w|
  {
    assert AllSpace(w);
    Skips(t, i, w);
  }

  lemma {:induction false} DocFirst(d: Doc)
    requires DocOk(d)
    ensures Write(d) != [] && Write(d)[0] !in {32, 9, 10, 13, 93, 125}
  {
    if d.NumberDoc? {
      NumeralEnds(d.n);
      NumberStarts(WriteNumeral(d.n));
    }
  }

  // ----- values without values in them -----

  lemma {:induction false} StringReads(t: Text, i: nat, us: seq<Unit>)
    requires UnitsOk(us) && Stands(t, i, WriteString(us))
    ensures ParseString(t, i) == Ok(Codes(us), i + |WriteString(us)|)
  {
    StandsSplit(t, i, [34], WriteUnits(us) + [34]);
    StandsAt(t, i, [34], 0);
    UnitsRead(t, i + 1, us, []);
    assert [] + Codes(us) == Codes(us);
  }

  lemma {:induction false} PlainDocReads<N>(f: Floats<N>, t: Text, i: nat, d: Doc)
    requires DocOk(d) && !d.ArrayDoc? && !d.ObjectDoc?
    requires Stands(t, i, Write(d)) && Stops(t, i + |Write(d)|)
    ensures ValueAt(f, t, i, ValueOf(f, d), i + |Write(d)|)
  {
    match d
    case NullDoc => WordReads(f, t, i, Null);
    case BoolDoc(b) => WordReads(f, t, i, Bool(b));
    case NumberDoc(n) =>
      NumeralEnds(n);
      NumberDocReads(f, t, i, WriteNumeral(n));
    case StringDoc(us) =>
      StandsAt(t, i, Write(d), 0);
      StringReads(t, i, us);
      assert SkipWs(t, i) == i;
    case EmptyArray(w) =>
      var c := SpaceBetween(t, i, 91, w, 93);
      EmptyArrayReads(f, t, i, c);
    case EmptyObject(w) =>
      var c := SpaceBetween(t, i, 123, w, 125);
      EmptyObjectReads(f, t, i, c);
  }

  lemma {:induction false} NumberDocReads<N>(f: Floats<N>, t: Text, i: nat, l: Text)
    requires Stands(t, i, l) && Stops(t, i + |l|) && NumberEnd(l, 0) == Some(|l|)
    ensures ValueAt(f, t, i, Number(f.read(l)), i + |l|)
  {
    NumberStarts(l);
    StandsAt(t, i, l, 0);
    NumberReads(t, i, l);
    NumberIsNoWord(t, i);
  }

  lemma {:induction false} SpaceBetween(t: Text, i: nat, open: Byte, w: Text, close: Byte) returns (c: nat)
    requires Spaces(w) && Stands(t, i, [open] + (w + [close])) && close !in {32, 9, 10, 13}
    ensures At(t, i, open) && c == i + 1 + |w| && SkipWs(t, i + 1) == c && At(t, c, close)
  {
    StandsSplit(t, i, [open], w + [close]);
    StandsAt(t, i, [open], 0);
    StandsSplit(t, i + 1, w, [close]);
    c := i + 1 + |w|;
    StandsAt(t, c, [close], 0);
    SpacesSkip(t, i + 1, w);
  }

  // ----- items and entries -----

  /** An item, where it stands before a comma or a closing bracket. */
  lemma {:induction false} ItemStands(t: Text, i: nat, it: Item, d: Text, e: nat) returns (a: nat, b: nat)
    requires ItemOk(it) && d == Write(it.doc)
    requires Stands(t, i, WriteItem(it)) && e == i + |WriteItem(it)| && e < |t| && t[e] in {44, 93, 125}
    ensures SkipWs(t, i) == a && i <= a && Stands(t, a, d) && b == a + |d| && Stops(t, b) && SkipWs(t, b) == e
  {
    a := i + |it.before|;
    b := a + |d|;
    StandsSplit(t, i, it.before, d + it.after);
    StandsSplit(t, a, d, it.after);
    DocFirst(it.doc);
    StandsAt(t, a, d, 0);
    SpacesSkip(t, i, it.before);
    SpacesSkip(t, b, it.after);
    if it.after != [] {
      StandsAt(t, b, it.after, 0);
    }
  }

  /** The first of several texts with commas between them, and what is behind it. */
  lemma {:induction false} FirstStands(t: Text, i: nat, first: Text, rest: Text, close: Byte)
    requires Stands(t, i, (first + rest) + [close])
    ensures Stands(t, i, first) && i + |first| < |t|
    ensures rest == [] ==> t[i + |first|] == close
    ensures rest != [] ==> t[i + |first|] == rest[0] && Stands(t, i + |first| + 1, rest[1..] + [close])
  {
    assert (first + rest) + [close] == first + (rest + [close]);
    StandsSplit(t, i, first, rest + [close]);
    StandsAt(t, i + |first|, rest + [close], 0);
    if rest != [] {
      assert rest + [close] == [rest[0]] + (rest[1..] + [close]);
      StandsSplit(t, i + |first|, [rest[0]], rest[1..] + [close]);
    }
  }

  lemma {:induction false} ItemsStand(t: Text, i: nat, items: seq<Item>)
    requires items != [] && ItemsOk(items) && Stands(t, i, WriteItems(items) + [93])
    ensures ItemOk(items[0])
    ensures var e := i + |WriteItem(items[0])|;
      && Stands(t, i, WriteItem(items[0])) && e < |t|
      && (if |items| == 1 then t[e] == 93 && e + 1 == i + |WriteItems(items)| + 1
          else
            && t[e] == 44 && Stands(t, e + 1, WriteItems(items[1..]) + [93])
            && e + 1 + |WriteItems(items[1..])| == i + |WriteItems(items)|)
  {
    var rest: Text := if |items| == 1 then [] else [44] + WriteItems(items[1..]);
    FirstStands(t, i, WriteItem(items[0]), rest, 93);
    if |items| > 1 {
      assert rest[1..] == WriteItems(items[1..]);
    }
  }

  /** The first element is read up to the comma or the bracket behind it. */
  lemma {:induction false} FirstItemRead<N>(f: Floats<N>, t: Text, i: nat, items: seq<Item>)
      returns (b: nat, e: nat)
    requires items != [] && ItemsOk(items) && Stands(t, i, WriteItems(items) + [93])
    ensures i <= |t| && e < |t| && b <= |t| && SkipWs(t, b) == e
    ensures ValueAt(f, t, SkipWs(t, i), ValueOf(f, items[0].doc), b) && !At(t, SkipWs(t, i), 93)
    ensures |items| == 1 ==> t[e] == 93 && e + 1 == i + |WriteItems(items)| + 1
    ensures |items| > 1 ==>
      && t[e] == 44 && Stands(t, e + 1, WriteItems(items[1..]) + [93])
      && e + 1 + |WriteItems(items[1..])| == i + |WriteItems(items)|
    decreases ItemsSize(items), 0
  {
    ItemsStand(t, i, items);
    e := i + |WriteItem(items[0])|;
    var a;
    a, b := ItemStands(t, i, items[0], Write(items[0].doc), e);
    DocFirst(items[0].doc);
    StandsAt(t, a, Write(items[0].doc), 0);
    DocReads(f, t, a, items[0].doc);
  }

  lemma {:induction false} ItemsRead<N>(
      f: Floats<N>, t: Text, i: nat, before: seq<Value<N>>, items: seq<Item>, end: nat)
    requires items != [] && ItemsOk(items) && Stands(t, i, WriteItems(items) + [93])
    requires end == i + |WriteItems(items)| + 1
    ensures ItemsAt(f, t, SkipWs(t, i), before, before + ItemValues(f, items), end)
    decreases ItemsSize(items), 1
  {
    var v := ValueOf(f, items[0].doc);
    var b, e := FirstItemRead(f, t, i, items);
    FirstValue(f, before, items);
    if |items| == 1 {
      ParseItemsLast(f, t, SkipWs(t, i), before, v, b);
    } else {
      ItemsRead(f, t, e + 1, before + [v], items[1..], end);
      ItemsGoOn(f, t, SkipWs(t, i), before, v, b, e, before + ItemValues(f, items), end);
    }
  }

  lemma {:induction false} FirstValue<N>(f: Floats<N>, before: seq<Value<N>>, items: seq<Item>)
    requires items != [] && ItemsOk(items)
    ensures before + ItemValues(f, items) == (before + [ValueOf(f, items[0].doc)]) + ItemValues(f, items[1..])
    ensures |items| == 1 ==> before + ItemValues(f, items) == before + [ValueOf(f, items[0].doc)]
  {
    Moved(before, ValueOf(f, items[0].doc), ItemValues(f, items[1..]));
  }

  lemma {:induction false} ArrayDocReads<N>(f: Floats<N>, t: Text, i: nat, items: seq<Item>)
    requires items != [] && ItemsOk(items) && Stands(t, i, [91] + (WriteItems(items) + [93]))
    ensures ValueAt(f, t, i, Arr(ItemValues(f, items)), i + |WriteItems(items)| + 2)
    decreases ItemsSize(items), 2
  {
    var vs, end := ItemValues(f, items), i + |WriteItems(items)| + 2;
    StandsSplit(t, i, [91], WriteItems(items) + [93]);
    StandsAt(t, i, [91], 0);
    var b, e := FirstItemRead(f, t, i + 1, items);
    ItemsRead(f, t, i + 1, [], items, end);
    assert [] + vs == vs;
    ParseArrayItems(f, t, i, SkipWs(t, i + 1), vs, end);
  }

  // ----- entries -----

  lemma {:induction false} KeyStands(t: Text, i: nat, e: Entry) returns (k: nat, at: nat)
    requires EntryOk(e) && Stands(t, i, WriteEntry(e))
    ensures SkipWs(t, i) == k && i <= k < at <= |t| && t[k] == 34 && KeyAt(t, k, Codes(e.key), SkipWs(t, at))
    ensures Stands(t, at, WriteItem(e.item)) && at + |WriteItem(e.item)| == i + |WriteEntry(e)|
  {
    var key := WriteString(e.key);
    var head := e.before + (key + (e.mid + [58]));
    StandsSplit(t, i, head, WriteItem(e.item));
    StandsSplit(t, i, e.before, key + (e.mid + [58]));
    k, at := i + |e.before|, i + |head|;
    StandsSplit(t, k, key, e.mid + [58]);
    StandsAt(t, k, key, 0);
    SpacesSkip(t, i, e.before);
    StringReads(t, k, e.key);
    StandsSplit(t, k + |key|, e.mid, [58]);
    StandsAt(t, at - 1, [58], 0);
    SpacesSkip(t, k + |key|, e.mid);
  }

  lemma {:induction false} EntriesStand(t: Text, i: nat, es: seq<Entry>)
    requires es != [] && EntriesOk(es) && Stands(t, i, WriteEntries(es) + [125])
    ensures EntryOk(es[0])
    ensures var e := i + |WriteEntry(es[0])|;
      && Stands(t, i, WriteEntry(es[0])) && e < |t|
      && (if |es| == 1 then t[e] == 125 && e + 1 == i + |WriteEntries(es)| + 1
          else
            && t[e] == 44 && Stands(t, e + 1, WriteEntries(es[1..]) + [125])
            && e + 1 + |WriteEntries(es[1..])| == i + |WriteEntries(es)|)
  {
    var rest: Text := if |es| == 1 then [] else [44] + WriteEntries(es[1..]);
    assert WriteEntries(es) == WriteEntry(es[0]) + rest by {
      var e := es[0];
      Joined(e.before + (WriteString(e.key) + (e.mid + [58])), WriteItem(e.item), rest);
    }
    FirstStands(t, i, WriteEntry(es[0]), rest, 125);
    if |es| > 1 {
      assert rest[1..] == WriteEntries(es[1..]);
    }
  }

  lemma {:induction false} Joined(a: Text, b: Text, c: Text)
    ensures a + (b + c) == (a + b) + c
  {
  }

  /** The first member is read up to the comma or the brace behind it. */
  lemma {:induction false} FirstEntryRead<N>(f: Floats<N>, t: Text, i: nat, es: seq<Entry>)
      returns (a: nat, b: nat, e: nat)
    requires es != [] && EntriesOk(es) && Stands(t, i, WriteEntries(es) + [125])
    ensures i <= |t| && e < |t| && b <= |t| && SkipWs(t, b) == e
    ensures KeyAt(t, SkipWs(t, i), Codes(es[0].key), a) && ValueAt(f, t, a, ValueOf(f, es[0].item.doc), b)
    ensures SkipWs(t, i) < |t| && t[SkipWs(t, i)] == 34
    ensures |es| == 1 ==> t[e] == 125 && e + 1 == i + |WriteEntries(es)| + 1
    ensures |es| > 1 ==>
      && t[e] == 44 && Stands(t, e + 1, WriteEntries(es[1..]) + [125])
      && e + 1 + |WriteEntries(es[1..])| == i + |WriteEntries(es)|
    decreases EntriesSize(es), 0
  {
    EntriesStand(t, i, es);
    var k, at := KeyStands(t, i, es[0]);
    e := i + |WriteEntry(es[0])|;
    a, b := ItemStands(t, at, es[0].item, Write(es[0].item.doc), e);
    DocReads(f, t, a, es[0].item.doc);
  }

  lemma {:induction false} EntriesRead<N>(
      f: Floats<N>, t: Text, i: nat, before: seq<Member<N>>, es: seq<Entry>, end: nat)
    requires es != [] && EntriesOk(es) && Stands(t, i, WriteEntries(es) + [125])
    requires end == i + |WriteEntries(es)| + 1
    ensures MembersAt(f, t, SkipWs(t, i), before, before + EntryValues(f, es), end)
    decreases EntriesSize(es), 1
  {
    var m := Member(Codes(es[0].key), ValueOf(f, es[0].item.doc));
    var a, b, e := FirstEntryRead(f, t, i, es);
    FirstMember(f, before, es);
    if |es| == 1 {
      ParseMembersLast(f, t, SkipWs(t, i), before, m, a, b);
    } else {
      EntriesRead(f, t, e + 1, before + [m], es[1..], end);
      MembersGoOn(f, t, SkipWs(t, i), before, m, a, b, e, before + EntryValues(f, es), end);
    }
  }

  lemma {:induction false} FirstMember<N>(f: Floats<N>, before: seq<Member<N>>, es: seq<Entry>)
    requires es != [] && EntriesOk(es)
    ensures var m := Member(Codes(es[0].key), ValueOf(f, es[0].item.doc));
      && before + EntryValues(f, es) == (before + [m]) + EntryValues(f, es[1..])
      && (|es| == 1 ==> before + EntryValues(f, es) == before + [m])
  {
    Moved(before, Member(Codes(es[0].key), ValueOf(f, es[0].item.doc)), EntryValues(f, es[1..]));
  }

  lemma {:induction false} ObjectDocReads<N>(f: Floats<N>, t: Text, i: nat, es: seq<Entry>)
    requires es != [] && EntriesOk(es) && Stands(t, i, [123] + (WriteEntries(es) + [125]))
    ensures ValueAt(f, t, i, Obj(EntryValues(f, es)), i + |WriteEntries(es)| + 2)
    decreases EntriesSize(es), 2
  {
    var ms, end := EntryValues(f, es), i + |WriteEntries(es)| + 2;
    StandsSplit(t, i, [123], WriteEntries(es) + [125]);
    StandsAt(t, i, [123], 0);
    var a, b, e := FirstEntryRead(f, t, i + 1, es);
    EntriesRead(f, t, i + 1, [], es, end);
    assert [] + ms == ms;
    ParseObjectMembers(f, t, i, SkipWs(t, i + 1), ms, end);
  }

  // ----- main results -----

  /** A document is read wherever it stands, unless something follows that could go on a number. */
  lemma {:induction false} DocReads<N>(f: Floats<N>, t: Text, i: nat, d: Doc)
    requires DocOk(d) && Stands(t, i, Write(d)) && Stops(t, i + |Write(d)|)
    ensures ValueAt(f, t, i, ValueOf(f, d), i + |Write(d)|)
    decreases DocSize(d), 2
  {
    match d
    case ArrayDoc(items) => ArrayDocReads(f, t, i, items);
    case ObjectDoc(es) => ObjectDocReads(f, t, i, es);
    case _ => PlainDocReads(f, t, i, d);
  }

  /** The text is a document between whitespace, and says this. */
  ghost predicate Says<N>(f: Floats<N>, t: Text, v: Value<N>) {
    exists before, d, after ::
      Spaces(before) && DocOk(d) && Spaces(after) && t == before + (Write(d) + after) && v == ValueOf(f, d)
  }

  lemma {:induction false} DocumentIsRead<N>(f: Floats<N>, before: Text, d: Doc, after: Text)
    requires Spaces(before) && DocOk(d) && Spaces(after)
    ensures Whole(f, before + (Write(d) + after)) == Some(ValueOf(f, d))
  {
    var t := before + (Write(d) + after);
    DocFirst(d);
    assert AllSpace(before) && AllSpace(after);
    Padding(t, before, Write(d), after);
    DocReads(f, t, |before|, d);
    WholeReads(f, t, |before|, ValueOf(f, d), |before| + |Write(d)|);
  }

  lemma {:induction false} ReadIsDocument<N>(f: Floats<N>, t: Text)
    requires Whole(f, t).Some?
    ensures Says(f, t, Whole(f, t).value)
  {
    var c, next := SkipWs(t, 0), ParseValue(f, t, 0).next;
    var d := ReadDoc(f, t, 0);
    SkippedSpaces(t, 0);
    SkippedSpaces(t, next);
    Cut3(t, 0, c, next, |t|);
    assert t[0..|t|] == t;
    assert t == t[0..c] + (Write(d) + t[next..|t|]);
  }

  /** A text is valid, with this value, if and only if it is a document that says it. */
  lemma {:induction false} AcceptsExactly<N>(f: Floats<N>, t: Text, v: Value<N>)
    ensures Whole(f, t) == Some(v) <==> Says(f, t, v)
  {
    if Whole(f, t) == Some(v) {
      ReadIsDocument(f, t);
    }
    if Says(f, t, v) {
      var before, d, after :|
        Spaces(before) && DocOk(d) && Spaces(after) && t == before + (Write(d) + after) && v == ValueOf(f, d);
      DocumentIsRead(f, before, d, after);
    }
  }
}
