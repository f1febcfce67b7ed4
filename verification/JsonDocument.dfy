/** Exactly which texts the JSON parser takes: those of the documents below, and what they are read as. */
module JsonDocument {
  import opened Bytes
  import opened Json
  import opened JsonNormal
  import opened JsonGrammar

  // ----- documents -----

  /** A value as it is written, with the whitespace inside it. */
  datatype Doc =
    | NullDoc
    | BoolDoc(b: bool)
    | NumberDoc(n: Numeral)
    | StringDoc(us: seq<Unit>)
    | EmptyArray(space: Text)
    | ArrayDoc(items: seq<Item>)
    | EmptyObject(space: Text)
    | ObjectDoc(entries: seq<Entry>)

  /** A value with whitespace on both sides. */
  datatype Item = Item(before: Text, doc: Doc, after: Text)

  /** Whitespace, a key, whitespace, a colon, and the value. */
  datatype Entry = Entry(before: Text, key: seq<Unit>, mid: Text, item: Item)

  function DocSize(d: Doc): nat
    decreases d
  {
    match d
    case ArrayDoc(items) => 1 + ItemsSize(items)
    case ObjectDoc(entries) => 1 + EntriesSize(entries)
    case _ => 1
  }

  function ItemsSize(items: seq<Item>): nat
    decreases items
  {
    if items == [] then 0 else 1 + DocSize(items[0].doc) + ItemsSize(items[1..])
  }

  function EntriesSize(entries: seq<Entry>): nat
    decreases entries
  {
    if entries == [] then 0 else 1 + DocSize(entries[0].item.doc) + EntriesSize(entries[1..])
  }

  predicate Spaces(w: Text) {
    forall i | 0 <= i < |w| :: w[i] in {32, 9, 10, 13}
  }

  predicate DocOk(d: Doc)
    decreases DocSize(d)
  {
    match d
    case NullDoc => true
    case BoolDoc(_) => true
    case NumberDoc(n) => NumeralOk(n)
    case StringDoc(us) => UnitsOk(us)
    case EmptyArray(space) => Spaces(space)
    case ArrayDoc(items) => items != [] && ItemsOk(items)
    case EmptyObject(space) => Spaces(space)
    case ObjectDoc(entries) => entries != [] && EntriesOk(entries)
  }

  predicate ItemsOk(items: seq<Item>)
    decreases ItemsSize(items)
  {
    items == [] ||
    (Spaces(items[0].before) && DocOk(items[0].doc) && Spaces(items[0].after) && ItemsOk(items[1..]))
  }

  predicate EntriesOk(entries: seq<Entry>)
    decreases EntriesSize(entries)
  {
    entries == [] ||
    (&& Spaces(entries[0].before) && UnitsOk(entries[0].key) && Spaces(entries[0].mid)
     && Spaces(entries[0].item.before) && DocOk(entries[0].item.doc) && Spaces(entries[0].item.after)
     && EntriesOk(entries[1..]))
  }

  function WriteString(us: seq<Unit>): Text
    requires UnitsOk(us)
  {
    [34] + (WriteUnits(us) + [34])
  }

  function Write(d: Doc): Text
    requires DocOk(d)
    decreases DocSize(d), 0
  {
    match d
    case NullDoc => [110, 117, 108, 108]
    case BoolDoc(b) => if b then [116, 114, 117, 101] else [102, 97, 108, 115, 101]
    case NumberDoc(n) => WriteNumeral(n)
    case StringDoc(us) => WriteString(us)
    case EmptyArray(space) => [91] + (space + [93])
    case ArrayDoc(items) => [91] + (WriteItems(items) + [93])
    case EmptyObject(space) => [123] + (space + [125])
    case ObjectDoc(entries) => [123] + (WriteEntries(entries) + [125])
  }

  /** Elements with a comma between each two. */
  function WriteItems(items: seq<Item>): Text
    requires ItemsOk(items) && items != []
    decreases ItemsSize(items), 0
  {
    (items[0].before + (Write(items[0].doc) + items[0].after))
    + if |items| == 1 then [] else [44] + WriteItems(items[1..])
  }

  function WriteEntries(entries: seq<Entry>): Text
    requires EntriesOk(entries) && entries != []
    decreases EntriesSize(entries), 0
  {
    var e := entries[0];
    (e.before + (WriteString(e.key) + (e.mid + [58]))) + ((e.item.before + (Write(e.item.doc) + e.item.after))
    + if |entries| == 1 then [] else [44] + WriteEntries(entries[1..]))
  }

  /** What the document says. */
  function ValueOf<N>(f: Floats<N>, d: Doc): Value<N>
    requires DocOk(d)
    decreases DocSize(d)
  {
    match d
    case NullDoc => Null
    case BoolDoc(b) => Bool(b)
    case NumberDoc(n) => Number(f.read(WriteNumeral(n)))
    case StringDoc(us) => Str(Codes(us))
    case EmptyArray(_) => Arr([])
    case ArrayDoc(items) => Arr(ItemValues(f, items))
    case EmptyObject(_) => Obj([])
    case ObjectDoc(entries) => Obj(EntryValues(f, entries))
  }

  function ItemValues<N>(f: Floats<N>, items: seq<Item>): seq<Value<N>>
    requires ItemsOk(items)
    decreases ItemsSize(items)
  {
    if items == [] then [] else [ValueOf(f, items[0].doc)] + ItemValues(f, items[1..])
  }

  function EntryValues<N>(f: Floats<N>, entries: seq<Entry>): seq<Member<N>>
    requires EntriesOk(entries)
    decreases EntriesSize(entries)
  {
    if entries == [] then []
    else [Member(Codes(entries[0].key), ValueOf(f, entries[0].item.doc))] + EntryValues(f, entries[1..])
  }

  // ----- what is read is a document -----

  lemma {:induction false} SkippedSpaces(t: Text, i: nat)
    requires i <= |t|
    ensures Spaces(t[i..SkipWs(t, i)])
    decreases |t| - i
  {
    if i < |t| && IsWhitespace(t[i]) {
      SkippedSpaces(t, i + 1);
      assert t[i..SkipWs(t, i)] == [t[i]] + t[i + 1..SkipWs(t, i)];
    }
  }

  lemma {:induction false} Cut3(t: Text, a: nat, b: nat, c: nat, d: nat)
    requires a <= b <= c <= d <= |t|
    ensures t[a..d] == t[a..b] + (t[b..c] + t[c..d])
  {
  }

  lemma {:induction false} ReadString(t: Text, i: nat) returns (us: seq<Unit>)
    requires i <= |t| && ParseString(t, i).Ok?
    ensures UnitsOk(us) && t[i..ParseString(t, i).next] == WriteString(us) && ParseString(t, i).value == Codes(us)
  {
    var q := ParseString(t, i).next;
    us := ReadUnits(t, i + 1, []);
    assert t[i..q] == [34] + t[i + 1..q];
    assert [] + Codes(us) == Codes(us);
  }

  lemma {:induction false} ReadAtom<N>(f: Floats<N>, t: Text, c: nat) returns (d: Doc)
    requires c < |t| && SkipWs(t, c) == c && t[c] != OPEN_BRACE && t[c] != OPEN_BRACKET && ParseValue(f, t, c).Ok?
    ensures DocOk(d) && t[c..ParseValue(f, t, c).next] == Write(d) && ParseValue(f, t, c).value == ValueOf(f, d)
  {
    if t[c] == QUOTE {
      var us := ReadString(t, c);
      d := StringDoc(us);
    } else if Word(t, c, TRUE) {
      d := BoolDoc(true);
    } else if Word(t, c, FALSE) {
      d := BoolDoc(false);
    } else if Word(t, c, NULL) {
      d := NullDoc;
    } else {
      var end := NumberEnd(t, c).value;
      NumberOfSlice(t, c, end);
      var n := ReadNumeral(t[c..end]);
      d := NumberDoc(n);
    }
  }

  /** The value that is read from `i` on is a document behind whitespace. */
  lemma {:induction false} ReadDoc<N>(f: Floats<N>, t: Text, i: nat) returns (d: Doc)
    requires i <= |t| && ParseValue(f, t, i).Ok?
    ensures SkipWs(t, i) <= ParseValue(f, t, i).next
    ensures DocOk(d) && t[SkipWs(t, i)..ParseValue(f, t, i).next] == Write(d)
    ensures ParseValue(f, t, i).value == ValueOf(f, d)
    decreases |t| - i, 1
  {
    var c := SkipWs(t, i);
    assert SkipWs(t, c) == c;
    if t[c] == OPEN_BRACE {
      d := ReadObject(f, t, c);
    } else if t[c] == OPEN_BRACKET {
      d := ReadArray(f, t, c);
    } else {
      d := ReadAtom(f, t, c);
    }
  }

  lemma {:induction false} ReadArray<N>(f: Floats<N>, t: Text, i: nat) returns (d: Doc)
    requires i <= |t| && ParseArray(f, t, i).Ok?
    ensures DocOk(d) && t[i..ParseArray(f, t, i).next] == Write(d) && ParseArray(f, t, i).value == ValueOf(f, d)
    decreases |t| - i, 0
  {
    var c := SkipWs(t, i + 1);
    var q := ParseArray(f, t, i).next;
    SkippedSpaces(t, i + 1);
    if At(t, c, CLOSE_BRACKET) {
      d := EmptyArray(t[i + 1..c]);
      Cut3(t, i, i + 1, c, q);
    } else {
      var items := ReadItems(f, t, c, [], ParseItems(f, t, c, []));
      d := WrapItems(f, t, i, c, q, items);
      assert [] + ItemValues(f, items) == ItemValues(f, items);
    }
  }

  /** The opening bracket, whitespace, and the elements with the closing bracket. */
  lemma {:induction false} WrapItems<N>(f: Floats<N>, t: Text, i: nat, c: nat, q: nat, items: seq<Item>)
      returns (d: Doc)
    requires i < c <= q <= |t| && t[i] == 91 && Spaces(t[i + 1..c])
    requires items != [] && ItemsOk(items) && t[c..q] == WriteItems(items) + [93]
    ensures DocOk(d) && t[i..q] == Write(d) && ValueOf(f, d) == Arr(ItemValues(f, items))
  {
    ItemsLed(f, t[i + 1..c], items);
    d := ArrayDoc(LedItems(t[i + 1..c], items));
    WrapText(t, i, c, q, WriteItems(items), 93);
  }

  lemma {:induction false} WrapText(t: Text, i: nat, c: nat, q: nat, inner: Text, close: Byte)
    requires i < c <= q <= |t| && t[c..q] == inner + [close]
    ensures t[i..q] == [t[i]] + ((t[i + 1..c] + inner) + [close])
  {
    Cut3(t, i, i + 1, c, q);
    assert t[i + 1..c] + (inner + [close]) == (t[i + 1..c] + inner) + [close];
  }

  /** More whitespace in front of the first element. */
  function LedItems(w: Text, items: seq<Item>): seq<Item>
    requires items != []
  {
    [items[0].(before := w + items[0].before)] + items[1..]
  }

  lemma {:induction false} ItemsLed<N>(f: Floats<N>, w: Text, items: seq<Item>)
    requires Spaces(w) && items != [] && ItemsOk(items)
    ensures ItemsOk(LedItems(w, items)) && WriteItems(LedItems(w, items)) == w + WriteItems(items)
    ensures ItemValues(f, LedItems(w, items)) == ItemValues(f, items)
  {
    var led := LedItems(w, items);
    assert led[1..] == items[1..];
    var rest := if |items| == 1 then [] else [44] + WriteItems(items[1..]);
    var body := Write(items[0].doc) + items[0].after;
    assert ((w + items[0].before) + body) + rest == w + ((items[0].before + body) + rest);
  }

  predicate ItemOk(it: Item) {
    Spaces(it.before) && DocOk(it.doc) && Spaces(it.after)
  }

  function WriteItem(it: Item): Text
    requires ItemOk(it)
  {
    it.before + (Write(it.doc) + it.after)
  }

  /** An item that was read, and the comma or the bracket behind it. */
  lemma {:induction false} ReadItem<N>(f: Floats<N>, t: Text, i: nat) returns (it: Item)
    requires i <= |t| && ParseValue(f, t, i).Ok?
    ensures ItemOk(it) && t[i..SkipWs(t, ParseValue(f, t, i).next)] == WriteItem(it)
    ensures ParseValue(f, t, i).value == ValueOf(f, it.doc)
    decreases |t| - i, 2
  {
    var c, next := SkipWs(t, i), ParseValue(f, t, i).next;
    var d := ReadDoc(f, t, i);
    it := Item(t[i..c], d, t[next..SkipWs(t, next)]);
    SkippedSpaces(t, i);
    SkippedSpaces(t, next);
    Cut3(t, i, c, next, SkipWs(t, next));
  }

  /** What one turn over the elements finds. */
  lemma {:induction false} ItemsTurnIs<N>(f: Floats<N>, t: Text, i: nat, items: seq<Value<N>>, whole: Parsed<Value<N>>)
      returns (v: Value<N>, next: nat, c: nat)
    requires i <= |t| && whole.Ok? && ParseItems(f, t, i, items) == whole
    ensures i < next <= c < |t| && ParseValue(f, t, i) == Ok(v, next) && SkipWs(t, next) == c
    ensures t[c] == 44 || (t[c] == 93 && whole == Ok(Arr(items + [v]), c + 1))
    ensures t[c] == 44 ==> ParseItems(f, t, SkipWs(t, c + 1), items + [v]) == whole
  {
    v, next := ParseValue(f, t, i).value, ParseValue(f, t, i).next;
    c := SkipWs(t, next);
  }

  lemma {:induction false} ReadItems<N>(
      f: Floats<N>, t: Text, i: nat, items: seq<Value<N>>, whole: Parsed<Value<N>>) returns (ds: seq<Item>)
    requires i <= |t| && whole.Ok? && ParseItems(f, t, i, items) == whole
    ensures whole.next <= |t| && i <= whole.next
    ensures ds != [] && ItemsOk(ds) && t[i..whole.next] == WriteItems(ds) + [93]
    ensures whole.value == Arr(items + ItemValues(f, ds))
    decreases |t| - i, 3
  {
    var v, next, c := ItemsTurnIs(f, t, i, items, whole);
    var it := ReadItem(f, t, i);
    if t[c] == 44 {
      ds := ReadMore(f, t, i, c, items, v, it, whole);
    } else {
      ds := LastItem(f, t, i, c, it);
    }
  }

  lemma {:induction false} ReadMore<N>(
      f: Floats<N>, t: Text, i: nat, c: nat, items: seq<Value<N>>, v: Value<N>, it: Item,
      whole: Parsed<Value<N>>)
      returns (ds: seq<Item>)
    requires i <= c < |t| && t[c] == 44 && whole.Ok? && ParseItems(f, t, SkipWs(t, c + 1), items + [v]) == whole
    requires ItemOk(it) && t[i..c] == WriteItem(it) && v == ValueOf(f, it.doc)
    ensures whole.next <= |t| && i <= whole.next
    ensures ds != [] && ItemsOk(ds) && t[i..whole.next] == WriteItems(ds) + [93]
    ensures whole.value == Arr(items + ItemValues(f, ds))
    decreases |t| - c, 2
  {
    var c2 := SkipWs(t, c + 1);
    var rest := ReadItems(f, t, c2, items + [v], whole);
    SkippedSpaces(t, c + 1);
    ds := JoinItems(f, t, i, c, c2, whole.next, it, rest);
    Moved(items, v, ItemValues(f, rest));
  }

  lemma {:induction false} JoinItems<N>(
      f: Floats<N>, t: Text, i: nat, c: nat, c2: nat, q: nat, it: Item, rest: seq<Item>) returns (ds: seq<Item>)
    requires i <= c < c2 <= q <= |t| && ItemOk(it) && t[i..c] == WriteItem(it) && t[c] == 44
    requires Spaces(t[c + 1..c2]) && rest != [] && ItemsOk(rest) && t[c2..q] == WriteItems(rest) + [93]
    ensures ds != [] && ItemsOk(ds) && t[i..q] == WriteItems(ds) + [93]
    ensures ItemValues(f, ds) == [ValueOf(f, it.doc)] + ItemValues(f, rest)
  {
    var led := LedItems(t[c + 1..c2], rest);
    ItemsLed(f, t[c + 1..c2], rest);
    ItemsCons(f, it, led);
    TextMore(t, i, c, c2, q, WriteItems(rest), 93);
    ds := [it] + led;
  }

  lemma {:induction false} LastItem<N>(f: Floats<N>, t: Text, i: nat, c: nat, it: Item) returns (ds: seq<Item>)
    requires i <= c < |t| && ItemOk(it) && t[i..c] == WriteItem(it) && t[c] == 93
    ensures ds != [] && ItemsOk(ds) && t[i..c + 1] == WriteItems(ds) + [93]
    ensures ItemValues(f, ds) == [ValueOf(f, it.doc)]
  {
    ds := [it];
    ItemsCons(f, it, []);
    assert [it] + [] == ds;
    TextLast(t, i, c);
  }

  /** The text up to a comma, the whitespace behind it, and the rest. */
  lemma {:induction false} TextMore(t: Text, i: nat, c: nat, c2: nat, q: nat, rest: Text, close: Byte)
    requires i <= c < c2 <= q <= |t| && t[c] == 44 && t[c2..q] == rest + [close]
    ensures t[i..q] == (t[i..c] + ([44] + (t[c + 1..c2] + rest))) + [close]
  {
    Cut3(t, i, c, c + 1, q);
    Cut3(t, c + 1, c2, c2, q);
    assert t[c..c + 1] == [44];
    MoreText(t[i..c], t[c + 1..c2], rest, close);
  }

  lemma {:induction false} TextLast(t: Text, i: nat, c: nat)
    requires i <= c < |t|
    ensures t[i..c + 1] == (t[i..c] + []) + [t[c]]
  {
  }

  lemma {:induction false} MoreText(a: Text, w: Text, rest: Text, close: Byte)
    ensures a + ([44] + (w + (rest + [close]))) == (a + ([44] + (w + rest))) + [close]
  {
  }

  lemma {:induction false} Moved<T>(before: seq<T>, x: T, rest: seq<T>)
    ensures before + [x] + rest == before + ([x] + rest)
  {
  }

  lemma {:induction false} ItemsCons<N>(f: Floats<N>, it: Item, rest: seq<Item>)
    requires ItemOk(it) && ItemsOk(rest)
    ensures ItemsOk([it] + rest) && ItemValues(f, [it] + rest) == [ValueOf(f, it.doc)] + ItemValues(f, rest)
    ensures WriteItems([it] + rest) == WriteItem(it) + if rest == [] then [] else [44] + WriteItems(rest)
  {
    assert ([it] + rest)[1..] == rest;
  }

  lemma {:induction false} ReadObject<N>(f: Floats<N>, t: Text, i: nat) returns (d: Doc)
    requires i <= |t| && ParseObject(f, t, i).Ok?
    ensures DocOk(d) && t[i..ParseObject(f, t, i).next] == Write(d) && ParseObject(f, t, i).value == ValueOf(f, d)
    decreases |t| - i, 0
  {
    var c := SkipWs(t, i + 1);
    var q := ParseObject(f, t, i).next;
    SkippedSpaces(t, i + 1);
    if At(t, c, CLOSE_BRACE) {
      d := EmptyObject(t[i + 1..c]);
      Cut3(t, i, i + 1, c, q);
    } else {
      var entries := ReadEntries(f, t, c, [], ParseMembers(f, t, c, []));
      d := WrapEntries(f, t, i, c, q, entries);
      assert [] + EntryValues(f, entries) == EntryValues(f, entries);
    }
  }

  lemma {:induction false} WrapEntries<N>(f: Floats<N>, t: Text, i: nat, c: nat, q: nat, entries: seq<Entry>)
      returns (d: Doc)
    requires i < c <= q <= |t| && t[i] == 123 && Spaces(t[i + 1..c])
    requires entries != [] && EntriesOk(entries) && t[c..q] == WriteEntries(entries) + [125]
    ensures DocOk(d) && t[i..q] == Write(d) && ValueOf(f, d) == Obj(EntryValues(f, entries))
  {
    EntriesLed(f, t[i + 1..c], entries);
    d := ObjectDoc(LedEntries(t[i + 1..c], entries));
    WrapText(t, i, c, q, WriteEntries(entries), 125);
  }

  function LedEntries(w: Text, entries: seq<Entry>): seq<Entry>
    requires entries != []
  {
    [entries[0].(before := w + entries[0].before)] + entries[1..]
  }

  lemma {:induction false} EntriesLed<N>(f: Floats<N>, w: Text, entries: seq<Entry>)
    requires Spaces(w) && entries != [] && EntriesOk(entries)
    ensures EntriesOk(LedEntries(w, entries)) && WriteEntries(LedEntries(w, entries)) == w + WriteEntries(entries)
    ensures EntryValues(f, LedEntries(w, entries)) == EntryValues(f, entries)
  {
    var led, e := LedEntries(w, entries), entries[0];
    assert led[1..] == entries[1..];
    LedText(w, e.before, WriteString(e.key) + (e.mid + [58]),
      (e.item.before + (Write(e.item.doc) + e.item.after))
      + if |entries| == 1 then [] else [44] + WriteEntries(entries[1..]));
  }

  lemma {:induction false} LedText(w: Text, a: Text, b: Text, c: Text)
    ensures ((w + a) + b) + c == w + ((a + b) + c)
  {
  }

  predicate EntryOk(e: Entry) {
    && Spaces(e.before) && UnitsOk(e.key) && Spaces(e.mid)
    && ItemOk(e.item)
  }

  function WriteEntry(e: Entry): Text
    requires EntryOk(e)
  {
    (e.before + (WriteString(e.key) + (e.mid + [58]))) + WriteItem(e.item)
  }

  lemma {:induction false} EntriesCons<N>(f: Floats<N>, e: Entry, rest: seq<Entry>)
    requires EntryOk(e) && EntriesOk(rest)
    ensures EntriesOk([e] + rest)
    ensures EntryValues(f, [e] + rest) == [Member(Codes(e.key), ValueOf(f, e.item.doc))] + EntryValues(f, rest)
    ensures WriteEntries([e] + rest) == WriteEntry(e) + if rest == [] then [] else [44] + WriteEntries(rest)
  {
    assert ([e] + rest)[1..] == rest;
  }

  /** The key from `i` on, and where the value may start. */
  lemma {:induction false} ReadKey(t: Text, i: nat) returns (us: seq<Unit>, mid: Text, lead: Text)
    requires i <= |t| && ParseKey(t, i).Ok?
    ensures UnitsOk(us) && Spaces(mid) && Spaces(lead) && ParseKey(t, i).value == Codes(us)
    ensures t[i..ParseKey(t, i).next] == (WriteString(us) + (mid + [58])) + lead
  {
    var next := ParseString(t, i).next;
    var c := SkipWs(t, next);
    us := ReadString(t, i);
    mid, lead := t[next..c], t[c + 1..SkipWs(t, c + 1)];
    SkippedSpaces(t, next);
    SkippedSpaces(t, c + 1);
    Cut3(t, i, next, c, c + 1);
    Cut3(t, i, c + 1, c + 1, SkipWs(t, c + 1));
  }

  lemma {:induction false} ReadEntry<N>(f: Floats<N>, t: Text, i: nat) returns (e: Entry)
    requires i <= |t| && ParseMember(f, t, i).Ok?
    ensures EntryOk(e) && t[i..SkipWs(t, ParseMember(f, t, i).next)] == WriteEntry(e)
    ensures ParseMember(f, t, i).value == Member(Codes(e.key), ValueOf(f, e.item.doc))
    decreases |t| - i, 3
  {
    var start := ParseKey(t, i).next;
    var us, mid, lead := ReadKey(t, i);
    var it := ReadItem(f, t, start);
    e := Entry([], us, mid, it.(before := lead + it.before));
    var end := SkipWs(t, ParseMember(f, t, i).next);
    Cut3(t, i, start, start, end);
    EntryText(WriteString(us) + (mid + [58]), lead, it.before, Write(it.doc) + it.after);
  }

  lemma {:induction false} EntryText(key: Text, lead: Text, before: Text, body: Text)
    ensures (key + lead) + ([] + (before + body)) == ([] + key) + ((lead + before) + body)
  {
  }

  lemma {:induction false} EntriesTurnIs<N>(
      f: Floats<N>, t: Text, i: nat, members: seq<Member<N>>, whole: Parsed<Value<N>>)
      returns (m: Member<N>, next: nat, c: nat)
    requires i <= |t| && whole.Ok? && ParseMembers(f, t, i, members) == whole
    ensures i < next <= c < |t| && ParseMember(f, t, i) == Ok(m, next) && SkipWs(t, next) == c
    ensures t[c] == 44 || (t[c] == 125 && whole == Ok(Obj(members + [m]), c + 1))
    ensures t[c] == 44 ==> ParseMembers(f, t, SkipWs(t, c + 1), members + [m]) == whole
  {
    m, next := ParseMember(f, t, i).value, ParseMember(f, t, i).next;
    c := SkipWs(t, next);
  }

  lemma {:induction false} ReadEntries<N>(
      f: Floats<N>, t: Text, i: nat, members: seq<Member<N>>, whole: Parsed<Value<N>>) returns (es: seq<Entry>)
    requires i <= |t| && whole.Ok? && ParseMembers(f, t, i, members) == whole
    ensures whole.next <= |t| && i <= whole.next
    ensures es != [] && EntriesOk(es) && t[i..whole.next] == WriteEntries(es) + [125]
    ensures whole.value == Obj(members + EntryValues(f, es))
    decreases |t| - i, 4
  {
    var m, next, c := EntriesTurnIs(f, t, i, members, whole);
    var e := ReadEntry(f, t, i);
    if t[c] == 44 {
      es := ReadMoreEntries(f, t, i, c, members, m, e, whole);
    } else {
      es := LastEntry(f, t, i, c, e);
    }
  }

  lemma {:induction false} ReadMoreEntries<N>(
      f: Floats<N>, t: Text, i: nat, c: nat, members: seq<Member<N>>, m: Member<N>, e: Entry,
      whole: Parsed<Value<N>>)
      returns (es: seq<Entry>)
    requires i <= c < |t| && t[c] == 44 && whole.Ok? && ParseMembers(f, t, SkipWs(t, c + 1), members + [m]) == whole
    requires EntryOk(e) && t[i..c] == WriteEntry(e) && m == Member(Codes(e.key), ValueOf(f, e.item.doc))
    ensures whole.next <= |t| && i <= whole.next
    ensures es != [] && EntriesOk(es) && t[i..whole.next] == WriteEntries(es) + [125]
    ensures whole.value == Obj(members + EntryValues(f, es))
    decreases |t| - c, 3
  {
    var c2 := SkipWs(t, c + 1);
    var rest := ReadEntries(f, t, c2, members + [m], whole);
    SkippedSpaces(t, c + 1);
    es := JoinEntries(f, t, i, c, c2, whole.next, e, rest);
    Moved(members, m, EntryValues(f, rest));
  }

  lemma {:induction false} JoinEntries<N>(
      f: Floats<N>, t: Text, i: nat, c: nat, c2: nat, q: nat, e: Entry, rest: seq<Entry>) returns (es: seq<Entry>)
    requires i <= c < c2 <= q <= |t| && EntryOk(e) && t[i..c] == WriteEntry(e) && t[c] == 44
    requires Spaces(t[c + 1..c2]) && rest != [] && EntriesOk(rest) && t[c2..q] == WriteEntries(rest) + [125]
    ensures es != [] && EntriesOk(es) && t[i..q] == WriteEntries(es) + [125]
    ensures EntryValues(f, es) == [Member(Codes(e.key), ValueOf(f, e.item.doc))] + EntryValues(f, rest)
  {
    var led := LedEntries(t[c + 1..c2], rest);
    EntriesLed(f, t[c + 1..c2], rest);
    EntriesCons(f, e, led);
    TextMore(t, i, c, c2, q, WriteEntries(rest), 125);
    es := [e] + led;
  }

  lemma {:induction false} LastEntry<N>(f: Floats<N>, t: Text, i: nat, c: nat, e: Entry) returns (es: seq<Entry>)
    requires i <= c < |t| && EntryOk(e) && t[i..c] == WriteEntry(e) && t[c] == 125
    ensures es != [] && EntriesOk(es) && t[i..c + 1] == WriteEntries(es) + [125]
    ensures EntryValues(f, es) == [Member(Codes(e.key), ValueOf(f, e.item.doc))]
  {
    es := [e];
    EntriesCons(f, e, []);
    assert [e] + [] == es;
    TextLast(t, i, c);
  }
}
