/** What the scanners of the validator find in the name of a type. */
module TypeNameFacts {
  import opened Wrappers
  import opened Slices
  import opened TypeNames

  /** No character that structures a type name. */
  predicate PlainText(s: string) {
    forall i | 0 <= i < |s| :: s[i] !in {'{', '}', '<', '>', ',', ':'}
  }

  /** Words and keys are plain. */
  predicate WellNamed(t: Type)
    decreases Size(t)
  {
    match t
    case Plain(name) => PlainText(name)
    case ArrayOf(element) => WellNamed(element)
    case ObjectOf(fields) => WellNamedFields(fields)
  }

  predicate WellNamedFields(fields: seq<Field>)
    decreases SizeFields(fields)
  {
    fields == [] || (PlainText(fields[0].key) && WellNamed(fields[0].type_) && WellNamedFields(fields[1..]))
  }

  // ----- counts of 64 bits -----

  const LARGEST := 0xFFFF_FFFF_FFFF_FFFF

  function Up(n: nat): nat {
    if n == LARGEST then 0 else n + 1
  }

  function Down(n: nat): nat {
    if n == 0 then LARGEST else n - 1
  }

  /** The scan as the source counts: a count of braces that goes below 0 becomes the largest size, and 0 again
      with the next opening brace. */
  function SizedEnd(s: string, i: nat, braces: nat, angles: nat): nat
    requires i <= |s|
    decreases |s| - i
  {
    if i == |s| then i
    else if s[i] == '{' then SizedEnd(s, i + 1, Up(braces), angles)
    else if s[i] == '}' then if braces == 0 && angles == 0 then i else SizedEnd(s, i + 1, Down(braces), angles)
    else if s[i] == '<' then SizedEnd(s, i + 1, braces, Up(angles))
    else if s[i] == '>' then SizedEnd(s, i + 1, braces, if angles > 0 then angles - 1 else 0)
    else if s[i] == ',' && braces == 0 && angles == 0 then i
    else SizedEnd(s, i + 1, braces, angles)
  }

  function Wrapped(n: int): nat
    requires -LARGEST <= n
  {
    if n < 0 then n + LARGEST + 1 else n
  }

  /** No text that has a size is long enough to tell these counts from integers. */
  lemma {:induction false} SizesSuffice(s: string, i: nat, braces: int, angles: nat)
    requires |s| <= LARGEST && 0 <= braces + i && braces <= i <= |s| && angles <= i
    ensures SizedEnd(s, i, Wrapped(braces), angles) == ValueEnd(s, i, braces, angles)
    decreases |s| - i
  {
    if i == |s| {
    } else if s[i] == '{' {
      SizesSuffice(s, i + 1, braces + 1, angles);
    } else if s[i] == '}' {
      if braces != 0 || angles != 0 {
        SizesSuffice(s, i + 1, braces - 1, angles);
      }
    } else if s[i] == '<' {
      SizesSuffice(s, i + 1, braces, angles + 1);
    } else if s[i] == '>' {
      SizesSuffice(s, i + 1, braces, if angles > 0 then angles - 1 else 0);
    } else if s[i] != ',' || braces != 0 || angles != 0 {
      SizesSuffice(s, i + 1, braces, angles);
    }
  }

  // ----- scanning through a name -----

  lemma {:induction false} PlainPassed(s: string, i: nat, w: string, braces: nat, angles: nat, depth: nat)
    requires PlainText(w) && Stands(s, i, w)
    ensures ValueEnd(s, i, braces, angles) == ValueEnd(s, i + |w|, braces, angles)
    ensures ElementEnd(s, i, depth) == ElementEnd(s, i + |w|, depth)
    decreases |w|
  {
    if w != "" {
      StandsAt(s, i, w, 0);
      assert w == [w[0]] + w[1..];
      StandsSplit(s, i, [w[0]], w[1..]);
      PlainPassed(s, i + 1, w[1..], braces, angles, depth);
    }
  }

  lemma {:induction false} CharStands(s: string, i: nat, c: char, rest: string)
    requires Stands(s, i, [c] + rest)
    ensures i < |s| && s[i] == c && Stands(s, i + 1, rest)
  {
    StandsSplit(s, i, [c], rest);
    StandsAt(s, i, [c], 0);
  }

  /** The names of an array and of an object, bracket by bracket. */
  lemma {:induction false} ArrayStands(s: string, i: nat, inner: string)
    requires Stands(s, i, "array<" + (inner + ">"))
    ensures Stands(s, i, "array") && i + 6 + |inner| < |s| && s[i + 5] == '<' && Stands(s, i + 6, inner)
      && s[i + 6 + |inner|] == '>'
  {
    assert "array<" + (inner + ">") == "array" + (['<'] + (inner + ">"));
    StandsSplit(s, i, "array", ['<'] + (inner + ">"));
    CharStands(s, i + 5, '<', inner + ">");
    StandsSplit(s, i + 6, inner, ">");
    StandsAt(s, i + 6 + |inner|, ">", 0);
  }

  lemma {:induction false} ObjectStands(s: string, i: nat, inner: string)
    requires Stands(s, i, "object{" + (inner + "}"))
    ensures Stands(s, i, "object") && i + 7 + |inner| < |s|
      && s[i + 6] == '{' && Stands(s, i + 7, inner) && s[i + 7 + |inner|] == '}'
  {
    assert "object{" + (inner + "}") == "object" + (['{'] + (inner + "}"));
    StandsSplit(s, i, "object", ['{'] + (inner + "}"));
    CharStands(s, i + 6, '{', inner + "}");
    StandsSplit(s, i + 7, inner, "}");
    StandsAt(s, i + 7 + |inner|, "}", 0);
  }

  lemma {:induction false} PairStands(s: string, i: nat, key: string, name: string, later: string)
    requires Stands(s, i, key + (":" + (name + later)))
    ensures var k := i + |key|; var v := k + 1 + |name|;
      Stands(s, i, key) && At(s, k, ':') && Stands(s, k + 1, name) && Stands(s, v, later)
  {
    StandsSplit(s, i, key, ":" + (name + later));
    CharStands(s, i + |key|, ':', name + later);
    StandsSplit(s, i + |key| + 1, name, later);
  }

  /** The first field of an object and what follows it, where they stand. */
  lemma {:induction false} FieldStands(s: string, i: nat, fields: seq<Field>, k: nat, v: nat, end: nat)
    requires fields != [] && Stands(s, i, FieldNames(fields)) && end == i + |FieldNames(fields)|
    requires k == i + |fields[0].key| && v == k + 1 + |Name(fields[0].type_)|
    ensures Stands(s, i, fields[0].key) && At(s, k, ':') && Stands(s, k + 1, Name(fields[0].type_))
    ensures |fields| == 1 ==> v == end
    ensures |fields| > 1 ==>
      At(s, v, ',') && Stands(s, v + 1, FieldNames(fields[1..])) && v + 1 + |FieldNames(fields[1..])| == end
  {
    PairStands(s, i, fields[0].key, Name(fields[0].type_), Later(fields));
    if |fields| > 1 {
      CharStands(s, v, ',', FieldNames(fields[1..]));
    }
  }

  /** The brackets of an array name are passed in pairs. */
  lemma {:induction false} ArrayPassed(s: string, i: nat, n: nat, braces: nat, angles: nat)
    requires Stands(s, i, "array") && At(s, i + 5, '<') && At(s, i + 6 + n, '>')
    requires ValueEnd(s, i + 6, braces, angles + 1) == ValueEnd(s, i + 6 + n, braces, angles + 1)
    ensures ValueEnd(s, i, braces, angles) == ValueEnd(s, i + 7 + n, braces, angles)
  {
    PlainPassed(s, i, "array", braces, angles, 0);
  }

  lemma {:induction false} ObjectPassed(s: string, i: nat, n: nat, braces: nat, angles: nat)
    requires Stands(s, i, "object") && At(s, i + 6, '{') && At(s, i + 7 + n, '}')
    requires ValueEnd(s, i + 7, braces + 1, angles) == ValueEnd(s, i + 7 + n, braces + 1, angles)
    ensures ValueEnd(s, i, braces, angles) == ValueEnd(s, i + 8 + n, braces, angles)
  {
    PlainPassed(s, i, "object", braces, angles, 0);
  }

  /** The name of a type is scanned to its end from any depth, and the depth is kept. */
  lemma {:induction false} NamePassed(s: string, i: nat, t: Type, braces: nat, angles: nat)
    requires WellNamed(t) && Stands(s, i, Name(t))
    ensures ValueEnd(s, i, braces, angles) == ValueEnd(s, i + |Name(t)|, braces, angles)
    decreases Size(t)
  {
    match t
    case Plain(name) => PlainPassed(s, i, name, braces, angles, 0);
    case ArrayOf(element) =>
      ArrayStands(s, i, Name(element));
      NamePassed(s, i + 6, element, braces, angles + 1);
      ArrayPassed(s, i, |Name(element)|, braces, angles);
    case ObjectOf(fields) =>
      ObjectStands(s, i, FieldNames(fields));
      FieldsPassed(s, i + 7, fields, braces + 1, angles, i + 7 + |FieldNames(fields)|);
      ObjectPassed(s, i, |FieldNames(fields)|, braces, angles);
  }

  lemma {:induction false} FieldsPassed(s: string, i: nat, fields: seq<Field>, braces: nat, angles: nat, end: nat)
    requires WellNamedFields(fields) && Stands(s, i, FieldNames(fields)) && end == i + |FieldNames(fields)|
      && braces > 0
    ensures ValueEnd(s, i, braces, angles) == ValueEnd(s, end, braces, angles)
    decreases SizeFields(fields)
  {
    if fields == [] {
    } else {
      var k := i + |fields[0].key|;
      var v := k + 1 + |Name(fields[0].type_)|;
      FieldStands(s, i, fields, k, v, end);
      PlainPassed(s, i, fields[0].key, braces, angles, 0);
      NamePassed(s, k + 1, fields[0].type_, braces, angles);
      if |fields| > 1 {
        FieldsPassed(s, v + 1, fields[1..], braces, angles, end);
      }
    }
  }

  lemma {:induction false} NamePassedByElement(s: string, i: nat, t: Type, depth: nat)
    requires WellNamed(t) && Stands(s, i, Name(t))
    ensures ElementEnd(s, i, depth) == ElementEnd(s, i + |Name(t)|, depth)
    decreases Size(t)
  {
    match t
    case Plain(name) => PlainPassed(s, i, name, 0, 0, depth);
    case ArrayOf(element) =>
      ArrayStands(s, i, Name(element));
      PlainPassed(s, i, "array", 0, 0, depth);
      NamePassedByElement(s, i + 6, element, depth + 1);
    case ObjectOf(fields) =>
      ObjectStands(s, i, FieldNames(fields));
      PlainPassed(s, i, "object", 0, 0, depth);
      FieldsPassedByElement(s, i + 7, fields, depth, i + 7 + |FieldNames(fields)|);
  }

  lemma {:induction false} FieldsPassedByElement(s: string, i: nat, fields: seq<Field>, depth: nat, end: nat)
    requires WellNamedFields(fields) && Stands(s, i, FieldNames(fields)) && end == i + |FieldNames(fields)|
    ensures ElementEnd(s, i, depth) == ElementEnd(s, end, depth)
    decreases SizeFields(fields)
  {
    if fields == [] {
    } else {
      var k := i + |fields[0].key|;
      var v := k + 1 + |Name(fields[0].type_)|;
      FieldStands(s, i, fields, k, v, end);
      PlainPassed(s, i, fields[0].key, 0, 0, depth);
      NamePassedByElement(s, k + 1, fields[0].type_, depth);
      if |fields| > 1 {
        FieldsPassedByElement(s, v + 1, fields[1..], depth, end);
      }
    }
  }

  // ----- arrays -----

  /** The element type of an array is found again, up to the room of the buffer. */
  lemma {:induction false} ElementFound(t: Type)
    requires WellNamed(t)
    ensures ElementName(Name(ArrayOf(t))) == Some(Clip(Name(t), VALUE_ROOM))
  {
    var s := Name(ArrayOf(t));
    StandsWhole(s);
    ArrayStands(s, 0, Name(t));
    NamePassedByElement(s, 6, t, 0);
    assert s[6..6 + |Name(t)|] == Name(t);
  }

  /** It is the whole element type exactly when that fits the buffer of 256 characters, and its first 255 otherwise. */
  lemma {:induction false} ElementExact(t: Type)
    requires WellNamed(t)
    ensures ElementName(Name(ArrayOf(t))) == Some(Name(t)) <==> |Name(t)| <= 255
    ensures |Name(t)| > 255 ==> ElementName(Name(ArrayOf(t))) == Some(Name(t)[..255])
  {
    ElementFound(t);
  }

  // ----- properties -----

  /** The first field whose key, cut to the room of the buffer, is `property`. */
  function Lookup(fields: seq<Field>, property: string): Option<Type> {
    if fields == [] then None
    else if Clip(fields[0].key, KEY_ROOM) == property then Some(fields[0].type_)
    else Lookup(fields[1..], property)
  }

  lemma {:induction false} PlainReached(s: string, i: nat, w: string, a: char, b: char)
    requires PlainText(w) && Stands(s, i, w) && At(s, i + |w|, a) && {a, b} <= {':', '}'}
    ensures Reach(s, i, a, b) == i + |w|
    decreases |w|
  {
    if w != "" {
      StandsAt(s, i, w, 0);
      assert w == [w[0]] + w[1..];
      StandsSplit(s, i, [w[0]], w[1..]);
      PlainReached(s, i + 1, w[1..], a, b);
    }
  }

  /** The first field is cut out exactly, and the scan goes on behind its comma. */
  lemma {:induction false} FieldScanned(s: string, i: nat, fields: seq<Field>, k: nat, v: nat, end: nat)
    requires fields != [] && WellNamedFields(fields) && Stands(s, i, FieldNames(fields)) && fields[0].key != ""
    requires end == i + |FieldNames(fields)| && At(s, end, '}')
    requires k == i + |fields[0].key| && v == k + 1 + |Name(fields[0].type_)|
    ensures i < k < v <= |s| && s[i] != '}' && At(s, k, ':')
    ensures s[i..k] == fields[0].key && s[k + 1..v] == Name(fields[0].type_)
    ensures Reach(s, i, ':', '}') == k && Reach(s, i, ':', ':') == k && ValueEnd(s, k + 1, 0, 0) == v
    ensures |fields| == 1 ==> At(s, v, '}')
    ensures |fields| > 1 ==>
      At(s, v, ',') && Stands(s, v + 1, FieldNames(fields[1..])) && v + 1 + |FieldNames(fields[1..])| == end
  {
    FieldStands(s, i, fields, k, v, end);
    StandsAt(s, i, fields[0].key, 0);
    assert s[i..k] == fields[0].key;
    assert s[k + 1..v] == Name(fields[0].type_);
    PlainReached(s, i, fields[0].key, ':', '}');
    PlainReached(s, i, fields[0].key, ':', ':');
    NamePassed(s, k + 1, fields[0].type_, 0, 0);
  }

  /** Keys are not empty, as names in the source are not. */
  predicate Keyed(fields: seq<Field>) {
    forall i | 0 <= i < |fields| :: fields[i].key != ""
  }

  lemma {:induction false} FindFromFinds(s: string, i: nat, fields: seq<Field>, property: string, end: nat)
    requires WellNamedFields(fields) && Keyed(fields)
    requires Stands(s, i, FieldNames(fields)) && end == i + |FieldNames(fields)| && At(s, end, '}')
    ensures FindFrom(s, i, property)
         == match Lookup(fields, property) case None => None case Some(t) => Some(Clip(Name(t), VALUE_ROOM))
    decreases |fields|
  {
    if fields == [] {
    } else {
      var k := i + |fields[0].key|;
      var v := k + 1 + |Name(fields[0].type_)|;
      FieldScanned(s, i, fields, k, v, end);
      if |fields| == 1 {
        assert fields[1..] == [];
        assert FindFrom(s, v, property) == None;
      } else {
        FindFromFinds(s, v + 1, fields[1..], property, end);
      }
    }
  }

  /** The type of a property of an object is that of its first field with that key, or nothing. */
  lemma {:induction false} PropertyFound(fields: seq<Field>, property: string)
    requires WellNamedFields(fields) && Keyed(fields)
    ensures FindProperty(Name(ObjectOf(fields)), "object{", property)
         == match Lookup(fields, property) case None => None case Some(t) => Some(Clip(Name(t), VALUE_ROOM))
  {
    var s := Name(ObjectOf(fields));
    StandsWhole(s);
    ObjectStands(s, 0, FieldNames(fields));
    assert s[..7] == "object{";
    FindFromFinds(s, 7, fields, property, 7 + |FieldNames(fields)|);
  }

  // ----- known types -----

  /** Every part fits the buffer it is copied to. */
  predicate Fits(t: Type)
    decreases Size(t)
  {
    match t
    case Plain(_) => true
    case ArrayOf(element) => |Name(element)| <= VALUE_ROOM && Fits(element)
    case ObjectOf(fields) => Keyed(fields) && FieldsFit(fields)
  }

  predicate FieldsFit(fields: seq<Field>)
    decreases SizeFields(fields)
  {
    fields == [] ||
    (|Name(fields[0].type_)| <= VALUE_ROOM && Fits(fields[0].type_) && FieldsFit(fields[1..]))
  }

  predicate WordsKnown(t: Type)
    decreases Size(t)
  {
    match t
    case Plain(name) => name in KNOWN
    case ArrayOf(element) => WordsKnown(element)
    case ObjectOf(fields) => FieldWordsKnown(fields)
  }

  predicate FieldWordsKnown(fields: seq<Field>)
    decreases SizeFields(fields)
  {
    fields == [] || (WordsKnown(fields[0].type_) && FieldWordsKnown(fields[1..]))
  }

  lemma {:induction false} PlainStarts(name: string, prefix: string, k: nat)
    requires PlainText(name) && k < |prefix| && prefix[k] in {'{', '<'}
    ensures !StartsWith(name, prefix)
  {
    if |prefix| <= |name| {
      assert name[..|prefix|][k] == name[k];
    }
  }

  lemma {:induction false} PlainKnown(name: string)
    requires PlainText(name)
    ensures IsKnown(name) <==> name in KNOWN
  {
    PlainStarts(name, "array<", 5);
    PlainStarts(name, "object{", 6);
    PlainStarts(name, "module{", 6);
  }

  /** The name of a type whose parts fit the buffers is accepted exactly if all its words are known. */
  lemma {:induction false} NameKnown(t: Type)
    requires WellNamed(t) && Fits(t)
    ensures IsKnown(Name(t)) <==> WordsKnown(t)
    decreases Size(t)
  {
    var s := Name(t);
    match t
    case Plain(name) => PlainKnown(name);
    case ArrayOf(element) =>
      ElementFound(element);
      NameKnown(element);
      assert s[..6] == "array<";
    case ObjectOf(fields) =>
      StandsWhole(s);
      ObjectStands(s, 0, FieldNames(fields));
      FieldsKnown(s, 7, fields, 7 + |FieldNames(fields)|);
      assert s[..7] == "object{";
      assert s[..6][0] == 'o';
  }

  lemma {:induction false} KnownStep(s: string, i: nat, k: nat, v: nat)
    requires 7 <= i < k < v <= |s| && s[i] != '}'
    requires Reach(s, i, ':', ':') == k && At(s, k, ':') && ValueEnd(s, k + 1, 0, 0) == v
    requires |s[k + 1..v]| <= VALUE_ROOM && (At(s, v, '}') || At(s, v, ','))
    ensures KnownFrom(s, i) <==> IsKnown(s[k + 1..v]) && (At(s, v, '}') || KnownFrom(s, v + 1))
  {
  }

  lemma {:induction false} FieldsKnown(s: string, i: nat, fields: seq<Field>, end: nat)
    requires WellNamedFields(fields) && Keyed(fields) && FieldsFit(fields)
    requires 7 <= i && Stands(s, i, FieldNames(fields)) && end == i + |FieldNames(fields)| && At(s, end, '}')
    ensures KnownFrom(s, i) <==> FieldWordsKnown(fields)
    decreases SizeFields(fields)
  {
    if fields == [] {
    } else {
      var k := i + |fields[0].key|;
      var v := k + 1 + |Name(fields[0].type_)|;
      FieldScanned(s, i, fields, k, v, end);
      NameKnown(fields[0].type_);
      if |fields| > 1 {
        FieldsKnown(s, v + 1, fields[1..], end);
      }
      KnownStep(s, i, k, v);
    }
  }
}
