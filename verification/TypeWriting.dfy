/** A type written in the source, parsed to text and taken apart again, is the type that was written. */
module TypeWriting {
  import opened Wrappers
  import opened Slices
  import opened TypeNames
  import opened TypeNameFacts
  import opened TypeParser

  // ----- written types -----

  datatype Written =
    | Plainly(name: string)
    | Alias(name: string)
    | Array(element: Written)
    | Object(fields: seq<WrittenField>)

  datatype WrittenField = WrittenField(key: string, type_: Written)

  function SizeOf(w: Written): nat
    decreases w
  {
    match w
    case Array(element) => 1 + SizeOf(element)
    case Object(fields) => 1 + SizeOfFields(fields)
    case _ => 1
  }

  function SizeOfFields(fields: seq<WrittenField>): nat
    decreases fields
  {
    if fields == [] then 0 else 1 + SizeOf(fields[0].type_) + SizeOfFields(fields[1..])
  }

  function Write(w: Written): Tokens
    decreases SizeOf(w)
  {
    match w
    case Plainly(name) => [Word(name)]
    case Alias(name) => [Ident(name)]
    case Array(element) => Write(element) + [LBracket, RBracket]
    case Object(fields) => [LBrace] + (WriteFields(fields) + [RBrace])
  }

  function WriteFields(fields: seq<WrittenField>): Tokens
    decreases SizeOfFields(fields)
  {
    if fields == [] then []
    else
      [Ident(fields[0].key), Colon] + (Write(fields[0].type_)
        + (if |fields| == 1 then [] else [Comma] + WriteFields(fields[1..])))
  }

  type Meanings = map<string, Type>

  predicate Declared(w: Written, m: Meanings)
    decreases SizeOf(w)
  {
    match w
    case Plainly(_) => true
    case Alias(name) => name in m
    case Array(element) => Declared(element, m)
    case Object(fields) => DeclaredFields(fields, m)
  }

  predicate DeclaredFields(fields: seq<WrittenField>, m: Meanings)
    decreases SizeOfFields(fields)
  {
    fields == [] || (Declared(fields[0].type_, m) && DeclaredFields(fields[1..], m))
  }

  /** The type a written type means, aliases replaced. */
  function Meaning(w: Written, m: Meanings): Type
    requires Declared(w, m)
    decreases SizeOf(w)
  {
    match w
    case Plainly(name) => Plain(name)
    case Alias(name) => m[name]
    case Array(element) => ArrayOf(Meaning(element, m))
    case Object(fields) => ObjectOf(FieldMeanings(fields, m))
  }

  function FieldMeanings(fields: seq<WrittenField>, m: Meanings): (r: seq<Field>)
    requires DeclaredFields(fields, m)
    ensures |r| == |fields|
    decreases SizeOfFields(fields)
  {
    if fields == [] then []
    else [Field(fields[0].key, Meaning(fields[0].type_, m))] + FieldMeanings(fields[1..], m)
  }

  /** What the parser keeps of the aliases: the text of each. */
  function AliasTexts(m: Meanings): Aliases {
    map name | name in m :: Name(m[name])
  }

  // ----- reading -----

  ghost predicate FieldsRead(t: Tokens, i: nat, m: Meanings, before: string, text: string, j: nat) {
    i <= |t| && forall z {:trigger Unseal(z)} :: Unseal(z) ==>
      ParseFields(t, i, AliasTexts(m), before) == Parsed(text, j)
  }

  /** The type is read up to `j`, and then its suffixes. */
  ghost predicate TypeReads(t: Tokens, i: nat, m: Meanings, text: string, j: nat) {
    && i <= |t| && j <= |t|
    && forall z {:trigger Unseal(z)} :: Unseal(z) ==> ParseTypeName(t, i, AliasTexts(m)) == Suffixes(t, j, text)
  }

  lemma {:induction false} WordReads(t: Tokens, i: nat, m: Meanings, w: Written)
    requires (w.Plainly? || w.Alias?) && Declared(w, m) && Stands(t, i, Write(w))
    ensures TypeReads(t, i, m, Name(Meaning(w, m)), i + 1)
  {
    StandsAt(t, i, Write(w), 0);
  }

  lemma {:induction false} ArrayReads(t: Tokens, i: nat, m: Meanings, text: string, j: nat)
    requires TypeReads(t, i, m, text, j) && Stands(t, j, [LBracket, RBracket])
    ensures TypeReads(t, i, m, "array<" + (text + ">"), j + 2)
  {
    StandsAt(t, j, [LBracket, RBracket], 0);
    StandsAt(t, j, [LBracket, RBracket], 1);
    assert Unseal(0);
  }

  lemma {:induction false} ObjectReads(t: Tokens, i: nat, m: Meanings, text: string, j: nat)
    requires Has(t, i, LBrace) && !Has(t, i + 1, RBrace) && j <= |t| && FieldsRead(t, i + 1, m, "object{", text, j)
    ensures TypeReads(t, i, m, text, j)
  {
    assert Unseal(0);
  }

  lemma {:induction false} EmptyObjectReads(t: Tokens, i: nat, m: Meanings)
    requires Has(t, i, LBrace) && Has(t, i + 1, RBrace)
    ensures TypeReads(t, i, m, "object{" + "}", i + 2)
  {
  }

  lemma {:induction false} LastFieldReads(t: Tokens, i: nat, m: Meanings, before: string, key: string, text: string,
        j: nat)
    requires Has(t, i, Ident(key)) && Has(t, i + 1, Colon) && TypeReads(t, i + 2, m, text, j) && Has(t, j, RBrace)
    ensures FieldsRead(t, i, m, before, before + (key + (":" + text)) + "}", j + 1)
  {
    assert Unseal(0);
    assert Suffixes(t, j, text) == Parsed(text, j);
  }

  lemma {:induction false} NextFieldReads(t: Tokens, i: nat, m: Meanings, before: string, key: string, text: string,
        j: nat, all: string, end: nat)
    requires Has(t, i, Ident(key)) && Has(t, i + 1, Colon) && TypeReads(t, i + 2, m, text, j)
    requires Has(t, j, Comma) && !Has(t, j + 1, RBrace)
      && FieldsRead(t, j + 1, m, before + (key + (":" + text)) + ",", all, end)
    ensures FieldsRead(t, i, m, before, all, end)
  {
    assert Unseal(0);
    assert Suffixes(t, j, text) == Parsed(text, j);
  }

  // ----- reading what was written -----

  lemma {:induction false} FieldStarts(t: Tokens, i: nat, fields: seq<WrittenField>)
    requires fields != [] && Stands(t, i, WriteFields(fields) + [RBrace])
    ensures Has(t, i, Ident(fields[0].key)) && Has(t, i + 1, Colon) && !Has(t, i, RBrace)
  {
    var p := WriteFields(fields) + [RBrace];
    StandsAt(t, i, p, 0);
    StandsAt(t, i, p, 1);
  }

  /** The first written field and what follows it, where they stand. */
  lemma {:induction false} WrittenFieldStands(t: Tokens, i: nat, fields: seq<WrittenField>, j: nat, end: nat)
    requires fields != [] && Stands(t, i, WriteFields(fields) + [RBrace])
    requires j == i + 2 + |Write(fields[0].type_)| && end == i + |WriteFields(fields)| + 1
    ensures Has(t, i, Ident(fields[0].key)) && Has(t, i + 1, Colon) && Stands(t, i + 2, Write(fields[0].type_))
    ensures |fields| == 1 ==> Has(t, j, RBrace) && end == j + 1
    ensures |fields| > 1 ==>
      Has(t, j, Comma) && Stands(t, j + 1, WriteFields(fields[1..]) + [RBrace]) && end == j + 1
        + |WriteFields(fields[1..])| + 1
  {
    FieldStarts(t, i, fields);
    var head, text := [Ident(fields[0].key), Colon], Write(fields[0].type_);
    var more: Tokens := if |fields| == 1 then [] else [Comma] + WriteFields(fields[1..]);
    assert (head + (text + more)) + [RBrace] == head + (text + (more + [RBrace]));
    StandsSplit(t, i, head, text + (more + [RBrace]));
    StandsSplit(t, i + 2, text, more + [RBrace]);
    if |fields| == 1 {
      assert more + [RBrace] == [RBrace];
      StandsAt(t, j, [RBrace], 0);
    } else {
      assert more + [RBrace] == [Comma] + (WriteFields(fields[1..]) + [RBrace]);
      StandsSplit(t, j, [Comma], WriteFields(fields[1..]) + [RBrace]);
      StandsAt(t, j, [Comma], 0);
    }
  }

  lemma {:induction false} WrittenReads(t: Tokens, i: nat, m: Meanings, w: Written)
    requires Declared(w, m) && Stands(t, i, Write(w))
    ensures TypeReads(t, i, m, Name(Meaning(w, m)), i + |Write(w)|)
    decreases SizeOf(w), 1
  {
    match w
    case Array(element) =>
      StandsSplit(t, i, Write(element), [LBracket, RBracket]);
      WrittenReads(t, i, m, element);
      ArrayReads(t, i, m, Name(Meaning(element, m)), i + |Write(element)|);
    case Object(fields) => ObjectReadsBack(t, i, m, fields, i + |Write(w)|);
    case _ => WordReads(t, i, m, w);
  }

  lemma {:induction false} ObjectReadsBack(t: Tokens, i: nat, m: Meanings, fields: seq<WrittenField>, end: nat)
    requires DeclaredFields(fields, m) && Stands(t, i, [LBrace] + (WriteFields(fields) + [RBrace]))
    requires end == i + 2 + |WriteFields(fields)|
    ensures TypeReads(t, i, m, Name(ObjectOf(FieldMeanings(fields, m))), end)
    decreases SizeOfFields(fields), 1
  {
    StandsSplit(t, i, [LBrace], WriteFields(fields) + [RBrace]);
    StandsAt(t, i, [LBrace], 0);
    ObjectText(fields, m);
    if fields == [] {
      assert WriteFields(fields) + [RBrace] == [RBrace];
      StandsAt(t, i + 1, [RBrace], 0);
      EmptyObjectReads(t, i, m);
      assert "object{" + "" + "}" == "object{" + "}";
    } else {
      FieldStarts(t, i + 1, fields);
      FieldsReadBack(t, i + 1, m, fields, "object{", end);
      ObjectReads(t, i, m, Name(ObjectOf(FieldMeanings(fields, m))), end);
    }
  }

  lemma {:induction false} ObjectText(fields: seq<WrittenField>, m: Meanings)
    requires DeclaredFields(fields, m)
    ensures "object{" + FieldNames(FieldMeanings(fields, m)) + "}" == Name(ObjectOf(FieldMeanings(fields, m)))
  {
  }

  lemma {:induction false} FieldsText(before: string, fields: seq<Field>)
    requires fields != []
    ensures var field := fields[0].key + (":" + Name(fields[0].type_)); var all := before + FieldNames(fields) + "}";
      && (|fields| == 1 ==> before + field + "}" == all)
      && (|fields| > 1 ==> before + field + "," + FieldNames(fields[1..]) + "}" == all)
  {
    var key, name := fields[0].key, Name(fields[0].type_);
    if |fields| == 1 {
      assert name + Later(fields) == name;
    } else {
      var later := FieldNames(fields[1..]);
      assert key + (":" + (name + ("," + later))) == (key + (":" + name)) + ("," + later);
      assert before + ((key + (":" + name)) + ("," + later)) == before + (key + (":" + name)) + "," + later;
    }
  }

  lemma {:induction false} FieldsReadBack(t: Tokens, i: nat, m: Meanings, fields: seq<WrittenField>, before: string,
        end: nat)
    requires fields != [] && DeclaredFields(fields, m) && Stands(t, i, WriteFields(fields) + [RBrace])
    requires end == i + |WriteFields(fields)| + 1
    ensures end <= |t| && FieldsRead(t, i, m, before, before + FieldNames(FieldMeanings(fields, m)) + "}", end)
    decreases SizeOfFields(fields), 0
  {
    var key, w := fields[0].key, fields[0].type_;
    var j := i + 2 + |Write(w)|;
    var text := Name(Meaning(w, m));
    var all := before + FieldNames(FieldMeanings(fields, m)) + "}";
    WrittenFieldStands(t, i, fields, j, end);
    WrittenReads(t, i + 2, m, w);
    MeaningsText(before, fields, m);
    if |fields| == 1 {
      LastFieldReads(t, i, m, before, key, text, j);
    } else {
      FieldStarts(t, j + 1, fields[1..]);
      FieldsReadBack(t, j + 1, m, fields[1..], before + (key + (":" + text)) + ",", end);
      NextFieldReads(t, i, m, before, key, text, j, all, end);
    }
  }

  lemma {:induction false} MeaningsText(before: string, fields: seq<WrittenField>, m: Meanings)
    requires fields != [] && DeclaredFields(fields, m)
    ensures var field := fields[0].key + (":" + Name(Meaning(fields[0].type_, m)));
      var all := before + FieldNames(FieldMeanings(fields, m)) + "}";
      && (|fields| == 1 ==> before + field + "}" == all)
      && (|fields| > 1 ==> before + field + "," + FieldNames(FieldMeanings(fields[1..], m)) + "}" == all)
  {
    var meanings := FieldMeanings(fields, m);
    assert meanings[0] == Field(fields[0].key, Meaning(fields[0].type_, m));
    assert meanings[1..] == FieldMeanings(fields[1..], m);
    FieldsText(before, meanings);
  }

  // ----- main result -----

  /** A written type, not followed by another pair of brackets, is parsed to the name of its meaning, and
      the whole of it is read. */
  lemma {:induction false} WrittenParses(t: Tokens, i: nat, m: Meanings, w: Written)
    requires Declared(w, m) && Stands(t, i, Write(w))
    requires var j := i + |Write(w)|; !(Has(t, j, LBracket) && Has(t, j + 1, RBracket))
    ensures ParseTypeName(t, i, AliasTexts(m)) == Parsed(Name(Meaning(w, m)), i + |Write(w)|)
  {
    WrittenReads(t, i, m, w);
    assert Unseal(0);
  }

  /** A property of a written object type, looked up in the parsed text: the written type of the first
      field with that key, if keys and types fit the buffers. */
  lemma {:induction false} WrittenPropertyFound(m: Meanings, fields: seq<WrittenField>, property: string)
    requires DeclaredFields(fields, m)
    requires var meanings := FieldMeanings(fields, m);
      WellNamedFields(meanings) && Keyed(meanings) && FitBuffers(meanings)
    ensures var text := ParseTypeName(Write(Object(fields)), 0, AliasTexts(m));
      && text.Parsed?
      && FindProperty(text.text, "object{", property) == FirstWritten(fields, m, property)
  {
    var t := Write(Object(fields));
    StandsWhole(t);
    WrittenParses(t, 0, m, Object(fields));
    PropertyFound(FieldMeanings(fields, m), property);
    LookupWritten(fields, m, property);
  }

  predicate FitBuffers(fields: seq<Field>) {
    fields == [] ||
    (|fields[0].key| <= KEY_ROOM && |Name(fields[0].type_)| <= VALUE_ROOM && FitBuffers(fields[1..]))
  }

  function FirstWritten(fields: seq<WrittenField>, m: Meanings, property: string): Option<string>
    requires DeclaredFields(fields, m)
  {
    if fields == [] then None
    else if fields[0].key == property then Some(Name(Meaning(fields[0].type_, m)))
    else FirstWritten(fields[1..], m, property)
  }

  lemma {:induction false} LookupWritten(fields: seq<WrittenField>, m: Meanings, property: string)
    requires DeclaredFields(fields, m)
    requires FitBuffers(FieldMeanings(fields, m))
    ensures FirstWritten(fields, m, property)
         == match Lookup(FieldMeanings(fields, m),
           property) case None => None case Some(t) => Some(Clip(Name(t), VALUE_ROOM))
    decreases |fields|
  {
    if fields == [] {
    } else {
      var meanings := FieldMeanings(fields, m);
      assert meanings[0] == Field(fields[0].key, Meaning(fields[0].type_, m));
      assert meanings[1..] == FieldMeanings(fields[1..], m);
      LookupWritten(fields[1..], m, property);
    }
  }
}
