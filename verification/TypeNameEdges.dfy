/** Where buffers end, which words are types, and a comma behind the last field. */
module TypeNameEdges {
  import opened Wrappers
  import opened Slices
  import opened TypeNames
  import opened TypeNameFacts
  import opened TypeParser
  import opened TypeWriting

  // ----- buffers -----

  /** The key is found under this name: its own if it fits the buffer of 128 characters, its first 127 otherwise. */
  predicate Under(key: string, name: string) {
    if |key| <= 127 then key == name else key[..127] == name
  }

  /** A property is found under the name of the first field that goes by it, and its type is cut to 255 characters. */
  lemma {:induction false} FirstFieldFound(fields: seq<Field>, j: nat, property: string)
    requires WellNamedFields(fields) && Keyed(fields) && j < |fields|
    requires Under(fields[j].key, property) && forall i | 0 <= i < j :: !Under(fields[i].key, property)
    ensures var name := Name(fields[j].type_);
      FindProperty(Name(ObjectOf(fields)), "object{", property) == Some(if |name| <= 255 then name else name[..255])
  {
    PropertyFound(fields, property);
    LookupFirst(fields, j, property);
  }

  lemma {:induction false} LookupFirst(fields: seq<Field>, j: nat, property: string)
    requires j < |fields| && Under(fields[j].key, property)
    requires forall i | 0 <= i < j :: !Under(fields[i].key, property)
    ensures Lookup(fields, property) == Some(fields[j].type_)
    decreases j
  {
    if j == 0 {
    } else {
      assert !Under(fields[0].key, property);
      LookupFirst(fields[1..], j - 1, property);
    }
  }

  /** Where no field goes by the name nothing is found. */
  lemma {:induction false} NoFieldFound(fields: seq<Field>, property: string)
    requires WellNamedFields(fields) && Keyed(fields)
    requires forall i | 0 <= i < |fields| :: !Under(fields[i].key, property)
    ensures FindProperty(Name(ObjectOf(fields)), "object{", property) == None
  {
    PropertyFound(fields, property);
    LookupNone(fields, property);
  }

  lemma {:induction false} LookupNone(fields: seq<Field>, property: string)
    requires forall i | 0 <= i < |fields| :: !Under(fields[i].key, property)
    ensures Lookup(fields, property) == None
    decreases fields
  {
    if fields == [] {
    } else {
      assert !Under(fields[0].key, property);
      LookupNone(fields[1..], property);
    }
  }

  // ----- words -----

  /** The words that are types. */
  lemma {:induction false} WordKnown(w: string)
    requires PlainText(w)
    ensures IsKnown(w) <==>
      || w == "string" || w == "bool" || w == "void" || w == "object" || w == "array" || w == "any"
      || w == "i8" || w == "i32" || w == "i64" || w == "u8" || w == "u32" || w == "u64" || w == "f32" || w == "f64"
  {
    PlainKnown(w);
  }

  /** A module is known whatever is in its braces. */
  lemma {:induction false} ModuleKnown(inner: string)
    ensures IsKnown("module{" + inner + "}")
  {
    var s := "module{" + inner + "}";
    assert s[..7] == "module{";
    assert s[..6][0] == 'm' && s[..7][0] == 'm';
  }

  /** What begins like an array, an object or a module and does not end like one is no type. */
  lemma {:induction false} UnclosedUnknown(s: string)
    ensures "array<" <= s && s[|s| - 1] != '>' ==> !IsKnown(s) && ElementName(s) == None
    ensures ("object{" <= s || "module{" <= s) && s[|s| - 1] != '}' ==> !IsKnown(s)
    ensures "object{" <= s && s[|s| - 1] != '}' ==> forall p :: FindProperty(s, "object{", p) == None
  {
    if "array<" <= s || "object{" <= s || "module{" <= s {
      assert s[5] == '<' || s[6] == '{';
      assert s !in KNOWN by {
        assert forall w | w in KNOWN :: |w| < 7 && (|w| == 6 ==> w[5] != '<');
      }
      StartsOnce(s);
    }
  }

  lemma {:induction false} StartsOnce(s: string)
    requires "array<" <= s || "object{" <= s || "module{" <= s
    ensures StartsWith(s, "array<") <==> s[0] == 'a'
    ensures StartsWith(s, "object{") <==> s[0] == 'o'
    ensures StartsWith(s, "module{") <==> s[0] == 'm'
  {
    assert "array<"[0] == 'a' && "object{"[0] == 'o' && "module{"[0] == 'm';
    if "array<" <= s {
      assert s[..6] == "array<";
    } else if "object{" <= s {
      assert s[..7] == "object{";
    } else {
      assert s[..7] == "module{";
    }
    assert |s| >= 7 ==> s[..6][0] == s[0] && s[..7][0] == s[0];
    assert s[..6][0] == s[0];
  }

  // ----- commas -----

  lemma {:induction false} LastFieldWithComma(
      t: Tokens, i: nat, m: Meanings, before: string, key: string, text: string, j: nat)
    requires Has(t, i, Ident(key)) && Has(t, i + 1, Colon) && TypeReads(t, i + 2, m, text, j)
    requires Has(t, j, Comma) && Has(t, j + 1, RBrace)
    ensures FieldsRead(t, i, m, before, before + (key + (":" + text)) + "}", j + 2)
  {
    assert Unseal(0);
    assert Suffixes(t, j, text) == Parsed(text, j);
  }

  /** The first written field and what follows it, up to a comma and the closing brace. */
  lemma {:induction false} CommaFieldStands(t: Tokens, i: nat, fields: seq<WrittenField>, j: nat, end: nat)
    requires fields != [] && Stands(t, i, WriteFields(fields) + [Comma, RBrace])
    requires j == i + 2 + |Write(fields[0].type_)| && end == i + |WriteFields(fields)| + 2
    ensures Has(t, i, Ident(fields[0].key)) && Has(t, i + 1, Colon) && Stands(t, i + 2, Write(fields[0].type_))
    ensures Has(t, j, Comma)
    ensures |fields| == 1 ==> Has(t, j + 1, RBrace) && end == j + 2
    ensures |fields| > 1 ==>
      && Stands(t, j + 1, WriteFields(fields[1..]) + [Comma, RBrace])
      && end == j + 1 + |WriteFields(fields[1..])| + 2
  {
    var head, text, close := [Ident(fields[0].key), Colon], Write(fields[0].type_), [Comma, RBrace];
    var more: Tokens := if |fields| == 1 then [] else [Comma] + WriteFields(fields[1..]);
    assert (head + (text + more)) + close == head + (text + (more + close));
    StandsSplit(t, i, head, text + (more + close));
    StandsAt(t, i, head, 0);
    StandsAt(t, i, head, 1);
    StandsSplit(t, i + 2, text, more + close);
    if |fields| == 1 {
      assert more + close == close;
      StandsAt(t, j, close, 0);
      StandsAt(t, j, close, 1);
    } else {
      assert more + close == [Comma] + (WriteFields(fields[1..]) + close);
      StandsSplit(t, j, [Comma], WriteFields(fields[1..]) + close);
      StandsAt(t, j, [Comma], 0);
    }
  }

  lemma {:induction false} CommaFieldsRead(
      t: Tokens, i: nat, m: Meanings, fields: seq<WrittenField>, before: string, end: nat)
    requires fields != [] && DeclaredFields(fields, m) && Stands(t, i, WriteFields(fields) + [Comma, RBrace])
    requires end == i + |WriteFields(fields)| + 2
    ensures end <= |t| && FieldsRead(t, i, m, before, before + FieldNames(FieldMeanings(fields, m)) + "}", end)
    decreases |fields|
  {
    var key, w := fields[0].key, fields[0].type_;
    var j := i + 2 + |Write(w)|;
    var text := Name(Meaning(w, m));
    var all := before + FieldNames(FieldMeanings(fields, m)) + "}";
    CommaFieldStands(t, i, fields, j, end);
    WrittenReads(t, i + 2, m, w);
    MeaningsText(before, fields, m);
    if |fields| == 1 {
      LastFieldWithComma(t, i, m, before, key, text, j);
    } else {
      NextStarts(t, j + 1, fields[1..]);
      CommaFieldsRead(t, j + 1, m, fields[1..], before + (key + (":" + text)) + ",", end);
      NextFieldReads(t, i, m, before, key, text, j, all, end);
    }
  }

  lemma {:induction false} NextStarts(t: Tokens, i: nat, fields: seq<WrittenField>)
    requires fields != [] && Stands(t, i, WriteFields(fields) + [Comma, RBrace])
    ensures Has(t, i, Ident(fields[0].key)) && !Has(t, i, RBrace)
  {
    StandsAt(t, i, WriteFields(fields) + [Comma, RBrace], 0);
  }

  /** A comma behind the last field of a written object changes nothing. */
  lemma {:induction false} LastCommaParses(t: Tokens, i: nat, m: Meanings, fields: seq<WrittenField>)
    requires fields != [] && DeclaredFields(fields, m)
    requires Stands(t, i, [LBrace] + (WriteFields(fields) + [Comma, RBrace]))
    requires var j := i + |WriteFields(fields)| + 3; !(Has(t, j, LBracket) && Has(t, j + 1, RBracket))
    ensures ParseTypeName(t, i, AliasTexts(m))
         == Parsed(Name(Meaning(Object(fields), m)), i + |WriteFields(fields)| + 3)
  {
    var end := i + |WriteFields(fields)| + 3;
    StandsSplit(t, i, [LBrace], WriteFields(fields) + [Comma, RBrace]);
    StandsAt(t, i, [LBrace], 0);
    NextStarts(t, i + 1, fields);
    CommaFieldsRead(t, i + 1, m, fields, "object{", end);
    ObjectText(fields, m);
    ObjectReads(t, i, m, Name(ObjectOf(FieldMeanings(fields, m))), end);
    assert Unseal(0);
  }

  // ----- errors -----

  /** A name that is no alias is no type, and neither is anything but a word, an alias or an opening brace. */
  lemma {:induction false} NoTypeFails(t: Tokens, i: nat, aliases: Aliases)
    requires i <= |t|
    ensures i == |t| ==> ParseTypeName(t, i, aliases) == Bad
    ensures i < |t| && t[i].Ident? && t[i].name !in aliases ==> ParseTypeName(t, i, aliases) == Bad
    ensures i < |t| && !t[i].Ident? && !t[i].Word? && !t[i].LBrace? ==> ParseTypeName(t, i, aliases) == Bad
  {
  }
}
