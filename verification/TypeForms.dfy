/** Whatever the type parser accepts has been written by its grammar, and becomes the text of what was written. */
module TypeForms {
  import opened TypeParser

  // ----- types as they are written -----

  datatype Form =
    | WordForm(name: string)
    | AliasForm(name: string)
    | ArrayForm(element: Form)
    | ObjectForm(fields: seq<FieldForm>, lastComma: bool)

  datatype FieldForm = FieldForm(key: string, type_: Form)

  function FormSize(f: Form): nat
    decreases f
  {
    match f
    case ArrayForm(element) => 1 + FormSize(element)
    case ObjectForm(fields, _) => 1 + FieldsSize(fields)
    case _ => 1
  }

  function FieldsSize(fields: seq<FieldForm>): nat
    decreases fields
  {
    if fields == [] then 0 else 1 + FormSize(fields[0].type_) + FieldsSize(fields[1..])
  }

  /** Aliases are declared, and a comma comes last only behind a field. */
  predicate FormOk(f: Form, aliases: Aliases)
    decreases FormSize(f)
  {
    match f
    case WordForm(_) => true
    case AliasForm(name) => name in aliases
    case ArrayForm(element) => FormOk(element, aliases)
    case ObjectForm(fields, lastComma) => FieldsOk(fields, aliases) && (lastComma ==> fields != [])
  }

  predicate FieldsOk(fields: seq<FieldForm>, aliases: Aliases)
    decreases FieldsSize(fields)
  {
    fields == [] || (FormOk(fields[0].type_, aliases) && FieldsOk(fields[1..], aliases))
  }

  function Closing(comma: bool): Tokens {
    if comma then [Comma, RBrace] else [RBrace]
  }

  function WriteForm(f: Form): Tokens
    decreases FormSize(f)
  {
    match f
    case WordForm(name) => [Word(name)]
    case AliasForm(name) => [Ident(name)]
    case ArrayForm(element) => WriteForm(element) + [LBracket, RBracket]
    case ObjectForm(fields, lastComma) => [LBrace] + (WriteFieldForms(fields) + Closing(lastComma))
  }

  function WriteFieldForms(fields: seq<FieldForm>): Tokens
    decreases FieldsSize(fields)
  {
    if fields == [] then []
    else
      ([Ident(fields[0].key), Colon] + WriteForm(fields[0].type_))
      + if |fields| == 1 then [] else [Comma] + WriteFieldForms(fields[1..])
  }

  function TextOf(f: Form, aliases: Aliases): string
    requires FormOk(f, aliases)
    decreases FormSize(f)
  {
    match f
    case WordForm(name) => name
    case AliasForm(name) => aliases[name]
    case ArrayForm(element) => "array<" + (TextOf(element, aliases) + ">")
    case ObjectForm(fields, _) => ("object{" + FieldTexts(fields, aliases)) + "}"
  }

  function FieldTexts(fields: seq<FieldForm>, aliases: Aliases): string
    requires FieldsOk(fields, aliases)
    decreases FieldsSize(fields)
  {
    if fields == [] then ""
    else
      (fields[0].key + (":" + TextOf(fields[0].type_, aliases)))
      + if |fields| == 1 then "" else "," + FieldTexts(fields[1..], aliases)
  }

  // ----- what is read -----

  ghost predicate Reads(t: Tokens, i: nat, j: nat, f: Form, aliases: Aliases, text: string) {
    i <= j <= |t| && FormOk(f, aliases) && t[i..j] == WriteForm(f) && TextOf(f, aliases) == text
  }

  ghost predicate FieldsRead(t: Tokens, i: nat, j: nat, fs: seq<FieldForm>, comma: bool, aliases: Aliases,
        text: string) {
    && i <= j <= |t| && FieldsOk(fs, aliases) && fs != [] && FieldTexts(fs, aliases) == text
    && t[i..j] == WriteFieldForms(fs) + Closing(comma)
  }

  lemma {:induction false} Joined(t: Tokens, i: nat, k: nat, j: nat, a: Tokens, b: Tokens)
    requires i <= k <= j <= |t| && t[i..k] == a && t[k..j] == b
    ensures t[i..j] == a + b
  {
  }

  lemma {:induction false} ReadSuffixes(t: Tokens, start: nat, i: nat, f: Form, aliases: Aliases, text: string)
      returns (g: Form)
    requires Reads(t, start, i, f, aliases, text)
    ensures var r := Suffixes(t, i, text); Reads(t, start, r.next, g, aliases, r.text)
    decreases |t| - i
  {
    if Has(t, i, LBracket) && Has(t, i + 1, RBracket) {
      assert t[i..i + 2] == [LBracket, RBracket];
      Joined(t, start, i, i + 2, WriteForm(f), [LBracket, RBracket]);
      g := ReadSuffixes(t, start, i + 2, ArrayForm(f), aliases, "array<" + (text + ">"));
    } else {
      g := f;
    }
  }

  /** Whatever is accepted is a type of the grammar: the tokens that were read are a form, and the text is that of the
      form. */
  lemma {:induction false} AcceptedTypeIsWritten(t: Tokens, i: nat, aliases: Aliases) returns (f: Form)
    requires i <= |t| && ParseTypeName(t, i, aliases).Parsed?
    ensures var r := ParseTypeName(t, i, aliases);
      i <= r.next <= |t| && FormOk(f, aliases) && t[i..r.next] == WriteForm(f) && r.text == TextOf(f, aliases)
    decreases |t| - i, 1
  {
    assert t[i..i + 1] == [t[i]];
    match t[i]
    case Word(name) => f := ReadSuffixes(t, i, i + 1, WordForm(name), aliases, name);
    case Ident(name) => f := ReadSuffixes(t, i, i + 1, AliasForm(name), aliases, aliases[name]);
    case LBrace =>
      var r := ParseObject(t, i + 1, aliases);
      var object_ := ReadObject(t, i, aliases);
      f := ReadSuffixes(t, i, r.next, object_, aliases, r.text);
  }

  lemma {:induction false} ReadObject(t: Tokens, i: nat, aliases: Aliases) returns (f: Form)
    requires Has(t, i, LBrace) && ParseObject(t, i + 1, aliases).Parsed?
    ensures var r := ParseObject(t, i + 1, aliases); Reads(t, i, r.next, f, aliases, r.text)
    decreases |t| - i, 0
  {
    var j := ParseObject(t, i + 1, aliases).next;
    assert t[i..i + 1] == [LBrace];
    if Has(t, i + 1, RBrace) {
      f := ObjectForm([], false);
      assert t[i + 1..j] == Closing(false);
      Joined(t, i, i + 1, j, [LBrace], Closing(false));
      assert [] + Closing(false) == Closing(false);
      assert "object{" + "" == "object{";
    } else {
      var fs, comma := ReadFields(t, i + 1, aliases, "object{", ParseFields(t, i + 1, aliases, "object{"));
      Joined(t, i, i + 1, j, [LBrace], WriteFieldForms(fs) + Closing(comma));
      f := ObjectForm(fs, comma);
    }
  }

  lemma {:induction false} FormsCons(first: FieldForm, rest: seq<FieldForm>, aliases: Aliases)
    requires FormOk(first.type_, aliases) && FieldsOk(rest, aliases)
    ensures FieldsOk([first] + rest, aliases)
    ensures WriteFieldForms([first] + rest) == ([Ident(first.key), Colon] + WriteForm(first.type_))
      + if rest == [] then [] else [Comma] + WriteFieldForms(rest)
    ensures FieldTexts([first] + rest, aliases) == (first.key + (":" + TextOf(first.type_, aliases)))
      + if rest == [] then "" else "," + FieldTexts(rest, aliases)
  {
    assert ([first] + rest)[1..] == rest;
  }

  /** One field, up to the comma or the brace behind it. */
  lemma {:induction false} ReadField(t: Tokens, i: nat, aliases: Aliases) returns (first: FieldForm)
    requires i <= |t| && ParseField(t, i, aliases).Parsed?
    ensures var r := ParseField(t, i, aliases);
      && i <= r.next <= |t| && FormOk(first.type_, aliases)
      && t[i..r.next] == [Ident(first.key), Colon] + WriteForm(first.type_)
      && r.text == first.key + (":" + TextOf(first.type_, aliases))
    decreases |t| - i, 2
  {
    var r := ParseTypeName(t, i + 2, aliases);
    var f := AcceptedTypeIsWritten(t, i + 2, aliases);
    assert t[i..i + 2] == [t[i], Colon];
    Joined(t, i, i + 2, r.next, [t[i], Colon], WriteForm(f));
    first := FieldForm(t[i].name, f);
  }

  lemma {:induction false} LastField(t: Tokens, i: nat, j: nat, first: FieldForm, aliases: Aliases, before: string)
      returns (comma: bool, k: nat)
    requires i <= j < |t| && FormOk(first.type_, aliases)
    requires t[i..j] == [Ident(first.key), Colon] + WriteForm(first.type_)
    requires Has(t, j, RBrace) || (Has(t, j, Comma) && Has(t, j + 1, RBrace))
    ensures comma == Has(t, j, Comma) && k == if comma then j + 2 else j + 1
    ensures FieldsRead(t, i, k, [first], comma, aliases, first.key + (":" + TextOf(first.type_, aliases)))
  {
    comma := Has(t, j, Comma);
    k := if comma then j + 2 else j + 1;
    FormsCons(first, [], aliases);
    assert [first] + [] == [first];
    var text := first.key + (":" + TextOf(first.type_, aliases));
    assert text + "" == text;
    assert t[j..k] == Closing(comma);
    Joined(t, i, j, k, WriteFieldForms([first]), Closing(comma));
  }

  lemma {:induction false} MoreFields(
      t: Tokens, i: nat, j: nat, k: nat, first: FieldForm, rest: seq<FieldForm>, comma: bool, aliases: Aliases)
    requires i <= j < k <= |t| && FormOk(first.type_, aliases) && t[j] == Comma
    requires t[i..j] == [Ident(first.key), Colon] + WriteForm(first.type_)
    requires FieldsOk(rest, aliases) && FieldsRead(t, j + 1, k, rest, comma, aliases, FieldTexts(rest, aliases))
    ensures FieldsRead(t, i, k, [first] + rest, comma, aliases,
      (first.key + (":" + TextOf(first.type_, aliases))) + ("," + FieldTexts(rest, aliases)))
  {
    FormsCons(first, rest, aliases);
    var head, more := [Ident(first.key), Colon] + WriteForm(first.type_), WriteFieldForms(rest);
    assert t[j..j + 1] == [Comma];
    Joined(t, j, j + 1, k, [Comma], more + Closing(comma));
    Joined(t, i, j, k, head, [Comma] + (more + Closing(comma)));
    assert head + ([Comma] + (more + Closing(comma))) == (head + ([Comma] + more)) + Closing(comma);
  }

  lemma {:induction false} ReadFields(t: Tokens, i: nat, aliases: Aliases, before: string, whole: Parsed)
      returns (fs: seq<FieldForm>, comma: bool)
    requires i <= |t| && whole.Parsed? && ParseFields(t, i, aliases, before) == whole
    ensures FieldsOk(fs, aliases) && FieldsRead(t, i, whole.next, fs, comma, aliases, FieldTexts(fs, aliases))
    ensures whole.text == (before + FieldTexts(fs, aliases)) + "}"
    decreases |t| - i, 3
  {
    var r := ParseField(t, i, aliases);
    var first := ReadField(t, i, aliases);
    var j := r.next;
    if Has(t, j, Comma) && !Has(t, j + 1, RBrace) {
      fs, comma := ReadMore(t, i, j, aliases, before, first, r.text, whole);
    } else {
      var k;
      comma, k := LastField(t, i, j, first, aliases, before);
      fs := [first];
    }
  }

  lemma {:induction false} ReadMore(
      t: Tokens, i: nat, j: nat, aliases: Aliases, before: string, first: FieldForm, text: string, whole: Parsed)
      returns (fs: seq<FieldForm>, comma: bool)
    requires i <= j < |t| && t[j] == Comma && whole.Parsed?
    requires ParseFields(t, j + 1, aliases, before + text + ",") == whole
    requires FormOk(first.type_, aliases) && text == first.key + (":" + TextOf(first.type_, aliases))
    requires t[i..j] == [Ident(first.key), Colon] + WriteForm(first.type_)
    ensures FieldsOk(fs, aliases) && FieldsRead(t, i, whole.next, fs, comma, aliases, FieldTexts(fs, aliases))
    ensures whole.text == (before + FieldTexts(fs, aliases)) + "}"
    decreases |t| - j, 2
  {
    var rest;
    rest, comma := ReadFields(t, j + 1, aliases, before + text + ",", whole);
    MoreFields(t, i, j, whole.next, first, rest, comma, aliases);
    fs := [first] + rest;
    FormsCons(first, rest, aliases);
    MoreText(before, text, FieldTexts(rest, aliases));
  }

  lemma {:induction false} MoreText(before: string, first: string, rest: string)
    ensures ((before + first + ",") + rest) + "}" == (before + (first + ("," + rest))) + "}"
  {
  }
}
