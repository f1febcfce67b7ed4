/** Types written as text: built by src/frontend/parser/parser.c, taken apart again character by
    character in src/frontend/semantics/validator.c. */
module TypeNames {
  import opened Wrappers

  // ----- types and their names -----

  datatype Type = Plain(name: string) | ArrayOf(element: Type) | ObjectOf(fields: seq<Field>)

  datatype Field = Field(key: string, type_: Type)

  const KNOWN: set<string> :=
    {"string", "bool", "i8", "u8", "i32", "i64", "u32", "u64", "f32", "f64", "void", "object", "array", "any"}

  function Size(t: Type): nat
    decreases t
  {
    match t
    case Plain(_) => 1
    case ArrayOf(element) => 1 + Size(element)
    case ObjectOf(fields) => 1 + SizeFields(fields)
  }

  function SizeFields(fields: seq<Field>): nat
    decreases fields
  {
    if fields == [] then 0 else 1 + Size(fields[0].type_) + SizeFields(fields[1..])
  }

  function Name(t: Type): string
    decreases Size(t)
  {
    match t
    case Plain(name) => name
    case ArrayOf(element) => "array<" + (Name(element) + ">")
    case ObjectOf(fields) => "object{" + (FieldNames(fields) + "}")
  }

  function FieldNames(fields: seq<Field>): string
    decreases SizeFields(fields), 1
  {
    if fields == [] then "" else fields[0].key + (":" + (Name(fields[0].type_) + Later(fields)))
  }

  /** What follows the first field. */
  function Later(fields: seq<Field>): string
    requires fields != []
    decreases SizeFields(fields), 0
  {
    if |fields| == 1 then "" else "," + FieldNames(fields[1..])
  }

  // ----- buffers -----

  /** The part of a text that fits a buffer with room for `n` characters. */
  function Clip(s: string, n: nat): string {
    if |s| <= n then s else s[..n]
  }

  const KEY_ROOM := 127
  const VALUE_ROOM := 255

  // ----- scanning -----

  predicate At(s: string, i: nat, c: char) {
    i < |s| && s[i] == c
  }

  predicate StartsWith(s: string, prefix: string) {
    |prefix| <= |s| && s[..|prefix|] == prefix
  }

  predicate EndsWith(s: string, c: char) {
    |s| > 0 && s[|s| - 1] == c
  }

  /** Where the property type that is read from `i` on ends. The brace count may go below 0. */
  function ValueEnd(s: string, i: nat, braces: int, angles: nat): (r: nat)
    requires i <= |s|
    ensures i <= r <= |s|
    decreases |s| - i
  {
    if i == |s| then i
    else if s[i] == '{' then ValueEnd(s, i + 1, braces + 1, angles)
    else if s[i] == '}' then
      if braces == 0 && angles == 0 then i else ValueEnd(s, i + 1, braces - 1, angles)
    else if s[i] == '<' then ValueEnd(s, i + 1, braces, angles + 1)
    else if s[i] == '>' then ValueEnd(s, i + 1, braces, if angles > 0 then angles - 1 else 0)
    else if s[i] == ',' && braces == 0 && angles == 0 then i
    else ValueEnd(s, i + 1, braces, angles)
  }

  /** The first of the characters `a` and `b` from `i` on. */
  function Reach(s: string, i: nat, a: char, b: char): (r: nat)
    requires i <= |s|
    ensures i <= r <= |s|
    decreases |s| - i
  {
    if i == |s| || s[i] == a || s[i] == b then i else Reach(s, i + 1, a, b)
  }

  /** The type of the first property, from `i` on, whose key is `property`. */
  function FindFrom(s: string, i: nat, property: string): Option<string>
    requires i <= |s|
    decreases |s| - i
  {
    if i == |s| || s[i] == '}' then None
    else
      var k := Reach(s, i, ':', '}');
      if !At(s, k, ':') then None
      else
        var v := ValueEnd(s, k + 1, 0, 0);
        if Clip(s[i..k], KEY_ROOM) == property then Some(Clip(s[k + 1..v], VALUE_ROOM))
        else FindFrom(s, if At(s, v, ',') then v + 1 else v, property)
  }

  function FindProperty(s: string, prefix: string, property: string): Option<string> {
    if !StartsWith(s, prefix) || !EndsWith(s, '}') then None else FindFrom(s, |prefix|, property)
  }

  /** Where the element type of an array type ends. */
  function ElementEnd(s: string, i: nat, depth: nat): (r: nat)
    requires i <= |s|
    ensures i <= r <= |s|
    decreases |s| - i
  {
    if i == |s| then i
    else if s[i] == '<' then ElementEnd(s, i + 1, depth + 1)
    else if s[i] == '>' then if depth == 0 then i else ElementEnd(s, i + 1, depth - 1)
    else ElementEnd(s, i + 1, depth)
  }

  predicate IsArrayName(s: string) {
    StartsWith(s, "array<") && EndsWith(s, '>')
  }

  function ElementName(s: string): (r: Option<string>)
    ensures r.Some? ==> |r.value| < |s|
  {
    if IsArrayName(s) then Some(Clip(s[6..ElementEnd(s, 6, 0)], VALUE_ROOM)) else None
  }

  predicate IsKnown(s: string)
    decreases |s|, |s| + 1
  {
    if IsArrayName(s) then IsKnown(ElementName(s).value)
    else if StartsWith(s, "object{") && EndsWith(s, '}') then KnownFrom(s, 7)
    else (StartsWith(s, "module{") && EndsWith(s, '}')) || s in KNOWN
  }

  /** Every property type from `i` on is known. */
  predicate KnownFrom(s: string, i: nat)
    requires 7 <= i <= |s|
    decreases |s|, |s| - i
  {
    i == |s| || s[i] == '}' ||
    var k := Reach(s, i, ':', ':');
    At(s, k, ':') &&
    var v := ValueEnd(s, k + 1, 0, 0);
    IsKnown(Clip(s[k + 1..v], VALUE_ROOM)) && KnownFrom(s, if At(s, v, ',') then v + 1 else v)
  }
}
