/** The JSON parser and printer as libs/json runs them: loops that move an index and grow a result. */
module JsonParser {
  import opened Wrappers
  import opened Bytes
  import opened Json

  method SkipWhitespace(t: Text, index: nat) returns (current: nat)
    requires index <= |t|
    ensures current == SkipWs(t, index)
  {
    current := index;
    while current < |t| && IsWhitespace(t[current])
      invariant index <= current <= |t|
      invariant SkipWs(t, current) == SkipWs(t, index)
    {
      current := current + 1;
    }
  }

  method ReadString(t: Text, index: nat) returns (r: Parsed<Text>)
    requires index <= |t|
    ensures r == ParseString(t, index)
  {
    if index >= |t| || t[index] != QUOTE {
      return Fail;
    }
    var current := index + 1;
    var result: Text := [];
    while current < |t|
      invariant index < current <= |t|
      invariant ParseStringRest(t, current, result) == ParseString(t, index)
    {
      var ch := t[current];
      if ch == QUOTE {
        return Ok(result, current + 1);
      }
      if ch == BACKSLASH {
        current := current + 1;
        if current >= |t| {
          return Fail;
        }
        var escaped := Unescape(t[current]);
        if escaped.None? {
          return Fail;
        }
        result := result + [escaped.value];
      } else {
        result := result + [ch];
      }
      current := current + 1;
    }
    return Fail;
  }

  method SkipDigits(t: Text, index: nat) returns (current: nat)
    requires index <= |t|
    ensures current == DigitsEnd(t, index)
  {
    current := index;
    while current < |t| && IsDigit(t[current])
      invariant index <= current <= |t|
      invariant DigitsEnd(t, current) == DigitsEnd(t, index)
    {
      current := current + 1;
    }
  }

  method ReadMantissa(t: Text, index: nat) returns (current: nat, sawDigit: bool)
    requires index <= |t|
    ensures (current, sawDigit) == MantissaEnd(t, index)
  {
    current := index;
    if current < |t| && t[current] == MINUS {
      current := current + 1;
    }
    var start := current;
    current := SkipDigits(t, current);
    sawDigit := current > start;
    if current < |t| && t[current] == DOT {
      start := current + 1;
      current := SkipDigits(t, start);
      sawDigit := sawDigit || current > start;
    }
  }

  method ReadExponent(t: Text, index: nat) returns (r: Option<nat>)
    requires index <= |t|
    ensures r == ExponentEnd(t, index)
  {
    var current := index;
    if current < |t| && IsExponent(t[current]) {
      current := current + 1;
      if current < |t| && (t[current] == PLUS || t[current] == MINUS) {
        current := current + 1;
      }
      var start := current;
      current := SkipDigits(t, current);
      if current == start {
        return None;
      }
    }
    return Some(current);
  }

  method ReadNumber(t: Text, index: nat) returns (r: Option<nat>)
    requires index <= |t|
    ensures r == NumberEnd(t, index)
  {
    var current, sawDigit := ReadMantissa(t, index);
    var end := ReadExponent(t, current);
    if end.None? {
      return None;
    }
    return if sawDigit then end else None;
  }

  method ReadKey(t: Text, index: nat) returns (r: Parsed<Text>)
    requires index <= |t|
    ensures r == ParseKey(t, index)
  {
    var key := ReadString(t, index);
    if key.Fail? {
      return Fail;
    }
    var current := SkipWhitespace(t, key.next);
    if current >= |t| || t[current] != COLON {
      return Fail;
    }
    current := SkipWhitespace(t, current + 1);
    return Ok(key.value, current);
  }

  method ReadValue<N>(f: Floats<N>, t: Text, index: nat) returns (r: Parsed<Value<N>>)
    requires index <= |t|
    ensures r == ParseValue(f, t, index)
    decreases |t| - index, 1
  {
    var current := SkipWhitespace(t, index);
    if current >= |t| {
      return Fail;
    }
    if t[current] == QUOTE {
      var s := ReadString(t, current);
      return if s.Fail? then Fail else Ok(Str(s.value), s.next);
    }
    if t[current] == OPEN_BRACE {
      r := ReadObject(f, t, current);
      return;
    }
    if t[current] == OPEN_BRACKET {
      r := ReadArray(f, t, current);
      return;
    }
    if Word(t, current, TRUE) {
      return Ok(Bool(true), current + 4);
    }
    if Word(t, current, FALSE) {
      return Ok(Bool(false), current + 5);
    }
    if Word(t, current, NULL) {
      return Ok(Null, current + 4);
    }
    var end := ReadNumber(t, current);
    return if end.None? then Fail else Ok(Number(f.read(t[current..end.value])), end.value);
  }

  method ReadArray<N>(f: Floats<N>, t: Text, index: nat) returns (r: Parsed<Value<N>>)
    requires index <= |t|
    ensures r == ParseArray(f, t, index)
    decreases |t| - index, 0
  {
    if index >= |t| || t[index] != OPEN_BRACKET {
      return Fail;
    }
    var current := SkipWhitespace(t, index + 1);
    if current < |t| && t[current] == CLOSE_BRACKET {
      return Ok(Arr([]), current + 1);
    }
    r := ReadItems(f, t, current);
  }

  /** The loop over the elements, up to and with the closing bracket. */
  method ReadItems<N>(f: Floats<N>, t: Text, start: nat) returns (r: Parsed<Value<N>>)
    requires start <= |t|
    ensures r == ParseItems(f, t, start, [])
    decreases |t| - start, 2
  {
    var current := start;
    var items: seq<Value<N>> := [];
    ghost var whole := ParseItems(f, t, start, []);
    while current < |t|
      invariant start <= current <= |t|
      invariant ParseItems(f, t, current, items) == whole
    {
      var item := ReadValue(f, t, current);
      if item.Fail? {
        return Fail;
      }
      items := items + [item.value];
      current := SkipWhitespace(t, item.next);
      if current < |t| && t[current] == COMMA {
        current := SkipWhitespace(t, current + 1);
        assert ParseItems(f, t, current, items) == whole;
        continue;
      }
      if current < |t| && t[current] == CLOSE_BRACKET {
        return Ok(Arr(items), current + 1);
      }
      return Fail;
    }
    return Fail;
  }

  method ReadMember<N>(f: Floats<N>, t: Text, index: nat) returns (r: Parsed<Member<N>>)
    requires index <= |t|
    ensures r == ParseMember(f, t, index)
    decreases |t| - index, 2
  {
    var key := ReadKey(t, index);
    if key.Fail? {
      return Fail;
    }
    var child := ReadValue(f, t, key.next);
    return if child.Fail? then Fail else Ok(Member(key.value, child.value), child.next);
  }

  method ReadObject<N>(f: Floats<N>, t: Text, index: nat) returns (r: Parsed<Value<N>>)
    requires index <= |t|
    ensures r == ParseObject(f, t, index)
    decreases |t| - index, 0
  {
    if index >= |t| || t[index] != OPEN_BRACE {
      return Fail;
    }
    var current := SkipWhitespace(t, index + 1);
    if current < |t| && t[current] == CLOSE_BRACE {
      return Ok(Obj([]), current + 1);
    }
    r := ReadMembers(f, t, current);
  }

  /** The loop over the members, up to and with the closing brace. */
  method ReadMembers<N>(f: Floats<N>, t: Text, start: nat) returns (r: Parsed<Value<N>>)
    requires start <= |t|
    ensures r == ParseMembers(f, t, start, [])
    decreases |t| - start, 3
  {
    var current := start;
    var members: seq<Member<N>> := [];
    ghost var whole := ParseMembers(f, t, start, []);
    while current < |t|
      invariant start <= current <= |t|
      invariant ParseMembers(f, t, current, members) == whole
    {
      var member := ReadMember(f, t, current);
      if member.Fail? {
        return Fail;
      }
      members := members + [member.value];
      current := SkipWhitespace(t, member.next);
      if current < |t| && t[current] == COMMA {
        current := SkipWhitespace(t, current + 1);
        assert ParseMembers(f, t, current, members) == whole;
        continue;
      }
      if current < |t| && t[current] == CLOSE_BRACE {
        return Ok(Obj(members), current + 1);
      }
      return Fail;
    }
    return Fail;
  }

  method ParseText<N>(f: Floats<N>, t: Text) returns (v: Value<N>)
    ensures v == Parse(f, t)
  {
    var r := ReadValue(f, t, 0);
    if r.Fail? {
      return Null;
    }
    var end := SkipWhitespace(t, r.next);
    if end != |t| {
      return Null;
    }
    return r.value;
  }

  method IsValid<N>(f: Floats<N>, t: Text) returns (valid: bool)
    ensures valid <==> Whole(f, t).Some?
  {
    var r := ReadValue(f, t, 0);
    if r.Fail? {
      return false;
    }
    var end := SkipWhitespace(t, r.next);
    return end == |t|;
  }

  // ----- printing -----

  method WriteIndent(level: nat) returns (result: Text)
    ensures result == Indent(level)
  {
    result := [];
    for i := 0 to level
      invariant result == Indent(i)
    {
      result := result + [SPACE, SPACE];
    }
  }

  method WriteBreak(level: nat, pretty: bool) returns (result: Text)
    ensures result == Break(level, pretty)
  {
    result := [];
    if pretty {
      var indent := WriteIndent(level);
      result := [NEWLINE] + indent;
    }
  }

  method WriteQuoted(s: Text) returns (result: Text)
    ensures result == Quote(s)
  {
    result := [QUOTE];
    assert s[0..] == s;
    for i := 0 to |s|
      invariant result + EscapeAll(s[i..]) == [QUOTE] + EscapeAll(s)
    {
      assert s[i..][1..] == s[i + 1..];
      ghost var before := result;
      result := result + EscapeByte(s[i]);
      assert result + EscapeAll(s[i + 1..]) == before + EscapeAll(s[i..]);
    }
    assert EscapeAll(s[|s|..]) == [];
    Joins([QUOTE], EscapeAll(s), [QUOTE]);
    result := result + [QUOTE];
  }

  lemma {:induction false} Joins(a: Text, b: Text, c: Text)
    ensures (a + b) + c == a + (b + c)
  {
  }

  lemma {:induction false} SizeOfItems<N>(items: seq<Value<N>>, i: nat)
    requires i < |items|
    ensures Size(items[i]) < SizeItems(items[i..]) <= SizeItems(items)
  {
    if i == 0 {
    } else {
      assert items[1..][i - 1..] == items[i..];
      SizeOfItems(items[1..], i - 1);
    }
  }

  lemma {:induction false} SizeOfMembers<N>(members: seq<Member<N>>, i: nat)
    requires i < |members|
    ensures Size(members[i].value) < SizeMembers(members[i..]) <= SizeMembers(members)
  {
    if i == 0 {
    } else {
      assert members[1..][i - 1..] == members[i..];
      SizeOfMembers(members[1..], i - 1);
    }
  }

  /** The text up to element `i` and the text of the elements from `i` on. */
  ghost predicate ItemsLeft<N>(f: Floats<N>, items: seq<Value<N>>, i: nat, level: nat, pretty: bool, result: Text) {
    i <= |items| &&
    result + PrintItems(f, items[i..], i == 0, level, pretty) == [OPEN_BRACKET]
      + PrintItems(f, items, true, level, pretty)
  }

  ghost predicate MembersLeft<N>(f: Floats<N>, members: seq<Member<N>>, i: nat, level: nat, pretty: bool,
        result: Text) {
    i <= |members| &&
    result + PrintMembers(f, members[i..], i == 0, level, pretty) == [OPEN_BRACE]
      + PrintMembers(f, members, true, level, pretty)
  }

  lemma {:induction false} ItemsStep<N>(f: Floats<N>, items: seq<Value<N>>, i: nat, level: nat, pretty: bool,
        result: Text)
    requires ItemsLeft(f, items, i, level, pretty, result) && i < |items|
    ensures ItemsLeft(f, items, i + 1, level, pretty,
      ((result + if i > 0 then [COMMA] else []) + Break(level + 1, pretty)) + Print(f, items[i], level + 1, pretty))
  {
    var rest := items[i..];
    assert rest[1..] == items[i + 1..];
    var comma := if i > 0 then [COMMA] else [];
    var lead, text := Break(level + 1, pretty), Print(f, items[i], level + 1, pretty);
    var later := PrintItems(f, items[i + 1..], false, level, pretty);
    assert PrintItems(f, rest, i == 0, level, pretty) == comma + (lead + (text + later));
    Joins(((result + comma) + lead), text, later);
    Joins((result + comma), lead, text + later);
    Joins(result, comma, lead + (text + later));
  }

  lemma {:induction false} MembersStep<N>(f: Floats<N>, members: seq<Member<N>>, i: nat, level: nat, pretty: bool,
        result: Text)
    requires MembersLeft(f, members, i, level, pretty, result) && i < |members|
    ensures MembersLeft(f, members, i + 1, level, pretty,
      ((((result + if i > 0 then [COMMA] else []) + Break(level + 1, pretty)) + Quote(members[i].key))
        + PrintColon(pretty))
        + Print(f, members[i].value, level + 1, pretty))
  {
    var rest := members[i..];
    assert rest[1..] == members[i + 1..];
    var comma := if i > 0 then [COMMA] else [];
    var lead, key, colon := Break(level + 1, pretty), Quote(members[i].key), PrintColon(pretty);
    var text := Print(f, members[i].value, level + 1, pretty);
    var later := PrintMembers(f, members[i + 1..], false, level, pretty);
    assert PrintMembers(f, rest, i == 0, level, pretty) == comma + (lead + (key + (colon + (text + later))));
    Joins((((result + comma) + lead) + key) + colon, text, later);
    Joins(((result + comma) + lead) + key, colon, text + later);
    Joins((result + comma) + lead, key, colon + (text + later));
    Joins(result + comma, lead, key + (colon + (text + later)));
    Joins(result, comma, lead + (key + (colon + (text + later))));
  }

  method Write<N>(f: Floats<N>, v: Value<N>, level: nat, pretty: bool) returns (result: Text)
    ensures result == Print(f, v, level, pretty)
    decreases Size(v)
  {
    match v
    case Null => return NULL;
    case Bool(b) => return if b then TRUE else FALSE;
    case Number(n) => return f.show(n);
    case Str(s) => result := WriteQuoted(s);
    case Arr(items) => result := WriteArray(f, items, level, pretty);
    case Obj(members) => result := WriteObject(f, members, level, pretty);
  }

  method WriteArray<N>(f: Floats<N>, items: seq<Value<N>>, level: nat, pretty: bool) returns (result: Text)
    ensures result == Print(f, Arr(items), level, pretty)
    decreases SizeItems(items), 1
  {
    if |items| == 0 {
      return [OPEN_BRACKET, CLOSE_BRACKET];
    }
    result := WriteItems(f, items, level, pretty);
    var lead := WriteBreak(level, pretty);
    Enclosed([OPEN_BRACKET], PrintItems(f, items, true, level, pretty), lead, [CLOSE_BRACKET]);
    result := (result + lead) + [CLOSE_BRACKET];
  }

  lemma {:induction false} Enclosed(open: Text, inner: Text, lead: Text, close: Text)
    ensures ((open + inner) + lead) + close == open + (inner + (lead + close))
  {
  }

  /** The opening bracket and the elements. */
  method WriteItems<N>(f: Floats<N>, items: seq<Value<N>>, level: nat, pretty: bool) returns (result: Text)
    requires items != []
    ensures result == [OPEN_BRACKET] + PrintItems(f, items, true, level, pretty)
    decreases SizeItems(items), 0
  {
    result := [OPEN_BRACKET];
    assert items[0..] == items;
    for i := 0 to |items|
      invariant ItemsLeft(f, items, i, level, pretty, result)
    {
      SizeOfItems(items, i);
      ItemsStep(f, items, i, level, pretty, result);
      result := result + if i > 0 then [COMMA] else [];
      var lead := WriteBreak(level + 1, pretty);
      result := result + lead;
      var child := Write(f, items[i], level + 1, pretty);
      result := result + child;
    }
    assert items[|items|..] == [];
  }

  method WriteObject<N>(f: Floats<N>, members: seq<Member<N>>, level: nat, pretty: bool) returns (result: Text)
    ensures result == Print(f, Obj(members), level, pretty)
    decreases SizeMembers(members), 1
  {
    if |members| == 0 {
      return [OPEN_BRACE, CLOSE_BRACE];
    }
    result := WriteMembers(f, members, level, pretty);
    var lead := WriteBreak(level, pretty);
    Enclosed([OPEN_BRACE], PrintMembers(f, members, true, level, pretty), lead, [CLOSE_BRACE]);
    result := (result + lead) + [CLOSE_BRACE];
  }

  /** The opening brace and the members. */
  method WriteMembers<N>(f: Floats<N>, members: seq<Member<N>>, level: nat, pretty: bool) returns (result: Text)
    requires members != []
    ensures result == [OPEN_BRACE] + PrintMembers(f, members, true, level, pretty)
    decreases SizeMembers(members), 0
  {
    result := [OPEN_BRACE];
    assert members[0..] == members;
    for i := 0 to |members|
      invariant MembersLeft(f, members, i, level, pretty, result)
    {
      SizeOfMembers(members, i);
      MembersStep(f, members, i, level, pretty, result);
      result := result + if i > 0 then [COMMA] else [];
      var lead := WriteBreak(level + 1, pretty);
      result := result + lead;
      var key := WriteQuoted(members[i].key);
      result := result + key;
      result := result + PrintColon(pretty);
      var child := Write(f, members[i].value, level + 1, pretty);
      result := result + child;
    }
    assert members[|members|..] == [];
  }
}
