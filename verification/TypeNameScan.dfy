/** The scanners of the validator as it runs them: cursors, depth counters and bounded buffers. */
module TypeNameScan {
  import opened Wrappers
  import opened Slices
  import opened TypeNames

  /** One more character, if the buffer has room for it. */
  function Put(buffer: string, room: nat, c: char): string {
    if |buffer| < room then buffer + [c] else buffer
  }

  lemma {:induction false} PutClip(s: string, i: nat, j: nat, room: nat)
    requires i <= j < |s|
    ensures Put(Clip(s[i..j], room), room, s[j]) == Clip(s[i..j + 1], room)
  {
  }

  method ReadKey(s: string, start: nat) returns (key: string, cursor: nat)
    requires start <= |s|
    ensures cursor == Reach(s, start, ':', '}') && key == Clip(s[start..cursor], KEY_ROOM)
  {
    key, cursor := "", start;
    while cursor < |s| && s[cursor] != ':' && s[cursor] != '}'
      invariant start <= cursor <= |s|
      invariant Reach(s, cursor, ':', '}') == Reach(s, start, ':', '}')
      invariant key == Clip(s[start..cursor], KEY_ROOM)
    {
      PutClip(s, start, cursor, KEY_ROOM);
      key := Put(key, KEY_ROOM, s[cursor]);
      cursor := cursor + 1;
    }
  }

  method ReadValue(s: string, start: nat) returns (value: string, cursor: nat)
    requires start <= |s|
    ensures cursor == ValueEnd(s, start, 0, 0) && value == Clip(s[start..cursor], VALUE_ROOM)
  {
    value, cursor := "", start;
    var braceDepth, angleDepth := 0, 0;
    while cursor < |s|
      invariant start <= cursor <= |s| && angleDepth >= 0
      invariant ValueEnd(s, cursor, braceDepth, angleDepth) == ValueEnd(s, start, 0, 0)
      invariant value == Clip(s[start..cursor], VALUE_ROOM)
    {
      var current := s[cursor];
      if current == '{' {
        braceDepth := braceDepth + 1;
      } else if current == '}' {
        if braceDepth == 0 && angleDepth == 0 {
          break;
        }
        braceDepth := braceDepth - 1;
      } else if current == '<' {
        angleDepth := angleDepth + 1;
      } else if current == '>' {
        if angleDepth > 0 {
          angleDepth := angleDepth - 1;
        }
      } else if current == ',' && braceDepth == 0 && angleDepth == 0 {
        break;
      }
      PutClip(s, start, cursor, VALUE_ROOM);
      value := Put(value, VALUE_ROOM, current);
      cursor := cursor + 1;
    }
  }

  method FindCompositePropertyType(s: string, prefix: string, property: string) returns (found: Option<string>)
    ensures found == FindProperty(s, prefix, property)
  {
    if !StartsWith(s, prefix) || !EndsWith(s, '}') {
      return None;
    }
    var cursor := |prefix|;
    while cursor < |s| && s[cursor] != '}'
      invariant cursor <= |s|
      invariant FindFrom(s, cursor, property) == FindProperty(s, prefix, property)
    {
      var key, value;
      key, cursor := ReadKey(s, cursor);
      if cursor >= |s| || s[cursor] != ':' {
        break;
      }
      value, cursor := ReadValue(s, cursor + 1);
      if key == property {
        return Some(value);
      }
      if cursor < |s| && s[cursor] == ',' {
        cursor := cursor + 1;
      }
    }
    return None;
  }

  method ExtractArrayElementType(s: string) returns (element: Option<string>)
    ensures element == ElementName(s)
  {
    if !IsArrayName(s) {
      return None;
    }
    var buffer, i, depth := "", 6, 0;
    while i < |s|
      invariant 6 <= i <= |s| && depth >= 0
      invariant ElementEnd(s, i, depth) == ElementEnd(s, 6, 0)
      invariant buffer == Clip(s[6..i], VALUE_ROOM)
    {
      var current := s[i];
      if current == '<' {
        depth := depth + 1;
      } else if current == '>' {
        if depth == 0 {
          break;
        }
        depth := depth - 1;
      }
      PutClip(s, 6, i, VALUE_ROOM);
      buffer := Put(buffer, VALUE_ROOM, current);
      i := i + 1;
    }
    return Some(buffer);
  }

  method SeekColon(s: string, start: nat) returns (cursor: nat)
    requires start <= |s|
    ensures cursor == Reach(s, start, ':', ':')
  {
    cursor := start;
    while cursor < |s| && s[cursor] != ':'
      invariant start <= cursor <= |s|
      invariant Reach(s, cursor, ':', ':') == Reach(s, start, ':', ':')
    {
      cursor := cursor + 1;
    }
  }

  method IsKnownTypeName(s: string) returns (known: bool)
    ensures known <==> IsKnown(s)
    decreases |s|, 1
  {
    if IsArrayName(s) {
      var element := ExtractArrayElementType(s);
      known := IsKnownTypeName(element.value);
      return;
    }
    if StartsWith(s, "object{") && EndsWith(s, '}') {
      known := AreKnownProperties(s);
      return;
    }
    if StartsWith(s, "module{") && EndsWith(s, '}') {
      return true;
    }
    return s in KNOWN;
  }

  /** Whether all properties are known is decided by those from `i` on. */
  ghost predicate Decided(s: string, i: nat, whole: bool) {
    7 <= i <= |s| && forall z {:trigger Unseal(z)} :: Unseal(z) ==> KnownFrom(s, i) == whole
  }

  lemma {:induction false} DecidedAtEnd(s: string, i: nat, whole: bool)
    requires Decided(s, i, whole) && (i == |s| || s[i] == '}')
    ensures whole
  {
    assert Unseal(0);
  }

  lemma {:induction false} DecidedByKey(s: string, i: nat, whole: bool, k: nat)
    requires Decided(s, i, whole) && i < |s| && s[i] != '}' && k == Reach(s, i, ':', ':') && !At(s, k, ':')
    ensures !whole
  {
    assert Unseal(0);
  }

  lemma {:induction false} DecidedByValue(s: string, i: nat, whole: bool, k: nat, v: nat)
    requires Decided(s, i, whole) && i < |s| && s[i] != '}' && k == Reach(s, i, ':', ':') && At(s, k, ':')
    requires v == ValueEnd(s, k + 1, 0, 0)
    ensures if IsKnown(Clip(s[k + 1..v], VALUE_ROOM)) then Decided(s, if At(s, v, ',') then v + 1 else v,
      whole) else !whole
  {
    assert Unseal(0);
  }

  /** The loop of IsKnownTypeName over the properties of an object. */
  method AreKnownProperties(s: string) returns (known: bool)
    requires StartsWith(s, "object{")
    ensures known <==> KnownFrom(s, 7)
    decreases |s|, 0
  {
    var cursor := 7;
    ghost var whole := KnownFrom(s, 7);
    while cursor < |s| && s[cursor] != '}'
      invariant Decided(s, cursor, whole)
    {
      ghost var from := cursor;
      cursor := SeekColon(s, cursor);
      if cursor >= |s| || s[cursor] != ':' {
        DecidedByKey(s, from, whole, cursor);
        return false;
      }
      ghost var key := cursor;
      var value;
      value, cursor := ReadValue(s, cursor + 1);
      DecidedByValue(s, from, whole, key, cursor);
      var valueKnown := IsKnownTypeName(value);
      if !valueKnown {
        return false;
      }
      if cursor < |s| && s[cursor] == ',' {
        cursor := cursor + 1;
      }
    }
    DecidedAtEnd(s, cursor, whole);
    return true;
  }
}
