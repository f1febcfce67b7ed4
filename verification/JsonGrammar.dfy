/** Exactly which texts the JSON parser takes for strings, numbers and whitespace. */
module JsonGrammar {
  import opened Wrappers
  import opened Bytes
  import opened Slices
  import opened Json
  import opened JsonNormal

  // ----- strings -----

  /** A byte that stands for itself, or a backslash with the letter in place `j` of the list of letters. */
  datatype Unit = Raw(b: Byte) | Mark(j: nat)

  /** The letters `"`, `\`, `/`, `b`, `f`, `n`, `r`, `t` behind a backslash, and the bytes that they stand for. */
  const LETTERS: Text := [34, 92, 47, 98, 102, 110, 114, 116]
  const CODES: Text := [34, 92, 47, 8, 12, 10, 13, 9]

  predicate UnitOk(u: Unit) {
    match u
    case Raw(b) => b != 34 && b != 92
    case Mark(j) => j < 8
  }

  predicate UnitsOk(us: seq<Unit>) {
    forall i | 0 <= i < |us| :: UnitOk(us[i])
  }

  function Code(u: Unit): Byte
    requires UnitOk(u)
  {
    match u
    case Raw(b) => b
    case Mark(j) => CODES[j]
  }

  function WriteUnit(u: Unit): Text
    requires UnitOk(u)
  {
    match u
    case Raw(b) => [b]
    case Mark(j) => [92, LETTERS[j]]
  }

  function WriteUnits(us: seq<Unit>): Text
    requires UnitsOk(us)
  {
    if us == [] then [] else WriteUnit(us[0]) + WriteUnits(us[1..])
  }

  function Codes(us: seq<Unit>): Text
    requires UnitsOk(us)
  {
    if us == [] then [] else [Code(us[0])] + Codes(us[1..])
  }

  lemma {:induction false} UnitsCons(u: Unit, rest: seq<Unit>)
    requires UnitOk(u) && UnitsOk(rest)
    ensures UnitsOk([u] + rest)
    ensures WriteUnits([u] + rest) == WriteUnit(u) + WriteUnits(rest) && Codes([u] + rest) == [Code(u)] + Codes(rest)
  {
    assert ([u] + rest)[1..] == rest;
  }

  lemma {:induction false} LetterMeans(c: Byte, j: nat)
    requires j < 8
    ensures Unescape(LETTERS[j]) == Some(CODES[j])
    ensures Unescape(c).Some? <==> c in LETTERS
  {
    assert LETTERS[0] == 34 && LETTERS[1] == 92 && LETTERS[2] == 47 && LETTERS[3] == 98 && LETTERS[4] == 102
      && LETTERS[5] == 110 && LETTERS[6] == 114 && LETTERS[7] == 116;
  }

  /** The place of an escape letter. */
  lemma {:induction false} LetterOf(c: Byte) returns (j: nat)
    requires Unescape(c).Some?
    ensures j < 8 && LETTERS[j] == c && CODES[j] == Unescape(c).value
  {
    LetterMeans(c, 0);
    j :| 0 <= j < |LETTERS| && LETTERS[j] == c;
    LetterMeans(c, j);
  }

  lemma {:induction false} UnitReads(t: Text, i: nat, u: Unit, before: Text)
    requires UnitOk(u) && Stands(t, i, WriteUnit(u))
    ensures ParseStringRest(t, i, before) == ParseStringRest(t, i + |WriteUnit(u)|, before + [Code(u)])
  {
    StandsAt(t, i, WriteUnit(u), 0);
    if u.Mark? {
      LetterMeans(34, u.j);
      StandsAt(t, i, WriteUnit(u), 1);
    }
  }

  lemma {:induction false} UnitsRead(t: Text, i: nat, us: seq<Unit>, before: Text)
    requires UnitsOk(us) && Stands(t, i, WriteUnits(us) + [34])
    ensures ParseStringRest(t, i, before) == Ok(before + Codes(us), i + |WriteUnits(us)| + 1)
    decreases |us|
  {
    if us == [] {
      assert WriteUnits(us) + [34] == [34];
      StandsAt(t, i, [34], 0);
      assert before + Codes(us) == before;
    } else {
      UnitsStand(t, i, us);
      UnitReads(t, i, us[0], before);
      UnitsRead(t, i + |WriteUnit(us[0])|, us[1..], before + [Code(us[0])]);
      CodesMove(before, us);
    }
  }

  lemma {:induction false} CodesMove(before: Text, us: seq<Unit>)
    requires UnitsOk(us) && us != []
    ensures before + [Code(us[0])] + Codes(us[1..]) == before + Codes(us)
  {
  }

  lemma {:induction false} UnitsStand(t: Text, i: nat, us: seq<Unit>)
    requires UnitsOk(us) && us != [] && Stands(t, i, WriteUnits(us) + [34])
    ensures var w := WriteUnit(us[0]); Stands(t, i, w) && Stands(t, i + |w|, WriteUnits(us[1..]) + [34])
    ensures |WriteUnits(us)| == |WriteUnit(us[0])| + |WriteUnits(us[1..])|
  {
    var w := WriteUnit(us[0]);
    assert WriteUnits(us) + [34] == w + (WriteUnits(us[1..]) + [34]);
    StandsSplit(t, i, w, WriteUnits(us[1..]) + [34]);
  }

  lemma {:induction false} ReadUnits(t: Text, i: nat, before: Text) returns (us: seq<Unit>)
    requires i <= |t| && ParseStringRest(t, i, before).Ok?
    ensures UnitsOk(us)
    ensures var r := ParseStringRest(t, i, before);
      t[i..r.next] == WriteUnits(us) + [34] && r.value == before + Codes(us)
    decreases |t| - i
  {
    var r := ParseStringRest(t, i, before);
    if t[i] == 34 {
      us := [];
      assert t[i..i + 1] == [34] && before + Codes(us) == before;
    } else {
      var u := Raw(t[i]);
      if t[i] == 92 {
        var j := LetterOf(t[i + 1]);
        u := Mark(j);
      }
      var w := WriteUnit(u);
      var next := i + |w|;
      assert t[i..next] == w;
      var rest := ReadUnits(t, next, before + [Code(u)]);
      us := [u] + rest;
      UnitsCons(u, rest);
      assert t[i..r.next] == w + t[next..r.next];
      assert before + [Code(u)] + Codes(rest) == before + Codes(us);
    }
  }

  lemma {:induction false} WrittenRead(t: Text, i: nat, us: seq<Unit>, q: nat)
    requires i <= q <= |t| && UnitsOk(us) && t[i..q] == [34] + (WriteUnits(us) + [34])
    ensures ParseString(t, i) == Ok(Codes(us), q)
  {
    var w := [34] + (WriteUnits(us) + [34]);
    assert |t[i..q]| == |w|;
    forall j | 0 <= j < |w|
      ensures t[i + j] == w[j]
    {
      assert t[i..q][j] == w[j];
    }
    StandsSplit(t, i, [34], WriteUnits(us) + [34]);
    StandsAt(t, i, [34], 0);
    UnitsRead(t, i + 1, us, []);
    assert [] + Codes(us) == Codes(us);
  }

  /** A string is taken exactly where it is written in units between quotes, and is the bytes of its units. */
  lemma {:induction false} StringsAre(t: Text, i: nat, s: Text, q: nat)
    requires i <= q <= |t|
    ensures ParseString(t, i) == Ok(s, q) <==>
      exists us :: UnitsOk(us) && t[i..q] == [34] + (WriteUnits(us) + [34]) && s == Codes(us)
  {
    if ParseString(t, i) == Ok(s, q) {
      var us := ReadUnits(t, i + 1, []);
      assert t[i..q] == [34] + t[i + 1..q];
      assert [] + Codes(us) == Codes(us);
    }
    if us :| UnitsOk(us) && t[i..q] == [34] + (WriteUnits(us) + [34]) && s == Codes(us) {
      WrittenRead(t, i, us, q);
    }
  }

  /** A printed string has a unit for each byte, with a backslash exactly for quotes, backslashes and the five control
      characters that have a letter. */
  lemma {:induction false} QuotedAs(s: Text) returns (us: seq<Unit>)
    ensures UnitsOk(us) && Codes(us) == s && Quote(s) == [34] + (WriteUnits(us) + [34]) && |us| == |s|
    ensures forall i | 0 <= i < |s| :: us[i] != Mark(2) && (us[i].Mark? <==> s[i] in {34, 92, 8, 12, 10, 13, 9})
  {
    us := EscapedAs(s);
  }

  lemma {:induction false} EscapedAs(s: Text) returns (us: seq<Unit>)
    ensures UnitsOk(us) && Codes(us) == s && EscapeAll(s) == WriteUnits(us) && |us| == |s|
    ensures forall i | 0 <= i < |s| :: us[i] != Mark(2) && (us[i].Mark? <==> s[i] in {34, 92, 8, 12, 10, 13, 9})
    decreases s
  {
    if s == [] {
      us := [];
    } else {
      var rest := EscapedAs(s[1..]);
      var u := UnitFor(s[0]);
      us := [u] + rest;
      UnitsCons(u, rest);
      forall i | 0 <= i < |s|
        ensures us[i] != Mark(2) && (us[i].Mark? <==> s[i] in {34, 92, 8, 12, 10, 13, 9})
      {
        assert i > 0 ==> us[i] == rest[i - 1] && s[i] == s[1..][i - 1];
      }
    }
  }

  lemma {:induction false} UnitFor(c: Byte) returns (u: Unit)
    ensures UnitOk(u) && Code(u) == c && EscapeByte(c) == WriteUnit(u)
    ensures u != Mark(2) && (u.Mark? <==> c in {34, 92, 8, 12, 10, 13, 9})
  {
    u := if c == 34 then Mark(0) else if c == 92 then Mark(1) else if c == 8 then Mark(3) else if c == 12 then Mark(4)
    else if c == 10 then Mark(5) else if c == 13 then Mark(6) else if c == 9 then Mark(7) else Raw(c);
  }

  // ----- numbers -----

  datatype Numeral = Numeral(minus: bool, whole: Text, fraction: Option<Text>, exponent: Option<Exponent>)

  datatype Exponent = Exponent(letter: Byte, sign: Option<Byte>, digits: Text)

  predicate AllDigits(t: Text) {
    forall k | 0 <= k < |t| :: 48 <= t[k] <= 57
  }

  predicate ExponentOk(e: Option<Exponent>) {
    match e
    case None => true
    case Some(Exponent(letter, sign, digits)) =>
      && (letter == 69 || letter == 101) && (sign.Some? ==> sign.value == 43 || sign.value == 45)
      && AllDigits(digits) && digits != []
  }

  /** There is a digit before the point or behind it, and one in the exponent. */
  predicate NumeralOk(n: Numeral) {
    && AllDigits(n.whole) && (n.fraction.Some? ==> AllDigits(n.fraction.value))
    && (n.whole != [] || (n.fraction.Some? && n.fraction.value != []))
    && ExponentOk(n.exponent)
  }

  function WriteExponent(e: Option<Exponent>): Text {
    match e
    case None => []
    case Some(Exponent(letter, None, digits)) => [letter] + digits
    case Some(Exponent(letter, Some(sign), digits)) => [letter, sign] + digits
  }

  function WriteFraction(f: Option<Text>): Text {
    match f
    case None => []
    case Some(digits) => [46] + digits
  }

  function WriteNumeral(n: Numeral): Text {
    (if n.minus then [45] else []) + (n.whole + (WriteFraction(n.fraction) + WriteExponent(n.exponent)))
  }

  lemma {:induction false} DigitsRun(t: Text, i: nat, d: Text)
    requires Stands(t, i, d) && AllDigits(d) && (i + |d| < |t| ==> !(48 <= t[i + |d|] <= 57))
    ensures DigitsEnd(t, i) == i + |d|
    decreases |d|
  {
    if d == [] {
    } else {
      StandsAt(t, i, d, 0);
      assert d == [d[0]] + d[1..];
      StandsSplit(t, i, [d[0]], d[1..]);
      DigitsRun(t, i + 1, d[1..]);
    }
  }

  lemma {:induction false} ExponentEnds(t: Text, i: nat, e: Option<Exponent>)
    requires Stands(t, i, WriteExponent(e)) && i + |WriteExponent(e)| == |t|
    requires ExponentOk(e)
    ensures ExponentEnd(t, i) == Some(|t|)
  {
    var w := WriteExponent(e);
    if e.Some? {
      StandsAt(t, i, w, 0);
      var head: Text := if e.value.sign.Some? then [e.value.letter, e.value.sign.value] else [e.value.letter];
      assert w == head + e.value.digits;
      StandsSplit(t, i, head, e.value.digits);
      StandsAt(t, i, w, 1);
      DigitsRun(t, i + |head|, e.value.digits);
    }
  }

  lemma {:induction false} ExponentFirst(e: Option<Exponent>)
    requires ExponentOk(e)
    ensures var w := WriteExponent(e); w != [] ==> w[0] == 69 || w[0] == 101
  {
  }

  /** Digits are followed by a point, an exponent or nothing. */
  lemma {:induction false} AfterDigits(t: Text, i: nat, f: Option<Text>, e: Text)
    requires Stands(t, i, WriteFraction(f) + e) && i + |WriteFraction(f) + e| == |t|
    requires e != [] ==> e[0] == 69 || e[0] == 101
    ensures i < |t| ==> t[i] == 46 || t[i] == 69 || t[i] == 101
    ensures At(t, i, 46) <==> f.Some?
  {
    var rest := WriteFraction(f) + e;
    if rest != [] {
      StandsAt(t, i, rest, 0);
      assert rest[0] == if f.Some? then 46 else e[0];
    }
  }

  lemma {:induction false} FractionEnds(t: Text, start: nat, i: nat, f: Option<Text>, e: Text)
    requires start <= i && Stands(t, i, WriteFraction(f) + e) && i + |WriteFraction(f) + e| == |t|
    requires (f.Some? ==> AllDigits(f.value)) && (start < i || (f.Some? && f.value != []))
    requires e != [] ==> e[0] == 69 || e[0] == 101
    ensures FractionEnd(t, start, i) == (i + |WriteFraction(f)|, true) && Stands(t, i + |WriteFraction(f)|, e)
  {
    AfterDigits(t, i, f, e);
    StandsSplit(t, i, WriteFraction(f), e);
    if f.Some? {
      StandsSplit(t, i, [46], f.value);
      if e != [] {
        StandsAt(t, i + |WriteFraction(f)|, e, 0);
      }
      DigitsRun(t, i + 1, f.value);
    }
  }

  lemma {:induction false} MantissaEnds(t: Text, sign: Text, whole: Text, f: Option<Text>, e: Text, rest: Text)
      returns (m: nat)
    requires Stands(t, 0, sign) && (sign == [] || sign == [45])
    requires Stands(t, |sign|, whole) && AllDigits(whole) && Stands(t, |sign| + |whole|, rest)
    requires |sign| + |whole| + |rest| == |t| && rest == WriteFraction(f) + e
    requires (f.Some? ==> AllDigits(f.value)) && (whole != [] || (f.Some? && f.value != []))
    requires e != [] ==> e[0] == 69 || e[0] == 101
    ensures m + |e| == |t| && MantissaEnd(t, 0) == (m, true) && Stands(t, m, e)
  {
    var w := |sign| + |whole|;
    AfterDigits(t, w, f, e);
    FirstByte(t, sign, whole);
    DigitsRun(t, |sign|, whole);
    FractionEnds(t, |sign|, w, f, e);
    m := w + |WriteFraction(f)|;
  }

  lemma {:induction false} NumeralStands(t: Text, sign: Text, whole: Text, rest: Text)
    requires t == sign + (whole + rest)
    ensures Stands(t, 0, sign) && Stands(t, |sign|, whole) && Stands(t, |sign| + |whole|, rest)
    ensures |t| == |sign| + |whole| + |rest|
  {
    StandsWhole(t);
    StandsSplit(t, 0, sign, whole + rest);
    StandsSplit(t, |sign|, whole, rest);
  }

  lemma {:induction false} PartsEnd(t: Text, m: nat)
    requires m <= |t| && MantissaEnd(t, 0) == (m, true) && ExponentEnd(t, m) == Some(|t|)
    ensures IsNumber(t)
  {
  }

  lemma {:induction false} MantissaOf(
      t: Text, sign: Text, whole: Text, f: Option<Text>, e: Text, rest: Text)
      returns (m: nat)
    requires t == sign + (whole + rest) && rest == WriteFraction(f) + e
    requires (sign == [] || sign == [45]) && AllDigits(whole)
    requires (f.Some? ==> AllDigits(f.value)) && (whole != [] || (f.Some? && f.value != []))
    requires e != [] ==> e[0] == 69 || e[0] == 101
    ensures m + |e| == |t| && MantissaEnd(t, 0) == (m, true) && Stands(t, m, e)
  {
    NumeralStands(t, sign, whole, rest);
    m := MantissaEnds(t, sign, whole, f, e, rest);
  }

  /** What is written is read to its end. */
  lemma {:induction false} NumeralEnds(n: Numeral)
    requires NumeralOk(n)
    ensures IsNumber(WriteNumeral(n))
  {
    var t, e := WriteNumeral(n), WriteExponent(n.exponent);
    ExponentFirst(n.exponent);
    var m := MantissaOf(t, if n.minus then [45] else [], n.whole, n.fraction, e, WriteFraction(n.fraction) + e);
    ExponentEnds(t, m, n.exponent);
    PartsEnd(t, m);
  }

  lemma {:induction false} FirstByte(t: Text, sign: Text, whole: Text)
    requires Stands(t, 0, sign) && Stands(t, |sign|, whole) && AllDigits(whole) && (sign == [] || sign == [45])
    requires |sign| + |whole| < |t| ==> t[|sign| + |whole|] != 45
    ensures At(t, 0, 45) <==> sign == [45]
  {
    if sign != [] {
      StandsAt(t, 0, sign, 0);
    } else if whole != [] {
      StandsAt(t, 0, whole, 0);
    }
  }

  lemma {:induction false} ReadExponent(t: Text, i: nat) returns (e: Option<Exponent>)
    requires i <= |t| && ExponentEnd(t, i) == Some(|t|)
    ensures ExponentOk(e) && t[i..] == WriteExponent(e)
  {
    if i < |t| {
      var start := if At(t, i + 1, PLUS) || At(t, i + 1, MINUS) then i + 2 else i + 1;
      var digits := t[start..];
      e := Some(Exponent(t[i], if start == i + 2 then Some(t[i + 1]) else None, digits));
      assert DigitsEnd(t, start) == |t|;
      assert t[i..] == t[i..start] + digits;
      assert t[i..start] == if start == i + 2 then [t[i], t[i + 1]] else [t[i]];
    } else {
      e := None;
    }
  }

  lemma {:induction false} ReadFraction(t: Text, start: nat, w: nat) returns (f: Option<Text>)
    requires start <= w <= |t| && FractionEnd(t, start, w).1
    ensures t[w..FractionEnd(t, start, w).0] == WriteFraction(f) && (f.Some? ==> AllDigits(f.value))
    ensures start < w || (f.Some? && f.value != [])
  {
    var m := FractionEnd(t, start, w).0;
    if At(t, w, DOT) {
      f := Some(t[w + 1..m]);
      assert t[w..m] == [46] + t[w + 1..m];
    } else {
      f := None;
    }
  }

  /** What is read to its end has been written so. */
  lemma {:induction false} ReadNumeral(t: Text) returns (n: Numeral)
    requires IsNumber(t)
    ensures NumeralOk(n) && WriteNumeral(n) == t
  {
    var start := if At(t, 0, MINUS) then 1 else 0;
    var w := DigitsEnd(t, start);
    var m := FractionEnd(t, start, w).0;
    var f := ReadFraction(t, start, w);
    var e := ReadExponent(t, m);
    n := Numeral(At(t, 0, MINUS), t[start..w], f, e);
    Assembled(t, start, w, m, n);
  }

  lemma {:induction false} Assembled(t: Text, start: nat, w: nat, m: nat, n: Numeral)
    requires start <= w <= m <= |t| && n.whole == t[start..w]
    requires if n.minus then start == 1 && t[0] == 45 else start == 0
    requires t[w..m] == WriteFraction(n.fraction) && t[m..] == WriteExponent(n.exponent)
    ensures WriteNumeral(n) == t
  {
    ThreeParts(t, start, w, m);
    assert t[..start] == if n.minus then [45] else [];
  }

  lemma {:induction false} ThreeParts(t: Text, a: nat, b: nat, c: nat)
    requires a <= b <= c <= |t|
    ensures t == t[..a] + (t[a..b] + (t[b..c] + t[c..]))
  {
  }

  /** The grammar of numbers: an optional minus, digits with at most one point, and an optional exponent. Zeros may come
      first, and a point may come first or last. */
  lemma {:induction false} NumbersAre(t: Text)
    ensures NumberEnd(t, 0) == Some(|t|) <==> exists n :: NumeralOk(n) && WriteNumeral(n) == t
  {
    if IsNumber(t) {
      var n := ReadNumeral(t);
    }
    if n :| NumeralOk(n) && WriteNumeral(n) == t {
      NumeralEnds(n);
    }
  }
}
