/** How the parts of a pattern are read that printing does not write, wherever they stand. */
module RegexReadings {
  import opened Wrappers
  import opened RegexMatch
  import opened RegexLeaves
  import opened Bytes
  import opened Slices
  import opened RegexText
  import opened RegexParse
  import opened RegexPrint

  // ----- escapes for one character -----

  /** A backslash and then `c` stand at `i`. */
  predicate Escaping(p: Text, i: nat, c: char)
    requires '\0' < c < 128 as char
  {
    i + 1 < |p| && p[i] == 92 && p[i + 1] == c as nat
  }

  /** The letters for control characters. */
  lemma {:induction false} ControlsRead(p: Text, i: nat, count: nat, k: Brackets)
    ensures Escaping(p, i, 't') ==> ParseAtom(p, i, count, k) == Parsed(Literal(9), i + 2, count)
    ensures Escaping(p, i, 'n') ==> ParseAtom(p, i, count, k) == Parsed(Literal(10), i + 2, count)
    ensures Escaping(p, i, 'v') ==> ParseAtom(p, i, count, k) == Parsed(Literal(11), i + 2, count)
    ensures Escaping(p, i, 'f') ==> ParseAtom(p, i, count, k) == Parsed(Literal(12), i + 2, count)
    ensures Escaping(p, i, 'r') ==> ParseAtom(p, i, count, k) == Parsed(Literal(13), i + 2, count)
    ensures Escaping(p, i, '0') ==> ParseAtom(p, i, count, k) == Parsed(Literal(0), i + 2, count)
  {
  }

  /** `b` is a digit of value `d`, in either case. */
  predicate DigitOf(b: Byte, d: nat) {
    d < 16 && (b == "0123456789abcdef"[d] as nat || b == "0123456789ABCDEF"[d] as nat)
  }

  /** The text writes `x` in hexadecimal. */
  predicate HexText(t: Text, x: nat) {
    if t == [] then x == 0 else DigitOf(t[|t| - 1], x % 16) && HexText(t[..|t| - 1], x / 16)
  }

  lemma {:induction false} DigitValue(b: Byte, d: nat)
    ensures HexValue(b) == Some(d) <==> DigitOf(b, d)
  {
    var lower, upper := "0123456789abcdef", "0123456789ABCDEF";
    if d < 10 {
      assert lower[d] as nat == 48 + d && upper[d] as nat == 48 + d;
    } else if d < 16 {
      assert lower[d] as nat == 87 + d && upper[d] as nat == 55 + d;
    }
  }

  /** Digits are read one after the other: first all but the last. */
  lemma {:induction false} HexLast(p: Text, i: nat, digits: nat, value: nat)
    requires digits > 0 && i + digits <= |p|
    ensures HexDigits(p, i, digits, value) ==
      match (HexDigits(p, i, digits - 1, value), HexValue(p[i + digits - 1]))
      case (Some(x), Some(d)) => Some(x * 16 + d)
      case _ => None
    decreases digits
  {
    if digits == 1 {
    } else if HexValue(p[i]).Some? {
      HexLast(p, i + 1, digits - 1, value * 16 + HexValue(p[i]).value);
    }
  }

  lemma {:induction false} HexExactly(p: Text, i: nat, digits: nat, x: nat)
    requires i + digits <= |p|
    ensures HexDigits(p, i, digits, 0) == Some(x) <==> HexText(p[i..i + digits], x)
    decreases digits
  {
    var t := p[i..i + digits];
    if digits == 0 {
    } else {
      HexLast(p, i, digits, 0);
      HexExactly(p, i, digits - 1, x / 16);
      DigitValue(t[digits - 1], x % 16);
      assert t[..digits - 1] == p[i..i + (digits - 1)];
      if HexDigits(p, i, digits, 0) == Some(x) {
        var y, d := HexDigits(p, i, digits - 1, 0).value, HexValue(p[i + digits - 1]).value;
        DigitValue(t[digits - 1], d);
        assert x / 16 == y && x % 16 == d;
      }
    }
  }

  /** `x`, `u` and `U` take 2, 4 and 8 hexadecimal digits in either case, and nothing else. */
  lemma {:induction false} HexEscapesRead(p: Text, i: nat, count: nat, k: Brackets, c: char, digits: nat, x: nat)
    requires (c, digits) in {('x', 2), ('u', 4), ('U', 8)} && Escaping(p, i, c)
    ensures ParseAtom(p, i, count, k) == Parsed(Literal(x), i + 2 + digits, count) <==>
      i + 2 + digits <= |p| && HexText(p[i + 2..i + 2 + digits], x)
    ensures ParseAtom(p, i, count, k).Parsed? ==>
      exists y :: ParseAtom(p, i, count, k) == Parsed(Literal(y), i + 2 + digits, count)
  {
    if i + 2 + digits <= |p| {
      HexExactly(p, i + 2, digits, x);
    }
  }

  /** In particular, the digits of a code point of that width give that code point. */
  lemma {:induction false} HexWritten(p: Text, i: nat, count: nat, k: Brackets, x: nat)
    ensures x < 0x100 && Escaping(p, i, 'x') && Stands(p, i + 2, Hex(x, 2)) ==>
      ParseAtom(p, i, count, k) == Parsed(Literal(x), i + 4, count)
    ensures x < 0x1_0000 && Escaping(p, i, 'u') && Stands(p, i + 2, Hex(x, 4)) ==>
      ParseAtom(p, i, count, k) == Parsed(Literal(x), i + 6, count)
    ensures x < 0x1_0000_0000 && Escaping(p, i, 'U') && Stands(p, i + 2, Hex(x, 8)) ==>
      ParseAtom(p, i, count, k) == Parsed(Literal(x), i + 10, count)
  {
    Widths();
    if x < 0x100 && Escaping(p, i, 'x') && Stands(p, i + 2, Hex(x, 2)) {
      HexReads(p, i + 2, x, 2, 0);
    }
    if x < 0x1_0000 && Escaping(p, i, 'u') && Stands(p, i + 2, Hex(x, 4)) {
      HexReads(p, i + 2, x, 4, 0);
    }
    if x < 0x1_0000_0000 && Escaping(p, i, 'U') && Stands(p, i + 2, Hex(x, 8)) {
      HexReads(p, i + 2, x, 8, 0);
    }
  }

  lemma {:induction false} Widths()
    ensures Power16(2) == 0x100 && Power16(4) == 0x1_0000 && Power16(8) == 0x1_0000_0000
  {
    assert Power16(2) == 0x100;
    assert Power16(4) == 0x1_0000;
    assert Power16(6) == 0x100_0000;
  }

  /** The characters that mean something else behind a backslash. */
  const ESCAPE_LETTERS := "nrtfvxuUdDsSwWbB"

  lemma {:induction false} LettersAre(b: Byte)
    ensures (exists j | 0 <= j < |ESCAPE_LETTERS| :: ESCAPE_LETTERS[j] as nat == b) <==>
      b in {110, 114, 116, 102, 118, 120, 117, 85, 100, 68, 115, 83, 119, 87, 98, 66}
  {
    var s := ESCAPE_LETTERS;
    assert s[0] == 'n' && s[1] == 'r' && s[2] == 't' && s[3] == 'f' && s[4] == 'v' && s[5] == 'x' && s[6] == 'u'
      && s[7] == 'U' && s[8] == 'd' && s[9] == 'D' && s[10] == 's' && s[11] == 'S' && s[12] == 'w' && s[13] == 'W'
      && s[14] == 'b' && s[15] == 'B';
  }

  /** Any character but these letters and digits stands for itself behind a backslash. */
  lemma {:induction false} OthersRead(p: Text, i: nat, count: nat, k: Brackets)
    requires i + 1 < |p| && p[i] == 92 && !(48 <= p[i + 1] <= 57)
    requires forall j | 0 <= j < |ESCAPE_LETTERS| :: p[i + 1] != ESCAPE_LETTERS[j] as nat
    ensures ParseAtom(p, i, count, k) == Parsed(Literal(p[i + 1]), i + 2, count)
  {
    LettersAre(p[i + 1]);
  }

  // ----- escapes for classes -----

  /** What the locale says of a character, for the lower-case letter of a class. */
  predicate LetterHolds(s: Subject, c: char, x: nat)
    requires c in {'d', 's', 'w'}
  {
    match c
    case 'd' => s.locale(Digit, x)
    case 's' => s.locale(Space, x)
    case _ => x == 95 || s.locale(Alnum, x)
  }

  /** `d`, `s` and `w` are read as what takes a digit, a space, and a character of a word. */
  lemma {:induction false} ClassLettersRead(
      p: Text, i: nat, count: nat, k: Brackets, c: char, s: Subject, q: nat, caps: Captures)
    requires c in {'d', 's', 'w'} && Escaping(p, i, c) && q < |s.text| && CapturesOk(caps, |s.text|)
    ensures var r := ParseAtom(p, i, count, k); r.Parsed? && r.index == i + 2 && r.count == count
    ensures MatchNode(s, ParseAtom(p, i, count, k).node, q, caps)
         == if LetterHolds(s, c, s.text[q]) then Match(q + 1, caps) else Fail
  {
    var n := ParseAtom(p, i, count, k).node;
    ClassTakes(s, n.class_, q, caps);
    assert n.class_ == CharClass(false, {if c == 'd' then Digit else if c == 's' then Space else Word}, []);
  }

  /** And `D`, `S` and `W` as what takes any other character. */
  lemma {:induction false} UpperLettersRead(
      p: Text, i: nat, count: nat, k: Brackets, c: char, upper: char, s: Subject, q: nat, caps: Captures)
    requires (c, upper) in {('d', 'D'), ('s', 'S'), ('w', 'W')} && Escaping(p, i, upper)
    requires q < |s.text| && CapturesOk(caps, |s.text|)
    ensures var r := ParseAtom(p, i, count, k); r.Parsed? && r.index == i + 2 && r.count == count
    ensures MatchNode(s, ParseAtom(p, i, count, k).node, q, caps)
         == if LetterHolds(s, c, s.text[q]) then Fail else Match(q + 1, caps)
  {
    var n := ParseAtom(p, i, count, k).node;
    var plain := n.class_.(negated := false);
    assert n.class_ == CharClass(true, {if c == 'd' then Digit else if c == 's' then Space else Word}, []);
    ClassTakes(s, plain, q, caps);
    NegatedTakesRest(s, plain, q, caps);
    assert plain.(negated := true) == n.class_;
  }

  /** The other letters. */
  lemma {:induction false} BoundaryLettersRead(p: Text, i: nat, count: nat, k: Brackets)
    ensures Escaping(p, i, 'b') ==> ParseAtom(p, i, count, k) == Parsed(WordBoundary, i + 2, count)
    ensures Escaping(p, i, 'B') ==> ParseAtom(p, i, count, k) == Parsed(NotWordBoundary, i + 2, count)
  {
  }

  // ----- counts -----

  /** `{n}` after an atom asks for exactly `n` rounds, lazily or not. */
  lemma {:induction false} ExactCountReads(p: Text, i: nat, count: nat, k: Brackets, n: nat)
    requires i < |p| && ParseAtom(p, i, count, k).Parsed?
    requires Stands(p, ParseAtom(p, i, count, k).index, [123] + Decimal(n) + [125])
    ensures var a := ParseAtom(p, i, count, k);
      var end := a.index + |Decimal(n)| + 2;
      var lazy := end < |p| && p[end] == 63;
      ParseTerm(p, i, count, k) == Parsed(Repeat(a.node, n, Some(n), !lazy), if lazy then end + 1 else end, a.count)
  {
    var j := ParseAtom(p, i, count, k).index;
    var d := Decimal(n);
    StandsSplit(p, j, [123] + d, [125]);
    StandsSplit(p, j, [123], d);
    StandsAt(p, j, [123], 0);
    StandsAt(p, j + 1 + |d|, [125], 0);
    DecimalDigits(n);
    NumberReadsBack(p, j + 1, n);
    assert ParseQuantifier(p, j) == Times(n, Some(n), j + |d| + 2);
  }

  /** A brace with a number that is not closed behind it is no count, and stands for itself. */
  lemma {:induction false} OpenBraceReads(p: Text, i: nat, count: nat, k: Brackets, n: nat)
    requires i < |p| && ParseAtom(p, i, count, k).Parsed?
    requires Stands(p, ParseAtom(p, i, count, k).index, [123] + Decimal(n))
    requires var end := ParseAtom(p, i, count, k).index + 1 + |Decimal(n)|;
      end < |p| ==> !IsDigit(p[end]) && p[end] != 44 && p[end] != 125
    ensures var a := ParseAtom(p, i, count, k);
      && ParseTerm(p, i, count, k) == a
      && ParseAtom(p, a.index, a.count, k) == Parsed(Literal(123), a.index + 1, a.count)
  {
    var j := ParseAtom(p, i, count, k).index;
    StandsSplit(p, j, [123], Decimal(n));
    StandsAt(p, j, [123], 0);
    DecimalDigits(n);
    NumberReadsBack(p, j + 1, n);
    assert ParseQuantifier(p, j) == Absent;
  }

  /** A brace without a number behind an atom is an error. */
  lemma {:induction false} BareBraceFails(p: Text, i: nat, count: nat, k: Brackets)
    requires i < |p| && ParseAtom(p, i, count, k).Parsed?
    requires var j := ParseAtom(p, i, count, k).index;
      j < |p| && p[j] == 123 && (j + 1 < |p| ==> !IsDigit(p[j + 1]))
    ensures ParseTerm(p, i, count, k) == Bad
  {
  }

  // ----- what is an atom of its own, and what is none -----

  /** A character with no meaning of its own is read as it is decoded; `]`, `{` and `}` have none here. */
  lemma {:induction false} CharacterReads(p: Text, i: nat, count: nat, k: Brackets)
    requires i < |p| && p[i] !in {36, 40, 41, 42, 43, 46, 63, 91, 92, 94, 124}
    ensures ParseAtom(p, i, count, k) == Parsed(Literal(Decode(p, i).0), Decode(p, i).1, count)
  {
  }

  /** Nothing to repeat, an opening that does not exist, and a backslash with nothing behind it. */
  lemma {:induction false} NoAtom(p: Text, i: nat, count: nat, k: Brackets)
    requires i < |p|
    ensures p[i] in {42, 43, 63} ==> ParseAtom(p, i, count, k) == Bad
    ensures p[i] == 40 && i + 1 < |p| && p[i + 1] == 63 && (i + 2 < |p| ==> p[i + 2] !in {33, 58, 60, 61}) ==>
      ParseAtom(p, i, count, k) == Bad
    ensures p[i] == 40 && i + 2 < |p| && p[i + 1] == 63 && p[i + 2] == 60 && (i + 3 < |p| ==> p[i + 3] !in {33, 61}) ==>
      ParseAtom(p, i, count, k) == Bad
    ensures p[i] == 92 && i + 1 == |p| ==> ParseAtom(p, i, count, k) == Bad
  {
  }

  /** A pattern that begins with a closing parenthesis does not compile, and one that begins with an opening one and
      has no closing one does not either. */
  lemma {:induction false} UnbalancedFails(p: Text, k: Brackets)
    requires p != []
    ensures p[0] == 41 ==> Compile(p, k) == None
    ensures p[0] == 40 && 41 !in p ==> Compile(p, k) == None
  {
    if p[0] == 41 {
      assert ParseSequence(p, 0, 0, k, []) == Parsed(Empty, 0, 0);
      assert ParseBranches(p, 0, 0, k, [Empty]) == Parsed(Empty, 0, 0);
    } else if p[0] == 40 && 41 !in p {
      assert ParseAtom(p, 0, 0, k) == Bad;
      assert ParseSequence(p, 0, 0, k, []) == Bad;
    }
  }
}
