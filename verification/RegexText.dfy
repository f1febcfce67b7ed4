/** The UTF-8 view that libs/regex/regex.c searches: code points with the byte offset of each. */
module RegexText {
  import opened Bytes

  predicate Trail(text: Text, i: nat) {
    i < |text| && 0x80 <= text[i] < 0xC0
  }

  function Low(text: Text, i: nat): nat
    requires Trail(text, i)
  {
    var b: int := text[i];
    b - 0x80
  }

  /** One step of the decoder: the code point at `i` and the index after it. A byte that starts no
      well-formed sequence of 2 to 4 bytes stands for itself. */
  function Decode(text: Text, i: nat): (r: (nat, nat))
    requires i < |text|
    ensures i + 1 <= r.1 <= i + 4 && r.1 <= |text|
  {
    var c := text[i];
    if c < 0x80 then (c, i + 1)
    else if 0xC0 <= c < 0xE0 && Trail(text, i + 1) && Two(text, i) >= 0x80 then (Two(text, i), i + 2)
    else if 0xE0 <= c < 0xF0 && Trail(text, i + 1) && Trail(text, i + 2) && Three(text, i) >= 0x800 then
      (Three(text, i), i + 3)
    else if 0xF0 <= c < 0xF8 && Trail(text, i + 1) && Trail(text, i + 2) && Trail(text, i + 3)
      && 0x10000 <= Four(text, i) <= 0x10FFFF then (Four(text, i), i + 4)
    else (c, i + 1)
  }

  function Two(text: Text, i: nat): nat
    requires i < |text| && text[i] >= 0xC0 && Trail(text, i + 1)
  {
    (text[i] - 0xC0) * 64 + Low(text, i + 1)
  }

  function Three(text: Text, i: nat): nat
    requires i < |text| && text[i] >= 0xE0 && Trail(text, i + 1) && Trail(text, i + 2)
  {
    (text[i] - 0xE0) * 4096 + Low(text, i + 1) * 64 + Low(text, i + 2)
  }

  function Four(text: Text, i: nat): nat
    requires i < |text| && text[i] >= 0xF0 && Trail(text, i + 1) && Trail(text, i + 2) && Trail(text, i + 3)
  {
    (text[i] - 0xF0) * 0x40000 + Low(text, i + 1) * 4096 + Low(text, i + 2) * 64 + Low(text, i + 3)
  }

  /** The code points from byte `i` on. */
  function CodePoints(text: Text, i: nat): seq<nat>
    requires i <= |text|
    decreases |text| - i
  {
    if i == |text| then [] else [Decode(text, i).0] + CodePoints(text, Decode(text, i).1)
  }

  /** The byte offset of each of them, and at last the length. */
  function Offsets(text: Text, i: nat): (r: seq<nat>)
    requires i <= |text|
    ensures |r| == |CodePoints(text, i)| + 1 && r[0] == i && r[|r| - 1] == |text|
    decreases |text| - i
  {
    if i == |text| then [i] else [i] + Offsets(text, Decode(text, i).1)
  }

  datatype View = View(codepoints: seq<nat>, offsets: seq<nat>)

  function ViewOf(text: Text): View {
    View(CodePoints(text, 0), Offsets(text, 0))
  }

  ghost predicate StepAt(offsets: seq<nat>, k: nat)
    requires k + 1 < |offsets|
  {
    offsets[k] + 1 <= offsets[k + 1] <= offsets[k] + 4
  }

  ghost predicate Stepping(offsets: seq<nat>) {
    forall k | 0 <= k < |offsets| - 1 :: StepAt(offsets, k)
  }

  /** The offsets run from 0 to the length of the text in steps of 1 to 4 bytes. */
  ghost predicate ViewOk(v: View, text: Text) {
    && |v.offsets| == |v.codepoints| + 1
    && v.offsets[0] == 0 && v.offsets[|v.codepoints|] == |text|
    && Stepping(v.offsets)
  }

  lemma {:induction false} OffsetsStep(text: Text, i: nat)
    requires i <= |text|
    ensures Stepping(Offsets(text, i))
    decreases |text| - i
  {
    if i >= |text| {
    } else {
      var rest := Offsets(text, Decode(text, i).1);
      OffsetsStep(text, Decode(text, i).1);
      var r := Offsets(text, i);
      assert r == [i] + rest;
      forall k | 0 <= k < |r| - 1 ensures StepAt(r, k) {
        assert r[k + 1] == rest[k];
        if k > 0 {
          assert r[k] == rest[k - 1] && StepAt(rest, k - 1);
        }
      }
    }
  }

  lemma {:induction false} ViewOfOk(text: Text)
    ensures ViewOk(ViewOf(text), text)
  {
    OffsetsStep(text, 0);
  }

  /** Decoding into arrays of one entry more than the text has bytes. */
  method TextInit(text: Text) returns (view: View)
    ensures view == ViewOf(text)
    ensures ViewOk(view, text)
  {
    var codepoints := new nat[|text| + 1];
    var offsets := new nat[|text| + 1];
    var index, count := 0, 0;
    while index < |text|
      invariant count <= index <= |text|
      invariant codepoints[..count] + CodePoints(text, index) == CodePoints(text, 0)
      invariant offsets[..count] + Offsets(text, index) == Offsets(text, 0)
    {
      ghost var was, at := codepoints[..count], offsets[..count];
      offsets[count] := index;
      var (codepoint, next) := Decode(text, index);
      codepoints[count] := codepoint;
      index := next;
      count := count + 1;
      assert codepoints[..count] == was + [codepoint];
      assert offsets[..count] == at + [offsets[count - 1]];
      MoveOver(was, codepoint, CodePoints(text, index));
      MoveOver(at, offsets[count - 1], Offsets(text, index));
    }
    offsets[count] := |text|;
    view := View(codepoints[..count], offsets[..count + 1]);
    assert offsets[..count + 1] == offsets[..count] + [|text|];
    ViewOfOk(text);
  }

  lemma {:induction false} MoveOver<T>(a: seq<T>, x: T, b: seq<T>)
    ensures (a + [x]) + b == a + ([x] + b)
  {
  }

  // ----- the encoding of section 3 of RFC 3629 -----

  predicate Scalar(x: nat) {
    0 < x <= 0x10FFFF && !(0xD800 <= x < 0xE000)
  }

  /** The bytes of a code point; surrogates are no scalar values, but would have these bytes. */
  function Encode(x: nat): Text
    requires 0 < x <= 0x10FFFF
  {
    if x < 0x80 then [x]
    else if x < 0x800 then [0xC0 + x / 64, 0x80 + x % 64]
    else if x < 0x10000 then [0xE0 + x / 4096, 0x80 + x / 64 % 64, 0x80 + x % 64]
    else [0xF0 + x / 0x40000, 0x80 + x / 4096 % 64, 0x80 + x / 64 % 64, 0x80 + x % 64]
  }

  function EncodeAll(xs: seq<nat>): Text
    requires forall k | 0 <= k < |xs| :: Scalar(xs[k])
  {
    if xs == [] then []
    else
      assert Scalar(xs[0]);
      Encode(xs[0]) + EncodeAll(xs[1..])
  }

  lemma {:induction false} Digits(x: nat)
    ensures x == x / 64 * 64 + x % 64
    ensures x == x / 4096 * 4096 + x / 64 % 64 * 64 + x % 64
    ensures x == x / 0x40000 * 0x40000 + x / 4096 % 64 * 4096 + x / 64 % 64 * 64 + x % 64
  {
    var a := x / 64;
    var b := a / 64;
    var c := b / 64;
    assert x == b * 4096 + (a % 64 * 64 + x % 64);
    assert x / 4096 == b;
    assert x == c * 0x40000 + (b % 64 * 4096 + a % 64 * 64 + x % 64);
    assert x / 0x40000 == c;
  }

  /** Wherever an encoded code point stands, the decoder reads it back. */
  lemma {:induction false} DecodeEncode(text: Text, i: nat, x: nat)
    requires 0 < x <= 0x10FFFF && i <= |text| && Encode(x) <= text[i..]
    ensures i < |text| && Decode(text, i) == (x, i + |Encode(x)|)
  {
    Digits(x);
    var e := Encode(x);
    assert forall k | 0 <= k < |e| :: text[i + k] == text[i..][k] == e[k];
    if x < 0x80 {
    } else if x < 0x800 {
      assert text[i] == e[0] && text[i + 1] == e[1];
      assert Two(text, i) == x;
    } else if x < 0x10000 {
      assert text[i] == e[0] && text[i + 1] == e[1] && text[i + 2] == e[2];
      assert Three(text, i) == x;
    } else {
      assert text[i] == e[0] && text[i + 1] == e[1] && text[i + 2] == e[2] && text[i + 3] == e[3];
      assert Four(text, i) == x;
    }
  }

  /** One step of the decoder, for any bytes: it reads the code point whose bytes stand there, surrogates included, and
      where none has its bytes there, the one byte. */
  lemma {:induction false} DecodeExactly(text: Text, i: nat)
    requires i < |text|
    ensures var (x, next) := Decode(text, i);
      || (0 < x <= 0x10FFFF && text[i..next] == Encode(x))
      || (x == text[i] && next == i + 1 && forall y: nat | 0 < y <= 0x10FFFF :: !(Encode(y) <= text[i..]))
  {
    var (x, next) := Decode(text, i);
    if next > i + 1 || text[i] < 0x80 {
      DecodedEncodes(text, i);
    } else {
      forall y: nat | 0 < y <= 0x10FFFF
        ensures !(Encode(y) <= text[i..])
      {
        if Encode(y) <= text[i..] {
          DecodeEncode(text, i, y);
        }
      }
    }
  }

  lemma {:induction false} DecodedEncodes(text: Text, i: nat)
    requires i < |text| && (Decode(text, i).1 > i + 1 || text[i] < 0x80)
    ensures var (x, next) := Decode(text, i); 0 < x <= 0x10FFFF && text[i..next] == Encode(x)
  {
    var (x, next) := Decode(text, i);
    var first: int := text[i];
    if next == i + 2 {
      TwoBack(first - 0xC0, Low(text, i + 1));
    } else if next == i + 3 {
      ThreeBack(first - 0xE0, Low(text, i + 1), Low(text, i + 2));
    } else if next == i + 4 {
      FourBack(first - 0xF0, Low(text, i + 1), Low(text, i + 2), Low(text, i + 3));
    }
    assert text[i..next] == Encode(x);
  }

  lemma {:induction false} TwoBack(a: nat, b: nat)
    requires b < 64
    ensures (a * 64 + b) / 64 == a && (a * 64 + b) % 64 == b
  {
  }

  lemma {:induction false} ThreeBack(a: nat, b: nat, c: nat)
    requires b < 64 && c < 64
    ensures var x := a * 4096 + b * 64 + c; x / 4096 == a && x / 64 % 64 == b && x % 64 == c
  {
    TwoBack(a * 64 + b, c);
    TwoBack(a, b);
  }

  lemma {:induction false} FourBack(a: nat, b: nat, c: nat, d: nat)
    requires b < 64 && c < 64 && d < 64
    ensures var x := a * 0x40000 + b * 4096 + c * 64 + d;
      x / 0x40000 == a && x / 4096 % 64 == b && x / 64 % 64 == c && x % 64 == d
  {
    TwoBack(a * 4096 + b * 64 + c, d);
    ThreeBack(a, b, c);
  }

  lemma {:induction false} Front(text: Text, i: nat, e: Text, rest: Text)
    requires i <= |text| && text[i..] == e + rest
    ensures e <= text[i..] && text[i + |e|..] == rest
  {
  }

  lemma {:induction false} CodePointsEncode(text: Text, i: nat, xs: seq<nat>)
    requires (forall k | 0 <= k < |xs| :: Scalar(xs[k])) && i <= |text| && text[i..] == EncodeAll(xs)
    ensures CodePoints(text, i) == xs
    decreases |xs|
  {
    if xs == [] {
    } else {
      var e := Encode(xs[0]);
      Front(text, i, e, EncodeAll(xs[1..]));
      DecodeEncode(text, i, xs[0]);
      CodePointsEncode(text, i + |e|, xs[1..]);
    }
  }

  /** The view of an encoded list of scalar values is that list. */
  lemma {:induction false} ViewRoundTrip(xs: seq<nat>)
    requires forall k | 0 <= k < |xs| :: Scalar(xs[k])
    ensures ViewOf(EncodeAll(xs)).codepoints == xs
  {
    assert EncodeAll(xs)[0..] == EncodeAll(xs);
    CodePointsEncode(EncodeAll(xs), 0, xs);
  }

  // ----- decimal numbers -----

  /** The number whose digits start at `i`, continuing `value`, and the index after it. */
  function Number(r: Text, i: nat, value: nat): (n: (nat, nat))
    requires i <= |r|
    ensures i <= n.1 <= |r|
    ensures i < |r| && IsDigit(r[i]) ==> i < n.1
    decreases |r| - i
  {
    if i < |r| && IsDigit(r[i]) then Number(r, i + 1, value * 10 + (r[i] as int - 48)) else (value, i)
  }

  method ReadNumber(r: Text, start: nat) returns (value: nat, index: nat)
    requires start <= |r|
    ensures (value, index) == Number(r, start, 0)
  {
    value, index := 0, start;
    while index < |r| && IsDigit(r[index])
      invariant start <= index <= |r|
      invariant Number(r, index, value) == Number(r, start, 0)
    {
      value := value * 10 + (r[index] as int - 48);
      index := index + 1;
    }
  }
}
