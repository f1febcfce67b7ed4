/** The random generator of libs/random/state.adn, in 32-bit arithmetic. */
module Random {
  const MODULUS := 2147483647
  const MULTIPLIER := 16807
  const QUOTIENT := 127773
  const REMAINDER := 2836
  const DEFAULT_SEED := 1

  /** The multiplier's inverse modulo the modulus. */
  const INVERSE := 1407677000

  type I32 = x: int | -0x8000_0000 <= x < 0x8000_0000

  predicate InRange(state: int) {
    1 <= state <= MODULUS - 1
  }

  /** Division and remainder of the language: the quotient is cut towards zero. */
  function Quot(a: int, b: int): int
    requires b > 0
  {
    if a >= 0 then a / b else -((-a) / b)
  }

  function Rem(a: int, b: int): int
    requires b > 0
  {
    a - b * Quot(a, b)
  }

  // ----- arithmetic modulo the modulus -----

  /** The number in `0..MODULUS` that `x` is congruent to. */
  function Mod(x: int): (r: int)
    ensures 0 <= r < MODULUS
  {
    x % MODULUS
  }

  lemma {:induction false} ModUnique(x: int, q: int, r: int)
    requires x == q * MODULUS + r && 0 <= r < MODULUS
    ensures Mod(x) == r
  {
  }

  lemma {:induction false} ModTimes(a: int, x: int)
    ensures Mod(a * Mod(x)) == Mod(a * x)
  {
    var q := x / MODULUS;
    var k := a * Mod(x) / MODULUS;
    assert x == q * MODULUS + Mod(x);
    assert a * x == a * (q * MODULUS) + a * Mod(x) == (a * q + k) * MODULUS + Mod(a * Mod(x)) by {
      Distribute(a, q, MODULUS, Mod(x));
      assert a * Mod(x) == k * MODULUS + Mod(a * Mod(x));
    }
    ModUnique(a * x, a * q + k, Mod(a * Mod(x)));
  }

  lemma {:induction false} Distribute(a: int, q: int, m: int, r: int)
    ensures a * (q * m + r) == (a * q) * m + a * r
    ensures a * (q * m) == (a * q) * m
  {
  }

  /** Multiplying by the inverse takes the multiplication back. */
  lemma {:induction false} InverseUndoes(x: int)
    requires 0 <= x < MODULUS
    ensures Mod(INVERSE * Mod(MULTIPLIER * x)) == x
  {
    ModTimes(INVERSE, MULTIPLIER * x);
    assert INVERSE * (MULTIPLIER * x) == 11017 * x * MODULUS + x by {
      assert INVERSE * MULTIPLIER == 11017 * MODULUS + 1;
    }
    ModUnique(INVERSE * (MULTIPLIER * x), 11017 * x, x);
  }

  // ----- one step -----

  function Next(state: int): int {
    Mod(MULTIPLIER * state)
  }

  /** The product before the modulus is added, as the code computes it. */
  function Split(state: int): int {
    MULTIPLIER * (state % QUOTIENT) - REMAINDER * (state / QUOTIENT)
  }

  /** Every intermediate result fits 32 bits. */
  lemma {:induction false} SplitFits(state: int)
    requires InRange(state)
    ensures 0 <= MULTIPLIER * (state % QUOTIENT) < 0x8000_0000 && 0 <= REMAINDER * (state / QUOTIENT) < 0x8000_0000
    ensures -MODULUS < Split(state) < MODULUS
  {
  }

  lemma {:induction false} SplitCongruent(state: int)
    ensures Mod(Split(state)) == Next(state)
  {
    var high, low := state / QUOTIENT, state % QUOTIENT;
    assert MULTIPLIER * state == high * MODULUS + Split(state);
    var q := Split(state) / MODULUS;
    ModUnique(MULTIPLIER * state, high + q, Mod(Split(state)));
  }

  /** The product is never a multiple of the modulus: the case of zero does not arise. */
  lemma {:induction false} NeverZero(state: int)
    requires InRange(state)
    ensures Split(state) != 0 && InRange(Next(state))
  {
    SplitCongruent(state);
    InverseUndoes(state);
  }

  /** What a step is: the minimal standard generator. */
  lemma {:induction false} NextIs(state: int)
    ensures Next(state) == 16807 * state % 2147483647
  {
  }

  /** Different states have different successors. */
  lemma {:induction false} NextInjective(a: int, b: int)
    requires InRange(a) && InRange(b) && Next(a) == Next(b)
    ensures a == b
  {
    InverseUndoes(a);
    InverseUndoes(b);
  }

  /** Every state is the successor of a state. */
  lemma {:induction false} NextOnto(b: int) returns (a: int)
    requires InRange(b)
    ensures InRange(a) && Next(a) == b
  {
    a := Mod(INVERSE * b);
    ModTimes(MULTIPLIER, INVERSE * b);
    assert MULTIPLIER * (INVERSE * b) == 11017 * b * MODULUS + b;
    ModUnique(MULTIPLIER * (INVERSE * b), 11017 * b, b);
    assert a != 0;
  }

  function Power(n: nat): nat {
    if n == 0 then 1 else MULTIPLIER * Power(n - 1)
  }

  // ----- seeds -----

  function Normalize(value: int): int {
    var r := Rem(value, MODULUS);
    var up := if r < 0 then r + MODULUS else r;
    if value == 0 || up == 0 then DEFAULT_SEED else up
  }

  /** A seed becomes a state: the congruent one, or the default for a multiple of the modulus. */
  lemma {:induction false} NormalizeInRange(value: int)
    ensures InRange(Normalize(value))
    ensures Normalize(value) == if value % 2147483647 == 0 then 1 else value % 2147483647
  {
  }

  // ----- runs -----

  datatype Action = Advance | Seed(value: I32) | Reseed | Reset

  function Step(state: int, a: Action): int {
    match a
    case Advance => Next(state)
    case Seed(value) => Normalize(value)
    case Reseed => Normalize(Next(state))
    case Reset => DEFAULT_SEED
  }

  function Run(state: int, actions: seq<Action>): int
    decreases |actions|
  {
    if actions == [] then state else Step(Run(state, actions[..|actions| - 1]), actions[|actions| - 1])
  }

  lemma {:induction false} StepInRange(state: int, a: Action)
    requires InRange(state)
    ensures InRange(Step(state, a))
    ensures a.Reseed? ==> Step(state, a) == Next(state)
  {
    NeverZero(state);
    match a
    case Seed(value) => NormalizeInRange(value);
    case Reseed => NormalizeInRange(Next(state));
    case _ =>
  }

  /** Over every run the state stays in range. */
  lemma {:induction false} RunInRange(state: int, actions: seq<Action>)
    requires InRange(state)
    ensures InRange(Run(state, actions))
    decreases |actions|
  {
    if actions == [] {
    } else {
      RunInRange(state, actions[..|actions| - 1]);
      StepInRange(Run(state, actions[..|actions| - 1]), actions[|actions| - 1]);
    }
  }

  predicate OnlyAdvances(actions: seq<Action>) {
    forall i | 0 <= i < |actions| :: actions[i].Advance? || actions[i].Reseed?
  }

  /** `n` steps multiply the state by the `n`th power of the multiplier; reseeding counts as a step. */
  lemma {:induction false} AdvancesMultiply(state: int, actions: seq<Action>)
    requires InRange(state) && OnlyAdvances(actions)
    ensures Run(state, actions) == Mod(Power(|actions|) * state)
    decreases |actions|
  {
    if actions == [] {
    } else {
      var before := actions[..|actions| - 1];
      AdvancesMultiply(state, before);
      RunInRange(state, before);
      StepInRange(Run(state, before), actions[|actions| - 1]);
      ModTimes(MULTIPLIER, Power(|before|) * state);
      assert MULTIPLIER * (Power(|before|) * state) == Power(|actions|) * state;
    }
  }

  // ----- the generator -----

  class Generator {
    var state: I32

    constructor ()
      ensures state == 1
    {
      state := DEFAULT_SEED;
    }

    method NormalizeSeed(value: I32) returns (normalized: I32)
      ensures normalized == Normalize(value) && InRange(normalized)
    {
      NormalizeInRange(value);
      if value == 0 {
        return DEFAULT_SEED;
      }
      var r := Rem(value, MODULUS);
      if r < 0 {
        r := r + MODULUS;
      }
      if r == 0 {
        return DEFAULT_SEED;
      }
      return r;
    }

    method SeedWith(value: I32)
      modifies this
      ensures state == Normalize(value) && InRange(state)
    {
      state := NormalizeSeed(value);
    }

    method ResetSeed()
      modifies this
      ensures state == 1
    {
      state := DEFAULT_SEED;
    }

    /** A state that is out of range is replaced by the default first. */
    method AdvanceState() returns (value: I32)
      modifies this
      ensures var from := if InRange(old(state)) then old(state) else DEFAULT_SEED; state == Next(from)
      ensures value == state && InRange(state)
    {
      if state <= 0 || state >= MODULUS {
        state := DEFAULT_SEED;
      }
      SplitFits(state);
      SplitCongruent(state);
      NeverZero(state);
      var high: I32 := state / QUOTIENT;
      var low: I32 := state % QUOTIENT;
      var scaledLow: I32 := MULTIPLIER * low;
      var scaledHigh: I32 := REMAINDER * high;
      var next: I32 := scaledLow - scaledHigh;
      if next <= 0 {
        next := next + MODULUS;
      }
      state := next;
      return state;
    }

    method ReseedFromState()
      requires InRange(state)
      modifies this
      ensures state == Step(old(state), Reseed) && InRange(state)
    {
      var value := AdvanceState();
      SeedWith(value);
    }

    /** The value before the offset is taken off: never negative. */
    method Raw() returns (value: I32)
      modifies this
      ensures 0 <= value <= MODULUS - 2 && state == value + 1 && InRange(state)
      ensures InRange(old(state)) ==> state == Next(old(state))
    {
      var next := AdvanceState();
      return next - 1;
    }

    method Perform(actions: seq<Action>)
      requires InRange(state)
      modifies this
      ensures state == Run(old(state), actions) && InRange(state)
    {
      for i := 0 to |actions|
        invariant state == Run(old(state), actions[..i]) && InRange(state)
      {
        assert actions[..i + 1][..i] == actions[..i];
        match actions[i]
        case Advance =>
          var value := AdvanceState();
        case Seed(value) => SeedWith(value);
        case Reseed => ReseedFromState();
        case Reset => ResetSeed();
      }
      assert actions[..|actions|] == actions;
    }
  }
}
