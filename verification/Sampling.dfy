/** Sampling without replacement and shuffling in libs/random/typed_select.adn. */
module Sampling {
  import opened Wrappers
  import opened GrowableArray
  import opened Random

  // ----- an integer of a range -----

  /** A sum cut to 32 bits. */
  function Wrap(x: int): (r: I32)
    ensures (x - r) % 0x1_0000_0000 == 0
  {
    (x + 0x8000_0000) % 0x1_0000_0000 - 0x8000_0000
  }

  /** The remainder of a number that is not negative; it does not depend on the sign of the divisor. */
  function RemBy(a: nat, b: int): (r: nat)
    requires b != 0
    ensures r < if b > 0 then b else -b
  {
    a % (if b > 0 then b else -b)
  }

  predicate WholeRange(lower: I32, upper: I32) {
    lower == -0x8000_0000 && upper == 0x7FFF_FFFF
  }

  /** The number of values in a range fits no 32 bits when the range is wide, and is 0 for all of them. */
  lemma {:induction false} SpanOfRange(lower: I32, upper: I32)
    requires lower < upper
    ensures Wrap(upper - lower + 1) == 0 <==> WholeRange(lower, upper)
    ensures upper - lower + 1 < 0x8000_0000 ==> Wrap(upper - lower + 1) == upper - lower + 1
    ensures upper - lower + 1 >= 0x8000_0000 ==> Wrap(upper - lower + 1) == upper - lower + 1 - 0x1_0000_0000
  {
  }

  /** What is drawn from a range by the raw value `raw`. */
  function Draw(lower: I32, upper: I32, raw: nat): int
    requires lower < upper && !WholeRange(lower, upper)
  {
    SpanOfRange(lower, upper);
    lower + RemBy(raw, Wrap(upper - lower + 1))
  }

  /** It lies in the range, also where the size of the range has overflowed. */
  lemma {:induction false} DrawInRange(lower: I32, upper: I32, raw: nat)
    requires lower < upper && !WholeRange(lower, upper)
    ensures lower <= Draw(lower, upper, raw) <= upper
  {
  }

  /** The raw value counts from the lower bound on, round and round as many values as the range has; where that number
      fits no 32 bits, as many as are missing to 2^32. */
  lemma {:induction false} DrawCounts(lower: I32, upper: I32, raw: nat)
    requires lower < upper && !WholeRange(lower, upper)
    ensures var n := upper - lower + 1;
      Draw(lower, upper, raw) == lower + raw % (if n < 0x8000_0000 then n else 0x1_0000_0000 - n)
  {
    SpanOfRange(lower, upper);
  }

  /** An integer between the bounds in either order. The range of all 32-bit values has the span 0, and
      the division by it gives no value after one has been drawn. */
  method Integer(g: Generator, min: I32, max: I32) returns (value: Option<I32>)
    modifies g
    ensures var lower, upper := if max < min then max else min, if max < min then min else max;
      && (value.None? <==> WholeRange(lower, upper))
      && (value.Some? ==> lower <= value.value <= upper)
      && (min == max ==> g.state == old(g.state))
      && (min != max ==> InRange(g.state))
      && (min != max && value.Some? ==> value.value == Draw(lower, upper, g.state - 1))
    ensures min != max && InRange(old(g.state)) ==> g.state == Next(old(g.state))
  {
    var lower, upper := min, max;
    if upper < lower {
      lower, upper := upper, lower;
    }
    if lower == upper {
      return Some(lower);
    }
    SpanOfRange(lower, upper);
    var span := Wrap(upper - lower + 1);
    var raw := g.Raw();
    if span == 0 {
      return None;
    }
    DrawInRange(lower, upper, raw);
    return Some(lower + RemBy(raw, span));
  }

  // ----- what is chosen -----

  /** The index drawn from a pool of `n` and the state after it. A pool of one draws nothing. */
  function DrawIndex(n: nat, state: int): (r: (nat, int))
    requires 0 < n <= 0x7FFF_FFFF && InRange(state)
    ensures r.0 < n && InRange(r.1)
  {
    NeverZero(state);
    if n == 1 then (0, state) else ((Next(state) - 1) % n, Next(state))
  }

  datatype Chosen<T> = Chosen(result: seq<T>, pool: seq<T>, state: int)

  /** `needed` entries drawn from the pool one after the other. */
  function Choose<T>(pool: seq<T>, needed: nat, state: int): (r: Chosen<T>)
    requires needed <= |pool| <= 0x7FFF_FFFF && InRange(state)
    ensures |r.result| == needed && |r.pool| == |pool| - needed && InRange(r.state)
    decreases needed
  {
    if needed == 0 then Chosen([], pool, state)
    else
      var before := Choose(pool, needed - 1, state);
      var (i, next) := DrawIndex(|before.pool|, before.state);
      Chosen(before.result + [before.pool[i]], RemoveAt(before.pool, i), next)
  }

  lemma {:induction false} RemoveMultiset<T>(s: seq<T>, i: nat)
    requires i < |s|
    ensures multiset(s) == multiset(RemoveAt(s, i)) + multiset{s[i]}
  {
    assert s == s[..i] + [s[i]] + s[i + 1..];
  }

  /** Nothing is lost and nothing is chosen twice: what is chosen and what is left are the input. */
  lemma {:induction false} ChooseConserves<T>(pool: seq<T>, needed: nat, state: int)
    requires needed <= |pool| <= 0x7FFF_FFFF && InRange(state)
    ensures var r := Choose(pool, needed, state); multiset(r.result) + multiset(r.pool) == multiset(pool)
    decreases needed
  {
    if needed == 0 {
    } else {
      var i := ChooseLast(pool, needed - 1, state);
      ChooseConserves(pool, needed - 1, state);
      DrawConserves(Choose(pool, needed - 1, state), i, Choose(pool, needed, state));
    }
  }

  /** One entry more. */
  lemma {:induction false} ChooseLast<T>(pool: seq<T>, needed: nat, state: int) returns (i: nat)
    requires needed < |pool| <= 0x7FFF_FFFF && InRange(state)
    ensures var before := Choose(pool, needed, state);
      && i < |before.pool| && i == DrawIndex(|before.pool|, before.state).0
      && Choose(pool, needed + 1, state) == Chosen(before.result + [before.pool[i]], RemoveAt(before.pool, i),
        DrawIndex(|before.pool|, before.state).1)
  {
    var before := Choose(pool, needed, state);
    i := DrawIndex(|before.pool|, before.state).0;
  }

  lemma {:induction false} DrawConserves<T>(before: Chosen<T>, i: nat, after: Chosen<T>)
    requires i < |before.pool| && after.pool == RemoveAt(before.pool, i)
    requires after.result == before.result + [before.pool[i]]
    ensures multiset(after.result) + multiset(after.pool) == multiset(before.result) + multiset(before.pool)
  {
    RemoveMultiset(before.pool, i);
  }

  lemma {:induction false} ChosenAreGiven<T>(pool: seq<T>, needed: nat, state: int)
    requires needed <= |pool| <= 0x7FFF_FFFF && InRange(state)
    ensures multiset(Choose(pool, needed, state).result) <= multiset(pool)
  {
    ChooseConserves(pool, needed, state);
  }

  /** One entry drawn from the pool, and `needed` more from what is left. */
  lemma {:induction false} ChooseDrawn<T>(pool: seq<T>, needed: nat, state: int)
    requires needed < |pool| <= 0x7FFF_FFFF && InRange(state)
    ensures var (i, next) := DrawIndex(|pool|, state);
      var rest := Choose(RemoveAt(pool, i), needed, next);
      Choose(pool, needed + 1, state) == Chosen([pool[i]] + rest.result, rest.pool, rest.state)
    decreases needed
  {
    var (i, next) := DrawIndex(|pool|, state);
    var left := RemoveAt(pool, i);
    if needed == 0 {
      assert Choose(pool, 0, state) == Chosen([], pool, state);
      assert [] + [pool[i]] == [pool[i]] + [];
    } else {
      ChooseDrawn(pool, needed - 1, state);
      DrawnAfter(pool, left, needed, state, next, pool[i]);
    }
  }

  lemma {:induction false} DrawnAfter<T>(pool: seq<T>, left: seq<T>, needed: nat, state: int, next: int, first: T)
    requires 0 < needed < |pool| <= 0x7FFF_FFFF && |left| == |pool| - 1 && InRange(state) && InRange(next)
    requires var later := Choose(left, needed - 1, next);
      Choose(pool, needed, state) == Chosen([first] + later.result, later.pool, later.state)
    ensures var rest := Choose(left, needed, next);
      Choose(pool, needed + 1, state) == Chosen([first] + rest.result, rest.pool, rest.state)
  {
    var later := Choose(left, needed - 1, next);
    var j := DrawIndex(|later.pool|, later.state).0;
    assert ([first] + later.result) + [later.pool[j]] == [first] + (later.result + [later.pool[j]]);
  }

  /** Choosing more is choosing the first and then the others from what is left: at each place the state, multiplied,
      picks by its remainder, and the last entry is taken without a draw. */
  lemma {:induction false} ChooseFirst<T>(pool: seq<T>, needed: nat, state: int)
    requires 0 < needed <= |pool| <= 0x7FFF_FFFF && InRange(state)
    ensures InRange(16807 * state % 2147483647)
    ensures var next := if |pool| == 1 then state else 16807 * state % 2147483647;
      var i := if |pool| == 1 then 0 else (next - 1) % |pool|;
      var rest := Choose(pool[..i] + pool[i + 1..], needed - 1, next);
      Choose(pool, needed, state) == Chosen([pool[i]] + rest.result, rest.pool, rest.state)
  {
    NeverZero(state);
    NextIs(state);
    ChooseDrawn(pool, needed - 1, state);
  }

  /** As many as are asked for, but not more than there are and not less than none. */
  function Needed(count: int, length: nat): (r: nat)
    ensures r <= length && (0 <= count <= length ==> r == count) && (count < 0 ==> r == 0)
    ensures count > length ==> r == length
  {
    if count <= 0 then 0 else if count > length then length else count
  }

  /** A choice of everything is a permutation. */
  lemma {:induction false} ChooseAllPermutes<T>(pool: seq<T>, state: int)
    requires |pool| <= 0x7FFF_FFFF && InRange(state)
    ensures multiset(Choose(pool, |pool|, state).result) == multiset(pool)
  {
    ChooseConserves(pool, |pool|, state);
    assert Choose(pool, |pool|, state).pool == [];
  }

  // ----- the loops -----

  method CopyArray<T(0)>(values: AdnArray<T>) returns (copy: AdnArray<T>)
    requires values.Valid()
    ensures fresh(copy) && fresh(copy.items) && copy.Valid() && copy.Contents() == values.Contents()
  {
    copy := new AdnArray();
    for i := 0 to values.count
      invariant fresh(copy) && fresh(copy.items) && copy.Valid() && copy.Contents() == values.Contents()[..i]
    {
      copy.Push(values.items[i]);
    }
  }

  method Choices<T(0)>(g: Generator, values: AdnArray<T>, count: I32, empty: T) returns (result: AdnArray<T>)
    requires values.Valid() && values.count <= 0x7FFF_FFFF && InRange(g.state)
    modifies g
    ensures fresh(result) && fresh(result.items) && result.Valid() && InRange(g.state)
    ensures var chosen := Choose(values.Contents(), Needed(count, values.count), old(g.state));
      result.Contents() == chosen.result && g.state == chosen.state
  {
    result := new AdnArray();
    if count <= 0 || values.count == 0 {
      return;
    }
    var pool := CopyArray(values);
    var needed: nat := count;
    if needed > pool.count {
      needed := pool.count;
    }
    MoveMany(g, pool, result, needed, empty);
  }

  /** Sampling is choosing: as many entries as asked for and there are, none of them twice. */
  method Sample<T(0)>(g: Generator, values: AdnArray<T>, count: I32, empty: T) returns (result: AdnArray<T>)
    requires values.Valid() && values.count <= 0x7FFF_FFFF && InRange(g.state)
    modifies g
    ensures fresh(result) && fresh(result.items) && result.Valid() && InRange(g.state)
    ensures var chosen := Choose(values.Contents(), Needed(count, values.count), old(g.state));
      result.Contents() == chosen.result && g.state == chosen.state
    ensures multiset(result.Contents()) <= multiset(values.Contents())
    ensures result.count == Needed(count, values.count)
  {
    ChosenAreGiven(values.Contents(), Needed(count, values.count), g.state);
    result := Choices(g, values, count, empty);
  }

  method MoveMany<T(0)>(g: Generator, pool: AdnArray<T>, result: AdnArray<T>, needed: nat, empty: T)
    requires Apart(result, pool) && result.count == 0 && needed <= pool.count <= 0x7FFF_FFFF && InRange(g.state)
    modifies g, pool, pool.items, result, result.items
    ensures Apart(result, pool) && InRange(g.state)
    ensures result.items == old(result.items) || fresh(result.items)
    ensures Chosen(result.Contents(), pool.Contents(), g.state) == Choose(old(pool.Contents()), needed, old(g.state))
  {
    ghost var input, start := pool.Contents(), g.state;
    while result.count < needed
      invariant result.items == old(result.items) || fresh(result.items)
      invariant pool.items == old(pool.items)
      invariant Apart(result, pool) && InRange(g.state) && result.count <= needed <= |input|
      invariant Chosen(result.Contents(), pool.Contents(), g.state) == Choose(input, result.count, start)
    {
      ghost var i := ChooseLast(input, result.count, start);
      MoveOne(g, pool, result, empty);
    }
  }

  /** Two arrays that share nothing. */
  ghost predicate Apart<T(0)>(a: AdnArray<T>, b: AdnArray<T>)
    reads a, b
  {
    a != b && a.items != b.items && a.Valid() && b.Valid()
  }

  method DrawOne(g: Generator, n: nat) returns (index: nat)
    requires 0 < n <= 0x7FFF_FFFF && InRange(g.state)
    modifies g
    ensures (index, g.state as int) == DrawIndex(n, old(g.state)) && index < n && InRange(g.state)
  {
    var drawn := Integer(g, 0, n - 1);
    return drawn.value;
  }

  /** One entry of the pool, drawn at random, moves to the end of the result. */
  method MoveOne<T(0)>(g: Generator, pool: AdnArray<T>, result: AdnArray<T>, empty: T)
    requires Apart(result, pool) && 0 < pool.count <= 0x7FFF_FFFF && InRange(g.state)
    modifies g, pool, pool.items, result, result.items
    ensures Apart(result, pool) && InRange(g.state) && pool.items == old(pool.items)
    ensures result.items == old(result.items) || fresh(result.items)
    ensures var (i, next) := DrawIndex(old(pool.count), old(g.state));
      && g.state == next && pool.Contents() == RemoveAt(old(pool.Contents()), i)
      && result.Contents() == old(result.Contents()) + [old(pool.Contents())[i]]
  {
    var index := DrawOne(g, pool.count);
    var taken := pool.Take(index, empty);
    result.Push(taken);
  }

  method Shuffled<T(0)>(g: Generator, values: AdnArray<T>, empty: T) returns (result: AdnArray<T>)
    requires values.Valid() && values.count <= 0x7FFF_FFFF && InRange(g.state)
    modifies g
    ensures fresh(result) && fresh(result.items) && result.Valid() && InRange(g.state)
    ensures var chosen := Choose(values.Contents(), values.count, old(g.state));
      result.Contents() == chosen.result && g.state == chosen.state
    ensures multiset(result.Contents()) == multiset(values.Contents())
  {
    ChooseAllPermutes(values.Contents(), g.state);
    result := Choices(g, values, values.count, empty);
  }

  lemma {:induction false} OneMore<T>(order: seq<T>, i: nat)
    requires i < |order|
    ensures order[..i] + [order[i]] == order[..i + 1]
  {
  }

  /** The array is emptied, and takes over the entries of another one in order. */
  method Refill<T(0)>(values: AdnArray<T>, reordered: AdnArray<T>)
    requires Apart(values, reordered)
    modifies values, values.items
    ensures values.Valid() && values.Contents() == old(reordered.Contents())
    ensures values.items == old(values.items) || fresh(values.items)
  {
    ghost var order := reordered.Contents();
    values.Clear();
    for i := 0 to reordered.count
      invariant Apart(values, reordered) && reordered.Contents() == order
      invariant values.items == old(values.items) || fresh(values.items)
      invariant values.Contents() == order[..i]
    {
      var next := reordered.items[i];
      OneMore(order, i);
      values.Push(next);
    }
    assert order[..reordered.count] == order;
  }

  /** The array itself ends up in the drawn order, a permutation of what it held. */
  method ShuffleSelf<T(0)>(g: Generator, values: AdnArray<T>, empty: T)
    requires values.Valid() && values.count <= 0x7FFF_FFFF && InRange(g.state)
    modifies g, values, values.items
    ensures values.Valid() && InRange(g.state)
    ensures var chosen := Choose(old(values.Contents()), old(values.count), old(g.state));
      values.Contents() == chosen.result && g.state == chosen.state
    ensures multiset(values.Contents()) == multiset(old(values.Contents()))
  {
    var reordered := Shuffled(g, values, empty);
    Refill(values, reordered);
  }
}
