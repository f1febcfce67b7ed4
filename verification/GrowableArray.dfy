/** The growable array of src/backend/runtime/runtime.c: a buffer whose first `count` entries are in use. */
module GrowableArray {
  /** An index for an insertion, moved into the array. */
  function InsertIndex(index: int, count: nat): (r: nat)
    ensures r <= count && (0 <= index <= count ==> r == index)
  {
    if index < 0 then 0 else if index > count then count else index
  }

  function Clamp(index: int, count: nat): (r: nat)
    ensures r <= count
  {
    if index < 0 then 0 else if index > count then count else index
  }

  function Distance(a: int, b: int): nat {
    if a < b then b - a else a - b
  }

  /** Both move an index to the nearest place that there is. */
  lemma {:induction false} NearestPlace(index: int, count: nat, k: nat)
    requires k <= count
    ensures Distance(index, InsertIndex(index, count)) <= Distance(index, k)
    ensures Distance(index, Clamp(index, count)) <= Distance(index, k)
  {
  }

  /** The slice between two indices that may lie outside or the wrong way round. */
  function SliceOf<T>(s: seq<T>, start: int, end: int): (r: seq<T>)
    ensures 0 <= start <= end <= |s| ==> r == s[start..end]
  {
    var a, b := Clamp(start, |s|), Clamp(end, |s|);
    if b < a then [] else s[a..b]
  }

  /** A slice holds the entries from the first index on up to the second one, as many as there are, in order. */
  lemma {:induction false} SliceHolds<T>(s: seq<T>, start: int, end: int, k: nat)
    requires k < |s|
    ensures var r := SliceOf(s, start, end);
      var first: nat := if start < 0 then 0 else start;
      && (start <= k < end ==> k - first < |r| && r[k - first] == s[k])
      && (k < |r| ==> start <= first + k < end && first + k < |s|)
  {
  }

  function RemoveAt<T>(s: seq<T>, i: nat): seq<T>
    requires i < |s|
  {
    s[..i] + s[i + 1..]
  }

  lemma {:induction false} InsertedAt<T>(before: seq<T>, after: seq<T>, offset: nat, value: T)
    requires offset <= |before| && |after| == |before| + 1 && after[offset] == value
    requires forall k | 0 <= k < offset :: after[k] == before[k]
    requires forall k | offset <= k < |before| :: after[k + 1] == before[k]
    ensures after == before[..offset] + [value] + before[offset..]
  {
    assert forall k | offset < k < |after| :: after[k] == after[(k - 1) + 1];
  }

  function PowerOf2(k: nat): (r: nat)
    ensures r >= 1
  {
    if k == 0 then 1 else 2 * PowerOf2(k - 1)
  }

  class AdnArray<T(0)> {
    var items: array<T>
    var count: nat

    ghost predicate Valid()
      reads this
    {
      count <= items.Length
    }

    ghost function Contents(): (s: seq<T>)
      requires Valid()
      reads this, items
    {
      items[..count]
    }

    constructor ()
      ensures Valid() && Contents() == [] && fresh(items)
    {
      items := new T[0];
      count := 0;
    }

    /** Room for `needed` entries: the capacity starts at 4 and doubles no more often than it must. */
    method Reserve(needed: nat)
      requires Valid()
      modifies this`items
      ensures Valid() && items.Length >= needed && Contents() == old(Contents())
      ensures items == old(items) || fresh(items)
      ensures old(items.Length) >= needed ==> items == old(items)
      ensures old(items.Length) < needed ==>
        var first := if old(items.Length) == 0 then 4 else old(items.Length);
        exists k: nat :: items.Length == first * PowerOf2(k) && (k > 0 ==> first * PowerOf2(k - 1) < needed)
    {
      if items.Length >= needed {
        return;
      }
      var capacity := if items.Length == 0 then 4 else items.Length;
      ghost var first, k := capacity, 0;
      while capacity < needed
        invariant capacity >= items.Length && capacity > 0
        invariant capacity == first * PowerOf2(k) && (k > 0 ==> first * PowerOf2(k - 1) < needed)
        decreases needed - capacity
      {
        capacity := capacity * 2;
        k := k + 1;
      }
      var resized := new T[capacity];
      forall k | 0 <= k < count {
        resized[k] := items[k];
      }
      items := resized;
    }

    method Push(value: T)
      requires Valid()
      modifies this, items
      ensures Valid() && Contents() == old(Contents()) + [value]
      ensures items == old(items) || fresh(items)
    {
      Reserve(count + 1);
      items[count] := value;
      count := count + 1;
    }

    method Insert(index: int, value: T)
      requires Valid()
      modifies this, items
      ensures Valid() && (items == old(items) || fresh(items))
      ensures var at := InsertIndex(index, old(count));
        Contents() == old(Contents())[..at] + [value] + old(Contents())[at..]
    {
      ghost var before := Contents();
      var offset := InsertIndex(index, count);
      Reserve(count + 1);
      forall k | offset <= k < count {
        items[k + 1] := items[k];
      }
      items[offset] := value;
      count := count + 1;
      InsertedAt(before, Contents(), offset, value);
    }

    /** Take an entry out and close the gap. Outside the array nothing is taken. */
    method Take(index: int, empty: T) returns (removed: T)
      requires Valid()
      modifies this, items
      ensures Valid() && items == old(items)
      ensures 0 <= index < old(count) ==>
        removed == old(Contents())[index] && Contents() == RemoveAt(old(Contents()), index)
      ensures !(0 <= index < old(count)) ==> removed == empty && Contents() == old(Contents())
    {
      if index < 0 || index >= count {
        return empty;
      }
      removed := items[index];
      forall k | index <= k < count - 1 {
        items[k] := items[k + 1];
      }
      count := count - 1;
      assert items[..count] == RemoveAt(old(Contents()), index);
    }

    method Clear()
      requires Valid()
      modifies this`count
      ensures Valid() && Contents() == []
    {
      count := 0;
    }

    method Slice(start: int, end: int) returns (slice: AdnArray<T>)
      requires Valid()
      ensures fresh(slice) && fresh(slice.items) && slice.Valid() && slice.Contents() == SliceOf(Contents(), start, end)
    {
      slice := new AdnArray();
      var from := Clamp(start, count);
      var to := Clamp(end, count);
      if to < from {
        to := from;
      }
      for i := from to to
        invariant fresh(slice) && fresh(slice.items) && slice.Valid() && slice.Contents() == Contents()[from..i]
      {
        slice.Push(items[i]);
      }
    }
  }
}
