/**
 * `BetterDynamicArray<T>`: a growable array over a backing array that starts
 * with ten slots, doubles when an insertion finds it full, and never shrinks.
 * Slots hold `Option<T>` because the Java backing `Object[]` holds `null` in
 * the slots no element occupies.
 */
module DynamicArray {
  import opened Outcomes
  import opened JavaInt
  import opened Decimal
  import opened Sorting

  // ---------------------------------------------------------------------
  // Sequence-level specification of the operations
  // ---------------------------------------------------------------------

  /** `s` with `v` placed at position `i`. */
  function Inserted<T>(s: seq<T>, i: nat, v: T): (r: seq<T>)
    requires i <= |s|
  {
    s[..i] + [v] + s[i..]
  }

  /** `s` without its element at position `i`. */
  function Removed<T>(s: seq<T>, i: nat): (r: seq<T>)
    requires i < |s|
  {
    s[..i] + s[i + 1..]
  }

  /** Where `Inserted` puts every element. */
  lemma InsertedElements<T>(s: seq<T>, i: nat, v: T)
    requires i <= |s|
    ensures |Inserted(s, i, v)| == |s| + 1
    ensures Inserted(s, i, v)[i] == v
    ensures forall j :: 0 <= j < i ==> Inserted(s, i, v)[j] == s[j]
    ensures forall j :: i < j <= |s| ==> Inserted(s, i, v)[j] == s[j - 1]
  {
  }

  /** Where `Removed` puts every element. */
  lemma RemovedElements<T>(s: seq<T>, i: nat)
    requires i < |s|
    ensures |Removed(s, i)| == |s| - 1
    ensures forall j :: 0 <= j < i ==> Removed(s, i)[j] == s[j]
    ensures forall j :: i <= j < |s| - 1 ==> Removed(s, i)[j] == s[j + 1]
  {
  }

  /** Removing what was just inserted at the same index gives back the original. */
  lemma RemovedInserted<T>(s: seq<T>, i: nat, v: T)
    requires i <= |s|
    ensures Removed(Inserted(s, i, v), i) == s
  {
    var t := Inserted(s, i, v);
    assert t[..i] == s[..i];
    assert t[i + 1..] == s[i..];
  }

  /** Appending is inserting at the end: earlier elements stay, `v` comes last. */
  lemma InsertedAtEnd<T>(s: seq<T>, v: T)
    ensures Inserted(s, |s|, v) == s + [v]
  {
  }

  /** The index of the first element equal to `v`, or `|s|` when there is none. */
  function IndexOf<T(==)>(s: seq<T>, v: T): (k: nat)
    ensures k <= |s|
    ensures k < |s| ==> s[k] == v
    ensures forall j :: 0 <= j < k ==> s[j] != v
  {
    if s == [] then 0 else if s[0] == v then 0 else 1 + IndexOf(s[1..], v)
  }

  /** `IndexOf` finds an element exactly when `v` occurs. */
  lemma IndexOfFound<T>(s: seq<T>, v: T)
    ensures IndexOf(s, v) < |s| <==> v in s
  {
  }

  /** The contents after removing the first element equal to `v`, if any. */
  function WithoutFirst<T(==)>(s: seq<T>, v: T): seq<T> {
    var k := IndexOf(s, v);
    if k < |s| then Removed(s, k) else s
  }

  /** Removal of a value deletes one occurrence and keeps everything else in order. */
  lemma WithoutFirstSpec<T>(s: seq<T>, v: T)
    ensures v !in s ==> WithoutFirst(s, v) == s
    ensures v in s ==> (|WithoutFirst(s, v)| == |s| - 1
      && multiset(WithoutFirst(s, v)) == multiset(s) - multiset{v})
  {
    var k := IndexOf(s, v);
    if v in s {
      assert s == s[..k] + [s[k]] + s[k + 1..];
    }
  }

  // ---------------------------------------------------------------------
  // Capacity
  // ---------------------------------------------------------------------

  function Pow2(k: nat): (r: nat)
    ensures r >= 1
  {
    if k == 0 then 1 else 2 * Pow2(k - 1)
  }

  /** How many times ten slots must double to hold `n` elements. */
  function Doublings(n: nat): nat {
    if n <= 10 then 0 else 1 + Doublings((n + 1) / 2)
  }

  /** The backing length after the array has once held `n` elements. */
  function CapacityFor(n: nat): nat {
    10 * Pow2(Doublings(n))
  }

  lemma {:induction false} Pow2Monotone(j: nat, k: nat)
    requires j < k
    ensures 2 * Pow2(j) <= Pow2(k)
  {
    if j + 1 < k {
      Pow2Monotone(j, k - 1);
    }
  }

  /** `CapacityFor(n)` holds `n`, and half of it (when it has doubled) does not. */
  lemma {:induction false} CapacityForBounds(n: nat)
    ensures n <= CapacityFor(n)
    ensures Doublings(n) > 0 ==> 10 * Pow2(Doublings(n) - 1) < n
  {
    if n > 10 {
      CapacityForBounds((n + 1) / 2);
    }
  }

  /** `CapacityFor(n)` is the least length of the form 10 * 2^k holding `n`. */
  lemma CapacityForSmallest(n: nat, k: nat)
    requires n <= 10 * Pow2(k)
    ensures CapacityFor(n) <= 10 * Pow2(k)
  {
    CapacityForBounds(n);
    var d := Doublings(n);
    if k < d {
      if k < d - 1 {
        Pow2Monotone(k, d - 1);
      }
      assert false;
    }
    if k > d {
      Pow2Monotone(d, k);
    }
  }

  /**
   * One more element doubles the capacity exactly when the array is full,
   * and leaves it alone otherwise.
   */
  lemma CapacityStep(n: nat)
    ensures CapacityFor(n + 1) == if n == CapacityFor(n) then 2 * CapacityFor(n) else CapacityFor(n)
  {
    var d, e := Doublings(n), Doublings(n + 1);
    CapacityForBounds(n);
    CapacityForBounds(n + 1);
    CapacityForSmallest(n, e);
    if n == CapacityFor(n) {
      assert 10 * Pow2(d + 1) == 2 * CapacityFor(n);
      CapacityForSmallest(n + 1, d + 1);
      if e <= d {
        if e < d {
          Pow2Monotone(e, d);
        }
        assert false;
      }
      if e > d + 1 {
        Pow2Monotone(d + 1, e);
      }
    } else {
      CapacityForSmallest(n + 1, d);
      if e < d {
        Pow2Monotone(e, d);
      }
      if e > d {
        Pow2Monotone(d, e);
      }
    }
  }

  /**
   * Inserting into an array of `count <= peak` elements whose backing array
   * has the length `CapacityFor(peak)`: the length doubles exactly when it
   * is full, and then holds one more.
   */
  lemma GrowthOnInsert(count: nat, peak: nat)
    requires count <= peak
    ensures CapacityFor(Max(peak, count + 1)) ==
      if count == CapacityFor(peak) then 2 * CapacityFor(peak) else CapacityFor(peak)
    ensures count < CapacityFor(Max(peak, count + 1))
  {
    CapacityStep(peak);
    CapacityForBounds(peak);
    CapacityForBounds(peak + 1);
  }

  // ---------------------------------------------------------------------
  // The array
  // ---------------------------------------------------------------------

  /**
   * The loop of `insert`: the slots from `index` to `count - 1` move one
   * place up, slot `index` keeping its value until it is overwritten.
   */
  method ShiftUp<S>(a: array<S>, index: nat, count: nat)
    requires index <= count < a.Length
    modifies a
    ensures forall j :: 0 <= j <= index ==> a[j] == old(a[j])
    ensures forall j :: index < j <= count ==> a[j] == old(a[j - 1])
    ensures forall j :: count < j < a.Length ==> a[j] == old(a[j])
  {
    var i := count;
    while i > index
      invariant index <= i <= count
      invariant forall j :: 0 <= j <= i ==> a[j] == old(a[j])
      invariant forall j :: i < j <= count ==> a[j] == old(a[j - 1])
      invariant forall j :: count < j < a.Length ==> a[j] == old(a[j])
    {
      a[i] := a[i - 1];
      i := i - 1;
    }
  }

  /** The text `toString` gives: the elements in brackets, then the backing length. */
  function Rendering<T>(s: seq<T>, show: T -> string, length: int): string {
    "[" + Joined(s, show) + "] backing array length: " + IntToString(length)
  }

  /** The elements shown and separated by ", ". */
  function Joined<T>(s: seq<T>, show: T -> string): string {
    if s == [] then "" else if |s| == 1 then show(s[0])
    else Joined(s[..|s| - 1], show) + ", " + show(s[|s| - 1])
  }

  class BetterDynamicArray<T(==)> {
    /** The backing array; `None` stands for a Java `null` slot. */
    var elements: array<Option<T>>
    var count: nat
    /** The elements, in order. */
    ghost var Contents: seq<T>
    /** The largest number of elements the array has held. */
    ghost var peak: nat

    ghost predicate Valid()
      reads this, elements
    {
      && count <= elements.Length
      && |Contents| == count
      && count <= peak
      && elements.Length == CapacityFor(peak)
      && forall i :: 0 <= i < count ==> elements[i] == Some(Contents[i])
    }

    /** An empty array with ten free slots. */
    constructor ()
      ensures Valid() && fresh(elements)
      ensures Contents == [] && elements.Length == 10
    {
      elements := new Option<T>[10](_ => None);
      count := 0;
      Contents := [];
      peak := 0;
    }

    /** Appends `value`: the same as inserting at the current size. */
    method Add(value: T)
      requires Valid()
      modifies this, elements
      ensures Valid()
      ensures Contents == old(Contents) + [value] && peak == Max(old(peak), count)
      ensures elements == old(elements) || fresh(elements)
      ensures elements.Length ==
        if old(count) == old(elements.Length) then 2 * old(elements.Length) else old(elements.Length)
    {
      InsertedAtEnd(Contents, value);
      var _ := Insert(count, value);
    }

    /**
     * Inserts `value` at `index`, shifting the later elements up; fails
     * with no change unless `0 <= index <= size`.
     */
    method Insert(index: int, value: T) returns (r: Outcome)
      requires Valid()
      modifies this, elements
      ensures Valid()
      ensures r == if 0 <= index <= old(count) then Pass else Fail(IndexOutOfBounds)
      ensures r.Pass? ==> Contents == Inserted(old(Contents), index, value) && peak == Max(old(peak), count)
      ensures r.Fail? ==> (Contents == old(Contents) && elements == old(elements)
        && elements[..] == old(elements[..]) && count == old(count) && peak == old(peak))
      ensures elements == old(elements) || fresh(elements)
      ensures elements.Length ==
        if r.Pass? && old(count) == old(elements.Length) then 2 * old(elements.Length) else old(elements.Length)
    {
      if index < 0 || index > count {
        return Fail(IndexOutOfBounds);
      }
      GrowthOnInsert(count, peak);
      if count == elements.Length {
        DoubleBackingArray();
      }
      ShiftUp(elements, index, count);
      elements[index] := Some(value);
      InsertedElements(Contents, index, value);
      Contents := Inserted(Contents, index, value);
      count := count + 1;
      peak := Max(peak, count);
      r := Pass;
    }

    /** Replaces the backing array by one twice as long holding the same slots. */
    method DoubleBackingArray()
      modifies this
      ensures fresh(elements) && elements.Length == 2 * old(elements.Length)
      ensures elements[..old(elements.Length)] == old(elements[..])
      ensures forall i :: old(elements.Length) <= i < elements.Length ==> elements[i] == None
      ensures count == old(count) && Contents == old(Contents) && peak == old(peak)
    {
      var larger := new Option<T>[elements.Length * 2](_ => None);
      forall i | 0 <= i < elements.Length {
        larger[i] := elements[i];
      }
      elements := larger;
    }

    /** The element at `index`, or an error unless `0 <= index < size`. */
    method Get(index: int) returns (r: Result<T>)
      requires Valid()
      ensures r == if 0 <= index < |Contents| then Ok(Contents[index]) else Err(IndexOutOfBounds)
    {
      if index < 0 || index >= count {
        return Err(IndexOutOfBounds);
      }
      r := Ok(elements[index].value);
    }

    /** The number of elements. */
    method Size() returns (n: nat)
      requires Valid()
      ensures n == |Contents|
    {
      n := count;
    }

    /** Replaces the element at `index`; fails with no change unless `0 <= index < size`. */
    method Set(index: int, value: T) returns (r: Outcome)
      requires Valid()
      modifies this, elements
      ensures Valid() && elements == old(elements) && count == old(count) && peak == old(peak)
      ensures r == if 0 <= index < old(count) then Pass else Fail(IndexOutOfBounds)
      ensures Contents == if r.Pass? then old(Contents)[index := value] else old(Contents)
      ensures forall j :: 0 <= j < elements.Length && j != index ==> elements[j] == old(elements[j])
    {
      if index < 0 || index >= count {
        return Fail(IndexOutOfBounds);
      }
      elements[index] := Some(value);
      Contents := Contents[index := value];
      r := Pass;
    }

    /**
     * Removes the element at `index`, shifting the later elements down and
     * clearing the freed slot; fails with no change unless `0 <= index < size`.
     */
    method RemoveAt(index: int) returns (r: Outcome)
      requires Valid()
      modifies this, elements
      ensures Valid() && elements == old(elements) && peak == old(peak)
      ensures r == if 0 <= index < old(count) then Pass else Fail(IndexOutOfBounds)
      ensures r.Pass? ==> Contents == Removed(old(Contents), index) && elements[count] == None
      ensures r.Fail? ==> Contents == old(Contents) && elements[..] == old(elements[..])
      ensures forall j :: old(count) <= j < elements.Length ==> elements[j] == old(elements[j])
    {
      if index < 0 || index >= count {
        return Fail(IndexOutOfBounds);
      }
      var i := index;
      while i < count - 1
        invariant index <= i <= count - 1
        invariant forall j :: 0 <= j < index ==> elements[j] == Some(Contents[j])
        invariant forall j :: index <= j < i ==> elements[j] == Some(Contents[j + 1])
        invariant forall j :: i <= j < elements.Length ==> elements[j] == old(elements[j])
        modifies elements
      {
        elements[i] := elements[i + 1];
        i := i + 1;
      }
      elements[count - 1] := None;
      Contents := Removed(Contents, index);
      count := count - 1;
      r := Pass;
    }

    /** Removes the first element equal to `value`; no change when there is none. */
    method RemoveValue(value: T)
      requires Valid()
      modifies this, elements
      ensures Valid() && elements == old(elements) && peak == old(peak)
      ensures Contents == WithoutFirst(old(Contents), value)
    {
      var i := 0;
      while i < count
        invariant 0 <= i <= count
        invariant forall j :: 0 <= j < i ==> Contents[j] != value
      {
        if elements[i] == Some(value) {
          assert IndexOf(Contents, value) == i;
          var _ := RemoveAt(i);
          return;
        }
        i := i + 1;
      }
    }

    /** Forgets every element; the backing array keeps its length and its slots. */
    method Clear()
      requires Valid()
      modifies this
      ensures Valid() && Contents == [] && elements == old(elements) && peak == old(peak)
    {
      count := 0;
      Contents := [];
    }

    /**
     * Sorts the elements by `cmp`, which must be the elements' `compareTo`;
     * the slots past the last element are untouched.
     */
    method Sort(cmp: (T, T) -> int)
      requires Valid()
      modifies this, elements
      ensures Valid() && elements == old(elements) && count == old(count) && peak == old(peak)
      ensures Contents == SortBy(old(Contents), cmp)
      ensures forall j :: count <= j < elements.Length ==> elements[j] == old(elements[j])
    {
      if count <= 0 {
        return;
      }
      var values := [];
      var i := 0;
      while i < count
        invariant 0 <= i <= count
        invariant values == Contents[..i]
      {
        values := values + [elements[i].value];
        i := i + 1;
      }
      assert values == Contents;
      var sorted := SortBy(values, cmp);
      SortByPermutes(values, cmp);
      forall j | 0 <= j < count {
        elements[j] := Some(sorted[j]);
      }
      Contents := sorted;
    }

    /** The text of the array, showing each element with `show`. */
    method ToString(show: T -> string) returns (s: string)
      requires Valid()
      ensures s == Rendering(Contents, show, elements.Length)
    {
      var result := "[";
      if count > 0 {
        result := result + show(elements[0].value);
      }
      var i := 1;
      while i < count
        invariant 1 <= i && (count > 0 ==> i <= count)
        invariant result == "[" + Joined(Contents[..if count == 0 then 0 else i], show)
      {
        assert Contents[..i + 1][..i] == Contents[..i];
        result := result + ", " + show(elements[i].value);
        i := i + 1;
      }
      assert Contents[..count] == Contents;
      s := result + "] backing array length: " + IntToString(elements.Length);
    }

    /** A forward iterator over the live contents, starting at the first element. */
    method Iterator() returns (it: ArrayIterator<T>)
      ensures fresh(it) && it.source == this && it.index == 0
    {
      it := new ArrayIterator(this);
    }
  }

  /** The iterator `iterator()` returns: it reads the array as it is at each call. */
  class ArrayIterator<T(==)> {
    const source: BetterDynamicArray<T>
    var index: nat

    constructor (source: BetterDynamicArray<T>)
      ensures this.source == source && index == 0
    {
      this.source := source;
      index := 0;
    }

    /** Whether an element remains at the current position. */
    method HasNext() returns (b: bool)
      requires source.Valid()
      ensures b <==> index < |source.Contents|
    {
      var n := source.Size();
      b := index < n;
    }

    /** The element at the current position, advancing past it; an error when none is left. */
    method Next() returns (r: Result<T>)
      requires source.Valid()
      modifies this
      ensures old(index) < |source.Contents| ==> r == Ok(source.Contents[old(index)]) && index == old(index) + 1
      ensures old(index) >= |source.Contents| ==> r == Err(NoSuchElement) && index == old(index)
    {
      var more := HasNext();
      if !more {
        return Err(NoSuchElement);
      }
      r := source.Get(index);
      index := index + 1;
    }
  }
}
