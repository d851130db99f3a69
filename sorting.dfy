/**
 * A stable sort by a Java-style comparator, standing for the library
 * `java.util.Arrays.sort(Object[])` that `BetterDynamicArray.sort` calls.
 * That library sort is documented as stable; insertion sort has the same
 * observable result, so it serves as the reference definition here.
 */
module Sorting {

  function Sign(x: int): int {
    if x < 0 then -1 else if x == 0 then 0 else 1
  }

  /**
   * The contract of `Comparable.compareTo` on the values in `dom`: the sign
   * flips when the arguments are swapped, and "not after" is transitive.
   */
  ghost predicate IsTotalPreorderOn<T>(cmp: (T, T) -> int, dom: set<T>) {
    && (forall x, y | x in dom && y in dom :: Sign(cmp(x, y)) == -Sign(cmp(y, x)))
    && (forall x, y, z {:trigger x in dom, y in dom, z in dom}
          | x in dom && y in dom && z in dom ::
          cmp(x, y) <= 0 && cmp(y, z) <= 0 ==> cmp(x, z) <= 0)
  }

  /** Every element of `s` is in `dom`. */
  ghost predicate Within<T>(s: seq<T>, dom: set<T>) {
    forall i :: 0 <= i < |s| ==> s[i] in dom
  }

  lemma WithinPermutation<T>(s: seq<T>, r: seq<T>, dom: set<T>)
    requires Within(s, dom) && multiset(r) == multiset(s)
    ensures Within(r, dom)
  {
    forall i | 0 <= i < |r| ensures r[i] in dom {
      assert r[i] in multiset(s);
      var j :| 0 <= j < |s| && s[j] == r[i];
    }
  }

  /** Every element is not after any later one. */
  ghost predicate SortedBy<T>(s: seq<T>, cmp: (T, T) -> int) {
    forall i, j :: 0 <= i < j < |s| ==> cmp(s[i], s[j]) <= 0
  }

  /** The elements of `s` that compare equal to `z`, in their order in `s`. */
  function Equivalents<T>(s: seq<T>, z: T, cmp: (T, T) -> int): seq<T> {
    if s == [] then []
    else (if cmp(s[0], z) == 0 then [s[0]] else []) + Equivalents(s[1..], z, cmp)
  }

  /** Insert `x` after every element of `t` that is not after it. */
  function Insert<T>(t: seq<T>, x: T, cmp: (T, T) -> int): seq<T>
  {
    if t == [] then [x]
    else if cmp(t[0], x) <= 0 then [t[0]] + Insert(t[1..], x, cmp)
    else [x] + t
  }

  /** Insertion sort: insert each element, left to right, into the sorted prefix. */
  function SortBy<T>(s: seq<T>, cmp: (T, T) -> int): seq<T>
  {
    if s == [] then [] else Insert(SortBy(s[..|s| - 1], cmp), s[|s| - 1], cmp)
  }

  lemma {:induction false} InsertPermutes<T>(t: seq<T>, x: T, cmp: (T, T) -> int)
    ensures multiset(Insert(t, x, cmp)) == multiset(t) + multiset{x}
  {
    if t != [] && cmp(t[0], x) <= 0 {
      assert t == [t[0]] + t[1..];
      InsertPermutes(t[1..], x, cmp);
    }
  }

  /** The sort's result is a permutation of its input. */
  lemma {:induction false} SortByPermutes<T>(s: seq<T>, cmp: (T, T) -> int)
    ensures multiset(SortBy(s, cmp)) == multiset(s)
    ensures |SortBy(s, cmp)| == |s|
  {
    if s != [] {
      var p := s[..|s| - 1];
      assert s == p + [s[|s| - 1]];
      SortByPermutes(p, cmp);
      InsertPermutes(SortBy(p, cmp), s[|s| - 1], cmp);
    }
  }

  /** A sequence whose head is not after any later element, and whose tail is sorted, is sorted. */
  lemma ConsSorted<T>(h: T, u: seq<T>, cmp: (T, T) -> int)
    requires SortedBy(u, cmp) && forall i :: 0 <= i < |u| ==> cmp(h, u[i]) <= 0
    ensures SortedBy([h] + u, cmp)
  {
    var r := [h] + u;
    forall i, j | 0 <= i < j < |r| ensures cmp(r[i], r[j]) <= 0 {
      assert r[j] == u[j - 1];
      if i > 0 {
        assert r[i] == u[i - 1];
      }
    }
  }

  /** An `x` that sorts before the head of a sorted `t` sorts before all of `t`. */
  lemma BeforeHead<T>(t: seq<T>, x: T, cmp: (T, T) -> int, dom: set<T>)
    requires IsTotalPreorderOn(cmp, dom) && Within(t, dom) && x in dom && SortedBy(t, cmp)
    requires t != [] && cmp(t[0], x) > 0
    ensures forall i :: 0 <= i < |t| ==> cmp(x, t[i]) <= 0
  {
    assert Sign(cmp(x, t[0])) == -Sign(cmp(t[0], x));
    forall i | 0 <= i < |t| ensures cmp(x, t[i]) <= 0 {
      assert t[0] in dom && t[i] in dom;
      if i > 0 {
        assert cmp(t[0], t[i]) <= 0;
      }
    }
  }

  /** Inserting into a sorted sequence keeps it sorted. */
  lemma {:induction false} InsertSorted<T>(t: seq<T>, x: T, cmp: (T, T) -> int, dom: set<T>)
    requires IsTotalPreorderOn(cmp, dom) && Within(t, dom) && x in dom && SortedBy(t, cmp)
    ensures SortedBy(Insert(t, x, cmp), cmp)
  {
    if t != [] {
      if cmp(t[0], x) <= 0 {
        var rest := Insert(t[1..], x, cmp);
        InsertSorted(t[1..], x, cmp, dom);
        InsertPermutes(t[1..], x, cmp);
        forall i | 0 <= i < |rest| ensures cmp(t[0], rest[i]) <= 0 {
          assert rest[i] in multiset(rest);
          if rest[i] != x {
            assert rest[i] in t[1..];
          }
        }
        ConsSorted(t[0], rest, cmp);
      } else {
        BeforeHead(t, x, cmp, dom);
        ConsSorted(x, t, cmp);
      }
    }
  }

  /** The sort's result is in order. */
  lemma {:induction false} SortBySorted<T>(s: seq<T>, cmp: (T, T) -> int, dom: set<T>)
    requires IsTotalPreorderOn(cmp, dom) && Within(s, dom)
    ensures SortedBy(SortBy(s, cmp), cmp)
  {
    if s != [] {
      SortBySorted(s[..|s| - 1], cmp, dom);
      SortByPermutes(s[..|s| - 1], cmp);
      WithinPermutation(s[..|s| - 1], SortBy(s[..|s| - 1], cmp), dom);
      InsertSorted(SortBy(s[..|s| - 1], cmp), s[|s| - 1], cmp, dom);
    }
  }

  lemma {:induction false} EquivalentsConcat<T>(a: seq<T>, b: seq<T>, z: T, cmp: (T, T) -> int)
    ensures Equivalents(a + b, z, cmp) == Equivalents(a, z, cmp) + Equivalents(b, z, cmp)
  {
    if a != [] {
      assert (a + b)[1..] == a[1..] + b;
      EquivalentsConcat(a[1..], b, z, cmp);
    } else {
      assert a + b == b;
    }
  }

  lemma {:induction false} EquivalentsNone<T>(s: seq<T>, z: T, cmp: (T, T) -> int)
    requires forall i :: 0 <= i < |s| ==> cmp(s[i], z) != 0
    ensures Equivalents(s, z, cmp) == []
  {
    if s != [] {
      EquivalentsNone(s[1..], z, cmp);
    }
  }

  lemma EquivalentsSnoc<T>(s: seq<T>, z: T, cmp: (T, T) -> int)
    requires s != []
    ensures Equivalents(s, z, cmp) == Equivalents(s[..|s| - 1], z, cmp)
      + (if cmp(s[|s| - 1], z) == 0 then [s[|s| - 1]] else [])
  {
    var x := s[|s| - 1];
    assert s == s[..|s| - 1] + [x];
    EquivalentsSingleton(x, z, cmp);
    EquivalentsConcat(s[..|s| - 1], [x], z, cmp);
  }

  lemma PrefixWithin<T>(s: seq<T>, dom: set<T>)
    requires s != [] && Within(s, dom)
    ensures Within(s[..|s| - 1], dom) && s[|s| - 1] in dom
  {
  }

  /** How many leading elements of `t` are not after `x`. */
  function InsertionPoint<T>(t: seq<T>, x: T, cmp: (T, T) -> int): (k: nat)
    ensures k <= |t|
  {
    if t != [] && cmp(t[0], x) <= 0 then 1 + InsertionPoint(t[1..], x, cmp) else 0
  }

  /** `Insert` places `x` at the insertion point, before the first element after it. */
  lemma {:induction false} InsertAt<T>(t: seq<T>, x: T, cmp: (T, T) -> int)
    ensures var k := InsertionPoint(t, x, cmp);
      Insert(t, x, cmp) == t[..k] + [x] + t[k..] && (k < |t| ==> cmp(t[k], x) > 0)
  {
    if t != [] && cmp(t[0], x) <= 0 {
      InsertAt(t[1..], x, cmp);
      var k := InsertionPoint(t[1..], x, cmp);
      assert t[..k + 1] == [t[0]] + t[1..][..k];
      assert t[k + 1..] == t[1..][k..];
    }
  }

  /** Nothing in a sorted `u` whose first element is after `x` is equivalent to `z ~ x`. */
  lemma AfterInsertionPoint<T>(u: seq<T>, x: T, z: T, cmp: (T, T) -> int, dom: set<T>)
    requires IsTotalPreorderOn(cmp, dom) && Within(u, dom) && x in dom && z in dom
    requires SortedBy(u, cmp) && u != [] && cmp(u[0], x) > 0 && cmp(x, z) == 0
    ensures Equivalents(u, z, cmp) == []
  {
    forall i | 0 <= i < |u| ensures cmp(u[i], z) != 0 {
      assert u[0] in dom && u[i] in dom;
      assert cmp(u[0], u[i]) <= 0;
    }
    EquivalentsNone(u, z, cmp);
  }

  lemma SuffixSortedWithin<T>(t: seq<T>, k: nat, cmp: (T, T) -> int, dom: set<T>)
    requires k <= |t| && SortedBy(t, cmp) && Within(t, dom)
    ensures SortedBy(t[k..], cmp) && Within(t[k..], dom)
  {
    var u := t[k..];
    forall i | 0 <= i < |u| ensures u[i] in dom { assert u[i] == t[k + i]; }
    forall i, j | 0 <= i < j < |u| ensures cmp(u[i], u[j]) <= 0 {
      assert u[i] == t[k + i] && u[j] == t[k + j];
    }
  }

  /** Where the equivalents of `z` go when `x` is inserted (no ordering needed). */
  lemma InsertEquivalents<T>(t: seq<T>, x: T, z: T, cmp: (T, T) -> int)
    ensures var k := InsertionPoint(t, x, cmp);
      && Equivalents(Insert(t, x, cmp), z, cmp)
         == Equivalents(t[..k], z, cmp) + (if cmp(x, z) == 0 then [x] else []) + Equivalents(t[k..], z, cmp)
      && Equivalents(t, z, cmp) == Equivalents(t[..k], z, cmp) + Equivalents(t[k..], z, cmp)
  {
    var k := InsertionPoint(t, x, cmp);
    var before, after := t[..k], t[k..];
    InsertAt(t, x, cmp);
    EquivalentsSingleton(x, z, cmp);
    EquivalentsConcat(before, [x], z, cmp);
    EquivalentsConcat(before + [x], after, z, cmp);
    assert t == before + after;
    EquivalentsConcat(before, after, z, cmp);
  }

  lemma EquivalentsSingleton<T>(x: T, z: T, cmp: (T, T) -> int)
    ensures Equivalents([x], z, cmp) == if cmp(x, z) == 0 then [x] else []
  {
    assert [x][1..] == [];
  }

  /** Past the insertion point of `x`, a sorted `t` holds nothing equivalent to `x`. */
  lemma NothingEquivalentAfter<T>(t: seq<T>, x: T, z: T, cmp: (T, T) -> int, dom: set<T>)
    requires IsTotalPreorderOn(cmp, dom) && Within(t, dom) && x in dom && z in dom
    requires SortedBy(t, cmp) && cmp(x, z) == 0
    ensures Equivalents(t[InsertionPoint(t, x, cmp)..], z, cmp) == []
  {
    var k := InsertionPoint(t, x, cmp);
    if k < |t| {
      InsertAt(t, x, cmp);
      SuffixSortedWithin(t, k, cmp, dom);
      AfterInsertionPoint(t[k..], x, z, cmp, dom);
    }
  }

  /** Inserting `x` into a sorted sequence puts it after every element equivalent to it. */
  lemma InsertStable<T>(t: seq<T>, x: T, z: T, cmp: (T, T) -> int, dom: set<T>)
    requires IsTotalPreorderOn(cmp, dom) && Within(t, dom) && x in dom && z in dom
    requires SortedBy(t, cmp)
    ensures Equivalents(Insert(t, x, cmp), z, cmp)
         == Equivalents(t, z, cmp) + (if cmp(x, z) == 0 then [x] else [])
  {
    InsertEquivalents(t, x, z, cmp);
    if cmp(x, z) == 0 {
      NothingEquivalentAfter(t, x, z, cmp, dom);
    }
  }

  /**
   * Stability: within every class of equivalent elements, the sort keeps
   * the order the elements had before.
   */
  lemma {:induction false} SortByStable<T>(s: seq<T>, z: T, cmp: (T, T) -> int, dom: set<T>)
    requires IsTotalPreorderOn(cmp, dom) && Within(s, dom) && z in dom
    ensures Equivalents(SortBy(s, cmp), z, cmp) == Equivalents(s, z, cmp)
  {
    if s != [] {
      var p, x := s[..|s| - 1], s[|s| - 1];
      PrefixWithin(s, dom);
      SortByStable(p, z, cmp, dom);
      SortBySorted(p, cmp, dom);
      SortByPermutes(p, cmp);
      WithinPermutation(p, SortBy(p, cmp), dom);
      InsertStable(SortBy(p, cmp), x, z, cmp, dom);
      EquivalentsSnoc(s, z, cmp);
    }
  }
}
