/** `Array.prototype.sort` with a comparator function. The sort JavaScript
    engines use is stable (ECMAScript 2019), so for a consistent comparator its
    result is the stable sort of the input, which `Sort` computes by insertion. */
module Sorting {

  /** A consistent comparator: the sign of `cmp(a, b)` is the opposite of the sign
      of `cmp(b, a)`, and "not after" is transitive. */
  ghost predicate IsComparator<T(!new)>(cmp: (T, T) -> int) {
    && (forall a, b :: cmp(a, b) < 0 <==> cmp(b, a) > 0)
    && (forall a, b, c {:trigger cmp(a, b), cmp(b, c), cmp(a, c)} :: cmp(a, b) <= 0 && cmp(b, c) <= 0 ==> cmp(a, c) <= 0)
  }

  /** No element is placed after one that the comparator puts after it. */
  ghost predicate Sorted<T>(s: seq<T>, cmp: (T, T) -> int) {
    forall i, j :: 0 <= i < j < |s| ==> cmp(s[i], s[j]) <= 0
  }

  /** Puts `x` in front of the first element it is not after. */
  function Insert<T>(x: T, s: seq<T>, cmp: (T, T) -> int): (r: seq<T>)
    ensures multiset(r) == multiset(s) + multiset{x}
    decreases |s|
  {
    if s == [] then [x]
    else if cmp(x, s[0]) <= 0 then [x] + s
    else
      assert s == [s[0]] + s[1..];
      [s[0]] + Insert(x, s[1..], cmp)
  }

  /** `[...s].sort(cmp)`. */
  function Sort<T>(s: seq<T>, cmp: (T, T) -> int): (r: seq<T>)
    ensures multiset(r) == multiset(s)
    decreases |s|
  {
    if s == [] then []
    else
      assert s == [s[0]] + s[1..];
      Insert(s[0], Sort(s[1..], cmp), cmp)
  }

  /** An element not after `x` nor after any element of `s` is not after any
      element of `Insert(x, s, cmp)`. */
  lemma HeadBeforeInsert<T>(h: T, x: T, s: seq<T>, cmp: (T, T) -> int)
    requires cmp(h, x) <= 0
    requires forall k :: 0 <= k < |s| ==> cmp(h, s[k]) <= 0
    ensures forall j :: 0 <= j < |Insert(x, s, cmp)| ==> cmp(h, Insert(x, s, cmp)[j]) <= 0
  {
    var r := Insert(x, s, cmp);
    forall j | 0 <= j < |r| ensures cmp(h, r[j]) <= 0 {
      assert r[j] in multiset(r);
      if r[j] != x {
        assert r[j] in multiset(s);
        var k :| 0 <= k < |s| && s[k] == r[j];
      }
    }
  }

  lemma {:induction false} InsertSorted<T(!new)>(x: T, s: seq<T>, cmp: (T, T) -> int)
    requires IsComparator(cmp)
    requires Sorted(s, cmp)
    ensures Sorted(Insert(x, s, cmp), cmp)
    decreases |s|
  {
    if s != [] && cmp(x, s[0]) > 0 {
      var tail := Insert(x, s[1..], cmp);
      InsertSorted(x, s[1..], cmp);
      assert forall k :: 0 <= k < |s[1..]| ==> s[1..][k] == s[k + 1];
      HeadBeforeInsert(s[0], x, s[1..], cmp);
      var r := [s[0]] + tail;
      assert forall j :: 1 <= j < |r| ==> r[j] == tail[j - 1];
    }
  }

  /** The sort orders its result by the comparator and is a permutation of its input. */
  lemma {:induction false} SortSorted<T(!new)>(s: seq<T>, cmp: (T, T) -> int)
    requires IsComparator(cmp)
    ensures Sorted(Sort(s, cmp), cmp)
    ensures multiset(Sort(s, cmp)) == multiset(s)
    decreases |s|
  {
    if s != [] {
      SortSorted(s[1..], cmp);
      InsertSorted(s[0], Sort(s[1..], cmp), cmp);
    }
  }

  /** Sorting an already sorted array changes nothing: in particular a
      comparator that always answers 0 keeps the input order. */
  lemma {:induction false} SortOfSorted<T>(s: seq<T>, cmp: (T, T) -> int)
    requires Sorted(s, cmp)
    ensures Sort(s, cmp) == s
    decreases |s|
  {
    if s != [] {
      assert Sorted(s[1..], cmp);
      SortOfSorted(s[1..], cmp);
      if |s| > 1 {
        assert cmp(s[0], s[1]) <= 0;
      }
      assert s == [s[0]] + s[1..];
    }
  }

  /** The comparator that orders in the opposite direction (`-cmp(a, b)`). */
  function Reversed<T>(cmp: (T, T) -> int): (T, T) -> int {
    (a, b) => -cmp(a, b)
  }

  lemma ReversedIsComparator<T(!new)>(cmp: (T, T) -> int)
    requires IsComparator(cmp)
    ensures IsComparator(Reversed(cmp))
  {
  }

  /** The comparator `cmp(key(a), key(b))` that compares by one field. */
  function OnKey<T, K>(cmp: (K, K) -> int, key: T -> K): (T, T) -> int {
    (a, b) => cmp(key(a), key(b))
  }

  lemma OnKeyIsComparator<T(!new), K(!new)>(cmp: (K, K) -> int, key: T -> K)
    requires IsComparator(cmp)
    ensures IsComparator(OnKey(cmp, key))
  {
  }

  /** The comparator that answers 0 for every pair: sorting by it keeps the input order. */
  function Indifferent<T>(): (T, T) -> int {
    (a, b) => 0
  }

  lemma IndifferentKeepsOrder<T(!new)>(s: seq<T>)
    ensures IsComparator(Indifferent<T>())
    ensures Sort(s, Indifferent<T>()) == s
  {
    SortOfSorted(s, Indifferent<T>());
  }

  // ---------------------------------------------------------------------------
  // A total order on strings

  /** Lexicographic comparison by code point: -1, 0 or 1. It stands in for
      `localeCompare`, whose order depends on the locale. */
  function LexCompare(x: string, y: string): (r: int)
    ensures -1 <= r <= 1
    decreases |x|
  {
    if x == [] && y == [] then 0
    else if x == [] then -1
    else if y == [] then 1
    else if x[0] < y[0] then -1
    else if x[0] > y[0] then 1
    else LexCompare(x[1..], y[1..])
  }

  /** Swapping the operands negates the answer, and 0 means equal strings. */
  lemma {:induction false} LexCompareAntisymmetric(x: string, y: string)
    ensures LexCompare(x, y) == -LexCompare(y, x)
    ensures LexCompare(x, y) == 0 <==> x == y
    decreases |x|
  {
    if x != [] && y != [] && x[0] == y[0] {
      LexCompareAntisymmetric(x[1..], y[1..]);
      assert x == [x[0]] + x[1..] && y == [y[0]] + y[1..];
    }
  }

  lemma {:induction false} LexCompareTransitive(x: string, y: string, z: string)
    requires LexCompare(x, y) <= 0 && LexCompare(y, z) <= 0
    ensures LexCompare(x, z) <= 0
    decreases |x|
  {
    if x != [] && y != [] && z != [] && x[0] == y[0] == z[0] {
      LexCompareTransitive(x[1..], y[1..], z[1..]);
    }
  }

  lemma LexCompareIsComparator()
    ensures IsComparator(LexCompare)
  {
    forall a, b ensures LexCompare(a, b) < 0 <==> LexCompare(b, a) > 0 {
      LexCompareAntisymmetric(a, b);
    }
    forall a, b, c | LexCompare(a, b) <= 0 && LexCompare(b, c) <= 0 ensures LexCompare(a, c) <= 0 {
      LexCompareTransitive(a, b, c);
    }
  }

  /** The comparator `key(a) - key(b)` of a numeric key. */
  function ByKey<T>(key: T -> int): (T, T) -> int {
    (a, b) => key(a) - key(b)
  }

  lemma ByKeyIsComparator<T(!new)>(key: T -> int)
    ensures IsComparator(ByKey(key))
  {
  }

  /** Sorted by `ByKey(key)` means the keys do not decrease. */
  lemma SortedByKey<T>(s: seq<T>, key: T -> int)
    ensures Sorted(s, ByKey(key)) <==> forall i, j :: 0 <= i < j < |s| ==> key(s[i]) <= key(s[j])
  {
  }
}
