/**
 * `Array.prototype.sort` with a comparator, as a stable insertion sort on values: each element,
 * taken in input order, is inserted before the first already-sorted element that compares
 * greater than it, so elements that compare equal keep their input order.
 */
module Sorting {

  /** Each element compares at most equal to the next one. */
  ghost predicate Sorted<T>(s: seq<T>, cmp: (T, T) -> int) {
    forall i :: 0 <= i < |s| - 1 ==> cmp(s[i], s[i + 1]) <= 0
  }

  /** On the elements of `s`, the sign of `cmp` flips when its arguments are swapped. */
  ghost predicate Antisymmetric<T>(cmp: (T, T) -> int, s: seq<T>) {
    forall a, b :: a in s && b in s && cmp(a, b) >= 0 ==> cmp(b, a) <= 0
  }

  /** On the elements of `s`, "compares at most equal" is transitive. */
  ghost predicate Transitive<T>(cmp: (T, T) -> int, s: seq<T>) {
    forall a, b, c :: a in s && b in s && c in s && cmp(a, b) <= 0 && cmp(b, c) <= 0 ==> cmp(a, c) <= 0
  }

  function Insert<T>(x: T, s: seq<T>, cmp: (T, T) -> int): (r: seq<T>)
    ensures multiset(r) == multiset(s) + multiset{x}
    ensures |r| == |s| + 1 && (r[0] == x || (s != [] && r[0] == s[0]))
  {
    if s == [] then [x]
    else if cmp(x, s[0]) < 0 then [x] + s
    else
      assert s == [s[0]] + s[1..];
      [s[0]] + Insert(x, s[1..], cmp)
  }

  function Sort<T>(s: seq<T>, cmp: (T, T) -> int): (r: seq<T>)
    ensures multiset(r) == multiset(s)
  {
    if s == [] then []
    else
      assert s == s[..|s| - 1] + [s[|s| - 1]];
      Insert(s[|s| - 1], Sort(s[..|s| - 1], cmp), cmp)
  }

  lemma InMultiset<T>(x: T, s: seq<T>, t: seq<T>)
    requires multiset(s) <= multiset(t) && x in s
    ensures x in t
  {
    assert x in multiset(s);
  }

  /** Inserting into a sorted list keeps it sorted. */
  lemma {:induction false} InsertSorted<T>(x: T, s: seq<T>, cmp: (T, T) -> int, all: seq<T>)
    requires Sorted(s, cmp) && Antisymmetric(cmp, all)
    requires x in all && forall k :: 0 <= k < |s| ==> s[k] in all
    ensures Sorted(Insert(x, s, cmp), cmp)
  {
    if s != [] && cmp(x, s[0]) >= 0 {
      var rest := Insert(x, s[1..], cmp);
      InsertSorted(x, s[1..], cmp, all);
      assert s[0] in all;
      var r := [s[0]] + rest;
      assert cmp(s[0], rest[0]) <= 0;
      forall i | 0 <= i < |r| - 1
        ensures cmp(r[i], r[i + 1]) <= 0
      {
        if i > 0 {
          assert r[i] == rest[i - 1] && r[i + 1] == rest[i];
        }
      }
    } else if s != [] {
      var r := [x] + s;
      forall i | 0 <= i < |r| - 1
        ensures cmp(r[i], r[i + 1]) <= 0
      {
        if i > 0 {
          assert r[i] == s[i - 1] && r[i + 1] == s[i];
        }
      }
    }
  }

  /** As long as swapping the arguments flips the comparator's sign on the input, the result is sorted. */
  lemma {:induction false} SortSorted<T>(s: seq<T>, cmp: (T, T) -> int)
    requires Antisymmetric(cmp, s)
    ensures Sorted(Sort(s, cmp), cmp)
  {
    if s != [] {
      var init := s[..|s| - 1];
      assert Antisymmetric(cmp, init) by {
        forall a | a in init
          ensures a in s
        {
        }
      }
      SortSorted(init, cmp);
      var sorted := Sort(init, cmp);
      forall k | 0 <= k < |sorted|
        ensures sorted[k] in s
      {
        InMultiset(sorted[k], sorted, init);
      }
      InsertSorted(s[|s| - 1], sorted, cmp, s);
    }
  }

  /** With a transitive comparator, every earlier element of a sorted list compares at most equal to every later one. */
  lemma {:induction false} SortedPairwise<T>(s: seq<T>, cmp: (T, T) -> int, i: int, j: int)
    requires Sorted(s, cmp) && Transitive(cmp, s)
    requires 0 <= i < j < |s|
    ensures cmp(s[i], s[j]) <= 0
    decreases j - i
  {
    if j > i + 1 {
      SortedPairwise(s, cmp, i, j - 1);
      assert s[i] in s && s[j - 1] in s && s[j] in s;
    }
  }

  /** A comparator that finds all elements equal leaves the order untouched (the sort is stable). */
  lemma {:induction false} SortAllEqual<T>(s: seq<T>, cmp: (T, T) -> int)
    requires forall a, b :: a in s && b in s ==> cmp(a, b) == 0
    ensures Sort(s, cmp) == s
  {
    if s != [] {
      var init, x := s[..|s| - 1], s[|s| - 1];
      assert s == init + [x];
      forall a, b | a in init && b in init
        ensures cmp(a, b) == 0
      {
        assert a in s && b in s;
      }
      SortAllEqual(init, cmp);
      forall k | 0 <= k < |init|
        ensures cmp(x, init[k]) >= 0
      {
        assert init[k] in s;
      }
      InsertAtEndWhenNotLess(x, init, cmp);
    }
  }

  /** A list already in order, each element comparing at least equal to every earlier one, is left as it is. */
  lemma {:induction false} SortOfOrdered<T>(s: seq<T>, cmp: (T, T) -> int)
    requires forall i, j :: 0 <= i < j < |s| ==> cmp(s[j], s[i]) >= 0
    ensures Sort(s, cmp) == s
  {
    if s != [] {
      var init, x := s[..|s| - 1], s[|s| - 1];
      assert s == init + [x];
      forall i, j | 0 <= i < j < |init|
        ensures cmp(init[j], init[i]) >= 0
      {
        assert init[i] == s[i] && init[j] == s[j];
      }
      SortOfOrdered(init, cmp);
      forall k | 0 <= k < |init|
        ensures cmp(x, init[k]) >= 0
      {
        assert init[k] == s[k];
      }
      InsertAtEndWhenNotLess(x, init, cmp);
    }
  }

  lemma {:induction false} InsertAtEndWhenNotLess<T>(x: T, s: seq<T>, cmp: (T, T) -> int)
    requires forall k :: 0 <= k < |s| ==> cmp(x, s[k]) >= 0
    ensures Insert(x, s, cmp) == s + [x]
  {
    if s != [] {
      InsertAtEndWhenNotLess(x, s[1..], cmp);
      assert s == [s[0]] + s[1..];
    }
  }
}
