/**
 * The collection operations the screens are built from: `Array.prototype.filter`, the
 * copy-and-toggle of a `Set`, the `splice(indexOf(x), 1)`/`push(x)` toggle of a level list,
 * the `filter(g => g !== x)`/spread toggle of a grade list, and concatenation of a family of
 * lists indexed by grade.
 */
module Collections {

  // ---------------------------------------------------------------------------
  // filter
  // ---------------------------------------------------------------------------

  /** `s.filter(p)`: the elements of `s` satisfying `p`, in their original order. */
  function Filter<T(==,!new)>(s: seq<T>, p: T -> bool): (r: seq<T>)
    ensures |r| <= |s|
    ensures forall x :: x in r <==> x in s && p(x)
    ensures forall k :: 0 <= k < |r| ==> p(r[k])
  {
    if s == [] then []
    else
      assert s == s[..|s| - 1] + [s[|s| - 1]];
      Filter(s[..|s| - 1], p) + (if p(s[|s| - 1]) then [s[|s| - 1]] else [])
  }

  /** One more element of `s` extends the filtered prefix by that element when it passes. */
  lemma FilterStep<T(!new)>(s: seq<T>, i: nat, p: T -> bool)
    requires i < |s|
    ensures Filter(s[..i + 1], p) == if p(s[i]) then Filter(s[..i], p) + [s[i]] else Filter(s[..i], p)
  {
    assert s[..i + 1][..i] == s[..i];
  }

  /** Filtering distributes over concatenation, so order is preserved piece by piece. */
  lemma {:induction false} FilterAppend<T(!new)>(a: seq<T>, b: seq<T>, p: T -> bool)
    ensures Filter(a + b, p) == Filter(a, p) + Filter(b, p)
    decreases |b|
  {
    if b == [] {
      assert a + b == a;
    } else {
      var b' := b[..|b| - 1];
      assert (a + b)[..|a + b| - 1] == a + b';
      assert (a + b)[|a + b| - 1] == b[|b| - 1];
      FilterAppend(a, b', p);
    }
  }

  /** Nothing is dropped when every element passes. */
  lemma {:induction false} FilterKeepsAll<T(!new)>(s: seq<T>, p: T -> bool)
    requires forall k :: 0 <= k < |s| ==> p(s[k])
    ensures Filter(s, p) == s
  {
    if s != [] {
      var init, last := s[..|s| - 1], s[|s| - 1];
      forall k | 0 <= k < |init|
        ensures p(init[k])
      {
        assert init[k] == s[k];
      }
      FilterKeepsAll(init, p);
      assert p(last);
      assert Filter(s, p) == Filter(init, p) + [last];
      assert s == init + [last];
    }
  }

  /** What `p` keeps and what it drops add up to the whole list. */
  lemma {:induction false} FilterSplitsLength<T(!new)>(s: seq<T>, p: T -> bool, q: T -> bool)
    requires forall x :: q(x) == !p(x)
    ensures |Filter(s, p)| + |Filter(s, q)| == |s|
  {
    if s != [] {
      FilterSplitsLength(s[..|s| - 1], p, q);
    }
  }

  /** A list where nothing passes filters to nothing. */
  lemma FilterNone<T(!new)>(s: seq<T>, p: T -> bool)
    requires forall k :: 0 <= k < |s| ==> !p(s[k])
    ensures Filter(s, p) == []
  {
  }

  /** `Array.prototype.findIndex`: the first position whose element satisfies `p`, or -1. */
  function FindIndex<T>(s: seq<T>, p: T -> bool): (i: int)
    ensures -1 <= i < |s|
    ensures i == -1 <==> forall j :: 0 <= j < |s| ==> !p(s[j])
    ensures i >= 0 ==> p(s[i]) && forall j :: 0 <= j < i ==> !p(s[j])
  {
    if s == [] then -1
    else if p(s[0]) then 0
    else
      var r := FindIndex(s[1..], p);
      if r == -1 then -1 else r + 1
  }

  // ---------------------------------------------------------------------------
  // Set toggle: new Set(prev); has(x) ? delete(x) : add(x)
  // ---------------------------------------------------------------------------

  /** The set with the membership of `x`, and nothing else, flipped. */
  function Flip<T(==,!new)>(s: set<T>, x: T): (r: set<T>)
    ensures x in r <==> x !in s
    ensures forall y :: y != x ==> (y in r <==> y in s)
  {
    if x in s then s - {x} else s + {x}
  }

  lemma FlipTwice<T(!new)>(s: set<T>, x: T)
    ensures Flip(Flip(s, x), x) == s
  {
  }

  // ---------------------------------------------------------------------------
  // List toggle by splice/push
  // ---------------------------------------------------------------------------

  predicate NoDup<T(==,!new)>(s: seq<T>) {
    forall i, j :: 0 <= i < j < |s| ==> s[i] != s[j]
  }

  /** `indexOf(x)`: the first position of `x`. */
  function IndexOf<T(==,!new)>(s: seq<T>, x: T): (i: nat)
    requires x in s
    ensures i < |s| && s[i] == x && x !in s[..i]
  {
    if s[0] == x then 0 else 1 + IndexOf(s[1..], x)
  }

  /**
   * `copy = [...s]; copy.includes(x) ? copy.splice(copy.indexOf(x), 1) : copy.push(x)`:
   * the first occurrence of `x` is cut out, or `x` is appended when it is absent.
   */
  function ToggleFirst<T(==,!new)>(s: seq<T>, x: T): (r: seq<T>)
  {
    if x in s then s[..IndexOf(s, x)] + s[IndexOf(s, x) + 1..] else s + [x]
  }

  /** The toggle removes or adds exactly one copy of `x`. */
  lemma ToggleFirstCounts<T(!new)>(s: seq<T>, x: T)
    ensures x in s ==> multiset(ToggleFirst(s, x)) == multiset(s) - multiset{x}
    ensures x !in s ==> multiset(ToggleFirst(s, x)) == multiset(s) + multiset{x}
  {
    if x in s {
      var i := IndexOf(s, x);
      assert s == s[..i] + [x] + s[i + 1..];
    }
  }

  /** On a list without duplicates the toggle flips the membership of `x`, and only of `x`. */
  lemma ToggleFirstFlips<T(!new)>(s: seq<T>, x: T)
    requires NoDup(s)
    ensures var r := ToggleFirst(s, x);
      NoDup(r) && (x in r <==> x !in s) && forall y :: y != x ==> (y in r <==> y in s)
  {
    ToggleFirstCounts(s, x);
    var r := ToggleFirst(s, x);
    if x in s {
      MultiplicityNoDup(s, x);
      RemoveAtNoDup(s, IndexOf(s, x));
    }
    forall y
      ensures (y in r <==> y in multiset(r)) && (y in s <==> y in multiset(s))
    {
    }
  }

  /** Cutting one element out of a list without duplicates leaves a list without duplicates. */
  lemma RemoveAtNoDup<T(!new)>(s: seq<T>, i: nat)
    requires NoDup(s) && i < |s|
    ensures NoDup(s[..i] + s[i + 1..])
  {
    var r := s[..i] + s[i + 1..];
    forall a, b | 0 <= a < b < |r|
      ensures r[a] != r[b]
    {
      var a' := if a < i then a else a + 1;
      var b' := if b < i then b else b + 1;
      assert r[a] == s[a'] && r[b] == s[b'];
    }
  }

  lemma {:induction false} MultiplicityNoDup<T(!new)>(s: seq<T>, x: T)
    requires NoDup(s) && x in s
    ensures multiset(s)[x] == 1
  {
    assert s == [s[0]] + s[1..];
    if s[0] == x {
      assert x !in s[1..];
    } else {
      MultiplicityNoDup(s[1..], x);
    }
  }

  /** Toggling twice gives back the same elements (their order may change). */
  lemma ToggleFirstTwice<T(!new)>(s: seq<T>, x: T)
    requires NoDup(s)
    ensures forall y :: y in ToggleFirst(ToggleFirst(s, x), x) <==> y in s
  {
    ToggleFirstFlips(s, x);
    ToggleFirstFlips(ToggleFirst(s, x), x);
  }

  /**
   * Python `list(dict.fromkeys(s))`: the elements of `s` with every repeat after its first
   * occurrence dropped.
   */
  function Dedupe<T(==,!new)>(s: seq<T>): (r: seq<T>)
    ensures NoDup(r)
    ensures forall x :: x in r <==> x in s
  {
    if s == [] then []
    else
      var d := Dedupe(s[..|s| - 1]);
      var x := s[|s| - 1];
      assert s == s[..|s| - 1] + [x];
      if x in d then d else d + [x]
  }

  /** The order is that of first occurrences: after an element, only elements first seen later follow. */
  lemma {:induction false} DedupeKeepsFirstOrder<T(!new)>(s: seq<T>, i: nat, j: nat)
    requires i < j < |Dedupe(s)|
    ensures IndexOf(s, Dedupe(s)[i]) < IndexOf(s, Dedupe(s)[j])
  {
    var init, x := s[..|s| - 1], s[|s| - 1];
    var d := Dedupe(init);
    assert s == init + [x];
    var a, b := Dedupe(s)[i], Dedupe(s)[j];
    if j < |d| {
      DedupeKeepsFirstOrder(init, i, j);
      IndexOfPrefix(init, x, a);
      IndexOfPrefix(init, x, b);
    } else {
      assert b == x && x !in init && a in init;
      IndexOfPrefix(init, x, a);
      IndexOfLast(init, x);
    }
  }

  lemma IndexOfPrefix<T(!new)>(init: seq<T>, x: T, a: T)
    requires a in init
    ensures IndexOf(init + [x], a) == IndexOf(init, a)
  {
    var k := IndexOf(init, a);
    assert (init + [x])[k] == a;
    assert (init + [x])[..k] == init[..k];
    IndexOfFirst(init + [x], a, k);
  }

  lemma IndexOfLast<T(!new)>(init: seq<T>, x: T)
    requires x !in init
    ensures IndexOf(init + [x], x) == |init|
  {
    assert (init + [x])[..|init|] == init;
    IndexOfFirst(init + [x], x, |init|);
  }

  /** The first position holding `x` is the position `indexOf` reports. */
  lemma {:induction false} IndexOfFirst<T(!new)>(s: seq<T>, x: T, k: nat)
    requires k < |s| && s[k] == x && x !in s[..k]
    ensures IndexOf(s, x) == k
  {
    if k > 0 {
      assert s[0] in s[..k];
      assert s[1..][..k - 1] == s[1..k];
      assert s[1..k] == s[..k][1..];
      IndexOfFirst(s[1..], x, k - 1);
    }
  }

  // ---------------------------------------------------------------------------
  // List toggle by filter/spread
  // ---------------------------------------------------------------------------

  /** `s.includes(x) ? s.filter(g => g !== x) : [...s, x]`. */
  function ToggleAll<T(==,!new)>(s: seq<T>, x: T): (r: seq<T>)
  {
    if x in s then Filter(s, (g: T) => g != x) else s + [x]
  }

  /** Every copy of `x` goes, or one is appended; nothing else changes membership. */
  lemma ToggleAllFlips<T(!new)>(s: seq<T>, x: T)
    ensures var r := ToggleAll(s, x);
      (x in r <==> x !in s) && forall y :: y != x ==> (y in r <==> y in s)
  {
  }

  /** Adding a grade and then removing it restores the list exactly. */
  lemma ToggleAllTwiceFromAbsent<T(!new)>(s: seq<T>, x: T)
    requires x !in s
    ensures ToggleAll(ToggleAll(s, x), x) == s
  {
    var r := s + [x];
    FilterAppend(s, [x], (g: T) => g != x);
    FilterKeepsAll(s, (g: T) => g != x);
    assert Filter([x], (g: T) => g != x) == [];
  }

  // ---------------------------------------------------------------------------
  // Concatenation of a family of lists
  // ---------------------------------------------------------------------------

  /** `data[g]`, or nothing when grade `g` is missing. */
  function Part<T(==,!new)>(data: map<int, seq<T>>, g: int): seq<T> {
    if g in data then data[g] else []
  }

  /** The lists for `lo, lo+1, …, hi` in that order, missing grades skipped. */
  function Range<T(==,!new)>(data: map<int, seq<T>>, lo: int, hi: int): (r: seq<T>)
    decreases hi - lo
  {
    if hi < lo then [] else Range(data, lo, hi - 1) + Part(data, hi)
  }

  /** An element is in the range exactly when some grade in `lo..hi` holds it. */
  lemma {:induction false} RangeMembers<T(!new)>(data: map<int, seq<T>>, lo: int, hi: int, x: T)
    ensures x in Range(data, lo, hi) <==> exists g :: lo <= g <= hi && g in data && x in data[g]
    decreases hi - lo
  {
    if hi >= lo {
      RangeMembers(data, lo, hi - 1, x);
      if x in Part(data, hi) {
        assert hi in data && x in data[hi];
      }
    }
  }

  /** The `for (grade = lo; grade <= hi; grade++) if (data[grade]) all.push(...data[grade])` loop. */
  method ConcatRange<T(!new)>(data: map<int, seq<T>>, lo: int, hi: int) returns (all: seq<T>)
    ensures all == Range(data, lo, hi)
    ensures forall x :: x in all <==> exists g :: lo <= g <= hi && g in data && x in data[g]
  {
    all := [];
    var grade := lo;
    while grade <= hi
      invariant lo <= grade <= if lo <= hi then hi + 1 else lo
      invariant all == Range(data, lo, grade - 1)
    {
      if grade in data {
        all := all + data[grade];
      }
      grade := grade + 1;
    }
    assert grade - 1 == hi || hi < lo;
    forall x
      ensures x in all <==> exists g :: lo <= g <= hi && g in data && x in data[g]
    {
      RangeMembers(data, lo, hi, x);
    }
  }

  /** The lists for the grades of `gs`, in the order `gs` lists them, missing grades skipped. */
  function Concat<T(==,!new)>(data: map<int, seq<T>>, gs: seq<int>): (r: seq<T>)
  {
    if gs == [] then [] else Concat(data, gs[..|gs| - 1]) + Part(data, gs[|gs| - 1])
  }

  lemma {:induction false} ConcatMembers<T(!new)>(data: map<int, seq<T>>, gs: seq<int>, x: T)
    ensures x in Concat(data, gs) <==> exists g :: g in gs && g in data && x in data[g]
  {
    if gs != [] {
      var init := gs[..|gs| - 1];
      ConcatMembers(data, init, x);
      assert gs == init + [gs[|gs| - 1]];
      if x in Part(data, gs[|gs| - 1]) {
        assert gs[|gs| - 1] in gs;
      }
      forall g | g in gs && g in data && x in data[g] && g != gs[|gs| - 1]
        ensures g in init
      {
      }
    }
  }

  // ---------------------------------------------------------------------------
  // Numbered rows and batches, as the Python scripts read and process them
  // ---------------------------------------------------------------------------

  /**
   * A reading loop that counts every row from 1 and keeps some: `item(rows[p - 1], p)` for each
   * position `p` whose row passes `keep`, in reading order.
   */
  function KeepNumbered<R, I>(rows: seq<R>, keep: R -> bool, item: (R, nat) -> I): seq<I>
  {
    if rows == [] then []
    else
      var row := rows[|rows| - 1];
      KeepNumbered(rows[..|rows| - 1], keep, item) + (if keep(row) then [item(row, |rows|)] else [])
  }

  lemma KeepNumberedStep<R, I>(rows: seq<R>, i: nat, keep: R -> bool, item: (R, nat) -> I)
    requires i < |rows|
    ensures KeepNumbered(rows[..i + 1], keep, item)
      == KeepNumbered(rows[..i], keep, item) + (if keep(rows[i]) then [item(rows[i], i + 1)] else [])
  {
    assert rows[..i + 1][..i] == rows[..i];
  }

  /**
   * `items` are the items of the rows at the 1-based positions `ps`, each of which passes
   * `keep`, and the positions strictly increase.
   */
  predicate NumberedAt<R, I(==)>(ps: seq<nat>, rows: seq<R>, keep: R -> bool, item: (R, nat) -> I, items: seq<I>) {
    |ps| == |items|
    && (forall k :: 0 <= k < |ps| ==>
      (1 <= ps[k] <= |rows| && keep(rows[ps[k] - 1]) && items[k] == item(rows[ps[k] - 1], ps[k])))
    && forall i, j :: 0 <= i < j < |ps| ==> ps[i] < ps[j]
  }

  lemma NumberedAtPrefix<R, I>(ps: seq<nat>, init: seq<R>, rows: seq<R>, keep: R -> bool, item: (R, nat) -> I, items: seq<I>)
    requires NumberedAt(ps, init, keep, item, items) && init <= rows
    ensures NumberedAt(ps, rows, keep, item, items)
    ensures forall k :: 0 <= k < |ps| ==> ps[k] <= |init|
  {
    forall k | 0 <= k < |ps|
      ensures rows[ps[k] - 1] == init[ps[k] - 1]
    {
    }
  }

  lemma NumberedAtSnoc<R, I>(ps: seq<nat>, rows: seq<R>, keep: R -> bool, item: (R, nat) -> I, items: seq<I>)
    requires NumberedAt(ps, rows, keep, item, items) && rows != [] && keep(rows[|rows| - 1])
    requires forall k :: 0 <= k < |ps| ==> ps[k] < |rows|
    ensures NumberedAt(ps + [|rows|], rows, keep, item, items + [item(rows[|rows| - 1], |rows|)])
  {
    var ps', items' := ps + [|rows|], items + [item(rows[|rows| - 1], |rows|)];
    forall k | 0 <= k < |ps'|
      ensures 1 <= ps'[k] <= |rows| && keep(rows[ps'[k] - 1]) && items'[k] == item(rows[ps'[k] - 1], ps'[k])
    {
      if k < |ps| {
        assert ps'[k] == ps[k] && items'[k] == items[k];
      }
    }
    forall i, j | 0 <= i < j < |ps'|
      ensures ps'[i] < ps'[j]
    {
      assert ps'[i] == ps[i];
      if j < |ps| {
        assert ps'[j] == ps[j];
      }
    }
  }

  /** The rows kept, by position. */
  lemma {:induction false} KeepNumberedPositions<R, I>(rows: seq<R>, keep: R -> bool, item: (R, nat) -> I) returns (ps: seq<nat>)
    ensures NumberedAt(ps, rows, keep, item, KeepNumbered(rows, keep, item))
  {
    if rows == [] {
      ps := [];
    } else {
      var init := rows[..|rows| - 1];
      var row := rows[|rows| - 1];
      var before := KeepNumbered(init, keep, item);
      var qs := KeepNumberedPositions(init, keep, item);
      NumberedAtPrefix(qs, init, rows, keep, item, before);
      if keep(row) {
        NumberedAtSnoc(qs, rows, keep, item, before);
        ps := qs + [|rows|];
        assert KeepNumbered(rows, keep, item) == before + [item(row, |rows|)];
      } else {
        ps := qs;
        assert KeepNumbered(rows, keep, item) == before;
      }
    }
  }

  /** No row that passes `keep` is dropped. */
  lemma {:induction false} KeepNumberedKeeps<R, I>(rows: seq<R>, i: nat, keep: R -> bool, item: (R, nat) -> I)
    requires i < |rows| && keep(rows[i])
    ensures item(rows[i], i + 1) in KeepNumbered(rows, keep, item)
  {
    var init := rows[..|rows| - 1];
    if i < |rows| - 1 {
      assert init[i] == rows[i];
      KeepNumberedKeeps(init, i, keep, item);
    }
  }

  /** `item(rows[k], k + 1)` for the first `n` rows. */
  predicate NumberedPrefix<R, I(==)>(items: seq<I>, rows: seq<R>, item: (R, nat) -> I) {
    |items| <= |rows| && forall k :: 0 <= k < |items| ==> items[k] == item(rows[k], k + 1)
  }

  lemma NumberedSnoc<R, I>(items: seq<I>, rows: seq<R>, item: (R, nat) -> I, x: I)
    requires NumberedPrefix(items, rows, item) && |items| < |rows| && x == item(rows[|items|], |items| + 1)
    ensures NumberedPrefix(items + [x], rows, item)
  {
  }

  /** A numbered list grows with the list it numbers. */
  lemma NumberedExtend<R, I>(items: seq<I>, rows: seq<R>, item: (R, nat) -> I, row: R, x: I)
    requires NumberedPrefix(items, rows, item) && |items| == |rows| && x == item(row, |rows| + 1)
    ensures NumberedPrefix(items + [x], rows + [row], item)
  {
  }

  /** A numbered list grows by a run of items numbered after it. */
  lemma NumberedAppend<R, I>(items: seq<I>, rows: seq<R>, item: (R, nat) -> I, more: seq<I>)
    requires NumberedPrefix(items, rows, item) && |items| + |more| <= |rows|
    requires forall i :: 0 <= i < |more| ==> more[i] == item(rows[|items| + i], |items| + i + 1)
    ensures NumberedPrefix(items + more, rows, item)
  {
    forall k | |items| <= k < |items| + |more|
      ensures (items + more)[k] == item(rows[k], k + 1)
    {
      assert (items + more)[k] == more[k - |items|];
    }
  }

  /** The number of batches `(n + size - 1) // size` covers the `n` items and no more. */
  lemma BatchCount(n: nat, size: nat, b: nat)
    requires size > 0
    ensures b < (n + size - 1) / size <==> b * size < n
  {
    var q := (n + size - 1) / size;
    var r := (n + size - 1) % size;
    assert n + size - 1 == q * size + r && 0 <= r < size;
    if b < q {
      assert (b + 1) * size <= q * size;
    } else {
      assert b * size >= q * size;
    }
  }

  /**
   * `for batch_num in range(total_batches)` over `items[start_idx:end_idx]`, each batch processed
   * item by item with `f`, which also receives the 1-based position `start_idx + i + 1`, and the
   * results extended in batch order: every item is processed once, in order.
   */
  method InBatches<T, U>(items: seq<T>, size: nat, f: (T, nat) -> U) returns (all: seq<U>)
    requires size > 0
    ensures |all| == |items| && forall k :: 0 <= k < |items| ==> all[k] == f(items[k], k + 1)
  {
    var totalBatches := (|items| + size - 1) / size;
    all := [];
    var batchNum := 0;
    BatchCount(|items|, size, 0);
    while batchNum < totalBatches
      invariant 0 <= batchNum <= totalBatches
      invariant |all| == if batchNum * size < |items| then batchNum * size else |items|
      invariant forall k :: 0 <= k < |all| ==> all[k] == f(items[k], k + 1)
    {
      BatchCount(|items|, size, batchNum);
      var startIdx := batchNum * size;
      var endIdx := if startIdx + size < |items| then startIdx + size else |items|;
      var batch := items[startIdx..endIdx];
      var results := seq(|batch|, k requires 0 <= k < |batch| => f(batch[k], startIdx + 1 + k));
      all := all + results;
      batchNum := batchNum + 1;
      assert batchNum * size == startIdx + size;
    }
    BatchCount(|items|, size, batchNum);
  }
}
