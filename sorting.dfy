/**
 * `Array.prototype.sort(compare)`, which ECMAScript requires to be stable.
 *
 * A comparator is represented by `le(a, b)`, "`compare(a, b) <= 0`": `a` may
 * stay before `b`. `InsertionSort` is the specification: it inserts each
 * element after every earlier element that may precede it. For a total
 * preorder the stable sorted permutation of a sequence is unique, so this
 * fixes the result of any stable sort. `SortInPlace` is the in-place array
 * version, proved equal to it.
 */
module Sorting {

  /** `le` is total and transitive: a comparator consistent enough to sort by. */
  ghost predicate TotalPreorder<T(!new)>(le: (T, T) -> bool) {
    && (forall a, b :: le(a, b) || le(b, a))
    && (forall a, b, c :: le(a, b) && le(b, c) ==> le(a, c))
  }

  /** `a` and `b` compare equal. */
  predicate Tied<T>(le: (T, T) -> bool, a: T, b: T) {
    le(a, b) && le(b, a)
  }

  ghost predicate SortedBy<T>(le: (T, T) -> bool, s: seq<T>) {
    forall i, j :: 0 <= i < j < |s| ==> le(s[i], s[j])
  }

  /** Places `x` after the longest suffix of `s` whose elements must follow it. */
  function Insert<T>(s: seq<T>, x: T, le: (T, T) -> bool): (r: seq<T>)
    ensures |r| == |s| + 1
  {
    if s == [] || le(s[|s| - 1], x) then s + [x]
    else Insert(s[..|s| - 1], x, le) + [s[|s| - 1]]
  }

  lemma {:induction false} InsertIsPermutation<T>(s: seq<T>, x: T, le: (T, T) -> bool)
    ensures multiset(Insert(s, x, le)) == multiset(s) + multiset{x}
  {
    if s != [] && !le(s[|s| - 1], x) {
      InsertIsPermutation(s[..|s| - 1], x, le);
      assert s == s[..|s| - 1] + [s[|s| - 1]];
    }
  }

  function InsertionSort<T>(s: seq<T>, le: (T, T) -> bool): (r: seq<T>)
    ensures |r| == |s|
  {
    if s == [] then [] else Insert(InsertionSort(s[..|s| - 1], le), s[|s| - 1], le)
  }

  /** Sorting only reorders: the result is a permutation of the input. */
  lemma {:induction false} SortIsPermutation<T>(s: seq<T>, le: (T, T) -> bool)
    ensures multiset(InsertionSort(s, le)) == multiset(s)
  {
    if s != [] {
      SortIsPermutation(s[..|s| - 1], le);
      InsertIsPermutation(InsertionSort(s[..|s| - 1], le), s[|s| - 1], le);
      assert s == s[..|s| - 1] + [s[|s| - 1]];
    }
  }

  lemma {:induction false} InsertSorted<T(!new)>(s: seq<T>, x: T, le: (T, T) -> bool)
    requires TotalPreorder(le) && SortedBy(le, s)
    ensures SortedBy(le, Insert(s, x, le))
  {
    if s != [] && !le(s[|s| - 1], x) {
      var init, last := s[..|s| - 1], s[|s| - 1];
      InsertSorted(init, x, le);
      InsertIsPermutation(init, x, le);
      var t := Insert(init, x, le);
      forall i | 0 <= i < |t| ensures le(t[i], last) {
        assert t[i] in multiset(t);
        if t[i] != x {
          assert t[i] in multiset(init);
          var k :| 0 <= k < |init| && init[k] == t[i];
          assert s[k] == t[i];
        }
      }
    }
  }

  /** Sorting orders the result by `le`. */
  lemma {:induction false} SortIsSorted<T(!new)>(s: seq<T>, le: (T, T) -> bool)
    requires TotalPreorder(le)
    ensures SortedBy(le, InsertionSort(s, le))
  {
    if s != [] {
      SortIsSorted(s[..|s| - 1], le);
      InsertSorted(InsertionSort(s[..|s| - 1], le), s[|s| - 1], le);
    }
  }

  /** The elements of `s` that compare equal to `k`, in their order in `s`. */
  function TiedWith<T>(s: seq<T>, le: (T, T) -> bool, k: T): (r: seq<T>)
    ensures forall i :: 0 <= i < |r| ==> Tied(le, r[i], k)
    ensures |r| <= |s|
  {
    if s == [] then []
    else TiedWith(s[..|s| - 1], le, k) + (if Tied(le, s[|s| - 1], k) then [s[|s| - 1]] else [])
  }

  lemma {:induction false} TiedWithAppend<T>(a: seq<T>, b: seq<T>, le: (T, T) -> bool, k: T)
    ensures TiedWith(a + b, le, k) == TiedWith(a, le, k) + TiedWith(b, le, k)
    decreases |b|
  {
    if b != [] {
      var b', last := b[..|b| - 1], b[|b| - 1];
      var tail := if Tied(le, last, k) then [last] else [];
      TiedWithAppend(a, b', le, k);
      var ab := a + b;
      assert ab[..|ab| - 1] == a + b' && ab[|ab| - 1] == last;
      assert TiedWith(ab, le, k) == TiedWith(a + b', le, k) + tail;
      assert TiedWith(b, le, k) == TiedWith(b', le, k) + tail;
    } else {
      assert a + b == a;
    }
  }

  lemma {:induction false} InsertStable<T(!new)>(s: seq<T>, x: T, le: (T, T) -> bool, k: T)
    requires TotalPreorder(le)
    ensures TiedWith(Insert(s, x, le), le, k) == TiedWith(s, le, k) + TiedWith([x], le, k)
  {
    if s == [] || le(s[|s| - 1], x) {
      TiedWithAppend(s, [x], le, k);
    } else {
      var init, last := s[..|s| - 1], s[|s| - 1];
      InsertStable(init, x, le, k);
      TiedWithAppend(Insert(init, x, le), [last], le, k);
      TiedWithAppend(init, [last], le, k);
      assert s == init + [last];
      // `last` must follow `x`, so at most one of them ties with `k`
      assert !(Tied(le, x, k) && Tied(le, last, k));
    }
  }

  /** Stability: elements that compare equal keep their relative order. */
  lemma {:induction false} SortIsStable<T(!new)>(s: seq<T>, le: (T, T) -> bool, k: T)
    requires TotalPreorder(le)
    ensures TiedWith(InsertionSort(s, le), le, k) == TiedWith(s, le, k)
  {
    if s != [] {
      var init, last := s[..|s| - 1], s[|s| - 1];
      SortIsStable(init, le, k);
      InsertStable(InsertionSort(init, le), last, le, k);
      TiedWithAppend(init, [last], le, k);
      assert s == init + [last];
    }
  }

  /** A comparator under which everything ties (`() => 0`) leaves the order unchanged. */
  lemma {:induction false} SortKeepsOrderWhenAllTie<T>(s: seq<T>, le: (T, T) -> bool)
    requires forall i, j :: 0 <= i < |s| && 0 <= j < |s| ==> le(s[i], s[j])
    ensures InsertionSort(s, le) == s
  {
    if s != [] {
      var init := s[..|s| - 1];
      SortKeepsOrderWhenAllTie(init, le);
      assert InsertionSort(s, le) == Insert(init, s[|s| - 1], le);
      if init != [] {
        assert le(init[|init| - 1], s[|s| - 1]);
      }
    }
  }

  /**
   * `Insert` puts `x` at `j` when `j` is where a scan from the right stops:
   * the element before `j` (if any) may precede `x` and none after may.
   */
  lemma {:induction false} InsertPosition<T>(s: seq<T>, x: T, le: (T, T) -> bool, j: nat)
    requires j <= |s|
    requires j == 0 || le(s[j - 1], x)
    requires forall k :: j <= k < |s| ==> !le(s[k], x)
    ensures Insert(s, x, le) == s[..j] + [x] + s[j..]
    decreases |s| - j
  {
    if j < |s| {
      var init := s[..|s| - 1];
      InsertPosition(init, x, le, j);
      assert init[..j] == s[..j] && init[j..] + [s[|s| - 1]] == s[j..];
    } else {
      assert s[..j] == s;
    }
  }

  /**
   * Shifts right by one place every element of `a[..i]` from the right end
   * down to the first that may precede `x`; `j` is the slot left free.
   */
  method MakeRoom<T>(a: array<T>, i: nat, x: T, le: (T, T) -> bool) returns (j: nat)
    requires i < a.Length
    modifies a
    ensures j <= i
    ensures forall k :: 0 <= k < j ==> a[k] == old(a[k])
    ensures forall k :: j < k <= i ==> a[k] == old(a[k - 1])
    ensures forall k :: i < k < a.Length ==> a[k] == old(a[k])
    ensures j == 0 || le(old(a[j - 1]), x)
    ensures forall k :: j <= k < i ==> !le(old(a[k]), x)
  {
    j := i;
    while j > 0 && !le(a[j - 1], x)
      invariant 0 <= j <= i
      invariant forall k :: 0 <= k < j ==> a[k] == old(a[k])
      invariant forall k :: j < k <= i ==> a[k] == old(a[k - 1])
      invariant forall k :: i < k < a.Length ==> a[k] == old(a[k])
      invariant forall k :: j <= k < i ==> !le(old(a[k]), x)
    {
      a[j] := a[j - 1];
      j := j - 1;
    }
  }

  /** Moves `a[i]` left into the part `a[..i]` before it, as `Insert` does. */
  method InsertIntoPrefix<T>(a: array<T>, i: nat, le: (T, T) -> bool)
    requires i < a.Length
    modifies a
    ensures a[..i + 1] == Insert(old(a[..i]), old(a[i]), le)
    ensures a[i + 1..] == old(a[i + 1..])
  {
    ghost var prefix := a[..i];
    var x := a[i];
    var j := MakeRoom(a, i, x, le);
    a[j] := x;
    InsertPosition(prefix, x, le, j);
    ghost var inserted := prefix[..j] + [x] + prefix[j..];
    forall k | 0 <= k <= i ensures a[k] == inserted[k] {
      if k < j {
        assert inserted[k] == prefix[k];
      } else if j < k {
        assert inserted[k] == prefix[k - 1];
      }
    }
    assert a[..i + 1] == inserted;
    assert a[i + 1..] == old(a[i + 1..]);
  }

  lemma SortPrefixStep<T>(s: seq<T>, i: nat, le: (T, T) -> bool)
    requires i < |s|
    ensures InsertionSort(s[..i + 1], le) == Insert(InsertionSort(s[..i], le), s[i], le)
  {
    assert s[..i + 1][..i] == s[..i];
  }

  /** `a.sort(compare)`, in place. */
  method SortInPlace<T>(a: array<T>, le: (T, T) -> bool)
    modifies a
    ensures a[..] == InsertionSort(old(a[..]), le)
  {
    ghost var input := a[..];
    var i := 0;
    while i < a.Length
      invariant 0 <= i <= a.Length
      invariant a[..i] == InsertionSort(input[..i], le)
      invariant a[i..] == input[i..]
    {
      InsertIntoPrefix(a, i, le);
      SortPrefixStep(input, i, le);
      i := i + 1;
    }
    assert input[..a.Length] == input;
  }
}
