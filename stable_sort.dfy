/**
 * Stable sorting as JavaScript's `Array.prototype.sort` and Python's `sorted` perform it.
 * Both are stable, so with a comparator that is a strict weak order the result is the one
 * sequence that is ordered and keeps equivalent elements in their input order; insertion
 * sort computes that sequence.  `before(a, b)` holds when `a` must come before `b`
 * (a JavaScript comparator returning a negative number, a Python key that is smaller).
 */
module StableSort {

  /** Inserts `x` after the last element of `s` that it does not have to precede. */
  function Insert<T>(s: seq<T>, x: T, before: (T, T) -> bool): (r: seq<T>)
    ensures |r| == |s| + 1
  {
    if s != [] && before(x, s[|s| - 1]) then Insert(s[..|s| - 1], x, before) + [s[|s| - 1]]
    else s + [x]
  }

  /** The stable sort of `s`: each element in turn inserted into the sorted prefix before it. */
  function Sort<T>(s: seq<T>, before: (T, T) -> bool): (r: seq<T>)
    ensures |r| == |s|
  {
    if s == [] then [] else Insert(Sort(s[..|s| - 1], before), s[|s| - 1], before)
  }

  /** No element has to come before the element just before it. */
  ghost predicate Ordered<T>(s: seq<T>, before: (T, T) -> bool)
  {
    forall i :: 0 < i < |s| ==> !before(s[i], s[i - 1])
  }

  ghost predicate Asymmetric<T(!new)>(before: (T, T) -> bool)
  {
    forall a, b :: before(a, b) ==> !before(b, a)
  }

  /** `p` selects elements no two of which `before` orders: a class of equivalent elements. */
  ghost predicate Unordered<T(!new)>(before: (T, T) -> bool, p: T -> bool)
  {
    forall a, b :: before(a, b) ==> !(p(a) && p(b))
  }

  /** The subsequence of `s` whose elements satisfy `p`. */
  function Filter<T>(s: seq<T>, p: T -> bool): (r: seq<T>)
    ensures |r| <= |s|
  {
    if s == [] then []
    else Filter(s[..|s| - 1], p) + (if p(s[|s| - 1]) then [s[|s| - 1]] else [])
  }

  lemma {:induction false} FilterAppend<T>(s: seq<T>, t: seq<T>, p: T -> bool)
    ensures Filter(s + t, p) == Filter(s, p) + Filter(t, p)
    decreases |t|
  {
    if t == [] {
      assert s + t == s;
    } else {
      var t' := t[..|t| - 1];
      assert (s + t)[..|s + t| - 1] == s + t';
      FilterAppend(s, t', p);
    }
  }

  lemma {:induction false} InsertPermutes<T>(s: seq<T>, x: T, before: (T, T) -> bool)
    ensures multiset(Insert(s, x, before)) == multiset(s) + multiset{x}
    decreases |s|
  {
    if s != [] && before(x, s[|s| - 1]) {
      var init, last := s[..|s| - 1], s[|s| - 1];
      InsertPermutes(init, x, before);
      assert Insert(s, x, before) == Insert(init, x, before) + [last];
      assert s == init + [last];
      assert multiset(s) == multiset(init) + multiset{last};
    }
  }

  /** Sorting only reorders: the result is a permutation of the input. */
  lemma {:induction false} SortPermutes<T>(s: seq<T>, before: (T, T) -> bool)
    ensures multiset(Sort(s, before)) == multiset(s)
    decreases |s|
  {
    if s != [] {
      var init, last := s[..|s| - 1], s[|s| - 1];
      assert multiset(s) == multiset(init) + multiset{last} by {
        assert s == init + [last];
      }
      SortPermutes(init, before);
      InsertPermutes(Sort(init, before), last, before);
    }
  }

  lemma {:induction false} InsertLast<T>(s: seq<T>, x: T, before: (T, T) -> bool)
    ensures var r := Insert(s, x, before);
      r[|r| - 1] == x || (s != [] && r[|r| - 1] == s[|s| - 1])
  {
  }

  lemma {:induction false} InsertOrdered<T(!new)>(s: seq<T>, x: T, before: (T, T) -> bool)
    requires Asymmetric(before)
    requires Ordered(s, before)
    ensures Ordered(Insert(s, x, before), before)
    decreases |s|
  {
    if s != [] && before(x, s[|s| - 1]) {
      var init, last := s[..|s| - 1], s[|s| - 1];
      InsertOrdered(init, x, before);
      var r' := Insert(init, x, before);
      InsertLast(init, x, before);
      assert !before(last, r'[|r'| - 1]);
      var r := r' + [last];
      forall i | 0 < i < |r| ensures !before(r[i], r[i - 1]) {
        if i < |r'| { assert r[i] == r'[i] && r[i - 1] == r'[i - 1]; }
      }
    }
  }

  /** The result of sorting is ordered when `before` is asymmetric. */
  lemma {:induction false} SortOrdered<T(!new)>(s: seq<T>, before: (T, T) -> bool)
    requires Asymmetric(before)
    ensures Ordered(Sort(s, before), before)
    decreases |s|
  {
    if s != [] {
      SortOrdered(s[..|s| - 1], before);
      InsertOrdered(Sort(s[..|s| - 1], before), s[|s| - 1], before);
    }
  }

  lemma {:induction false} InsertStable<T(!new)>(s: seq<T>, x: T, before: (T, T) -> bool, p: T -> bool)
    requires Unordered(before, p)
    ensures Filter(Insert(s, x, before), p) == Filter(s, p) + Filter([x], p)
    decreases |s|
  {
    if s != [] && before(x, s[|s| - 1]) {
      var init, last := s[..|s| - 1], s[|s| - 1];
      InsertStable(init, x, before, p);
      FilterAppend(Insert(init, x, before), [last], p);
      assert s == init + [last];
      FilterAppend(init, [last], p);
      assert Filter([last], p) == [] || Filter([x], p) == [] by {
        assert [last][..0] == [] && [x][..0] == [];
      }
    } else {
      FilterAppend(s, [x], p);
    }
  }

  /** Sorting is stable: every class of mutually unordered elements keeps its input order. */
  lemma {:induction false} SortStable<T(!new)>(s: seq<T>, before: (T, T) -> bool, p: T -> bool)
    requires Unordered(before, p)
    ensures Filter(Sort(s, before), p) == Filter(s, p)
    decreases |s|
  {
    if s != [] {
      var init := s[..|s| - 1];
      SortStable(init, before, p);
      InsertStable(Sort(init, before), s[|s| - 1], before, p);
      assert s == init + [s[|s| - 1]];
      FilterAppend(init, [s[|s| - 1]], p);
    }
  }

  lemma InsertSettled<T>(p: seq<T>, x: T, j: nat, before: (T, T) -> bool)
    requires j <= |p| && (j == 0 || !before(x, p[j - 1]))
    ensures Insert(p[..j], x, before) == p[..j] + [x]
  {
    if j > 0 {
      assert p[..j][j - 1] == p[j - 1];
    }
  }

  lemma InsertShift<T>(p: seq<T>, x: T, j: nat, before: (T, T) -> bool)
    requires 0 < j <= |p| && before(x, p[j - 1])
    ensures Insert(p[..j], x, before) + p[j..] == Insert(p[..j - 1], x, before) + p[j - 1..]
  {
    var q := p[..j];
    assert q[|q| - 1] == p[j - 1] && q[..|q| - 1] == p[..j - 1];
    assert Insert(q, x, before) == Insert(p[..j - 1], x, before) + [p[j - 1]];
    assert p[j - 1..] == [p[j - 1]] + p[j..];
  }

  /** A sequence that agrees with `p` around a gap at `j` holding `x` is `p` with `x` put in at `j`. */
  lemma Assemble<T>(s: seq<T>, p: seq<T>, x: T, j: nat)
    requires |s| == |p| + 1 && j <= |p| && s[j] == x
    requires forall k :: 0 <= k < j ==> s[k] == p[k]
    requires forall k :: j < k < |s| ==> s[k] == p[k - 1]
    ensures s == p[..j] + [x] + p[j..]
  {
  }

  /**
   * The shifting loop of one pass: while `x` must precede the element before the gap,
   * that element moves up into the gap.  Returns where the gap ends up.
   */
  method ShiftUp<T>(a: array<T>, i: nat, x: T, before: (T, T) -> bool) returns (j: nat)
    requires i < a.Length
    modifies a
    ensures j <= i
    ensures forall k :: 0 <= k < j ==> a[k] == old(a[k])
    ensures forall k :: j < k <= i ==> a[k] == old(a[k - 1])
    ensures forall k :: i < k < a.Length ==> a[k] == old(a[k])
    ensures Insert(old(a[..i]), x, before) == old(a[..i])[..j] + [x] + old(a[..i])[j..]
  {
    ghost var p := a[..i];
    j := i;
    var settled := false;
    assert p[..i] == p && p[i..] == [];
    while j > 0 && !settled
      invariant 0 <= j <= i
      invariant forall k :: 0 <= k < j ==> a[k] == p[k]
      invariant forall k :: j < k <= i ==> a[k] == p[k - 1]
      invariant forall k :: i < k < a.Length ==> a[k] == old(a[k])
      invariant Insert(p, x, before) == Insert(p[..j], x, before) + p[j..]
      invariant settled ==> j > 0 && !before(x, p[j - 1])
      decreases j, !settled
    {
      if before(x, a[j - 1]) {
        assert Insert(p, x, before) == Insert(p[..j - 1], x, before) + p[j - 1..] by {
          InsertShift(p, x, j, before);
        }
        a[j] := a[j - 1];
        j := j - 1;
      } else {
        settled := true;
      }
    }
    InsertSettled(p, x, j, before);
  }

  /**
   * One pass of the in-place sort: the elements before `a[i]` that it must precede move
   * up one place, and `a[i]` goes into the gap.
   */
  method InsertAt<T>(a: array<T>, i: nat, before: (T, T) -> bool)
    requires i < a.Length
    modifies a
    ensures a[..i + 1] == Insert(old(a[..i]), old(a[i]), before)
    ensures forall k :: i < k < a.Length ==> a[k] == old(a[k])
  {
    ghost var p := a[..i];
    var x := a[i];
    var j := ShiftUp(a, i, x, before);
    a[j] := x;
    Assemble(a[..i + 1], p, x, j);
  }

  /** `a.sort(...)` / `list.sort(...)`: the array ends up holding the stable sort of its old contents. */
  method SortInPlace<T>(a: array<T>, before: (T, T) -> bool)
    modifies a
    ensures a[..] == Sort(old(a[..]), before)
  {
    ghost var s := a[..];
    for i := 0 to a.Length
      invariant a[..i] == Sort(s[..i], before)
      invariant forall k :: i <= k < a.Length ==> a[k] == s[k]
    {
      InsertAt(a, i, before);
      assert s[..i + 1][..i] == s[..i];
    }
    assert a[..] == a[..a.Length] && s == s[..a.Length];
  }
}
