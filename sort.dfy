/** `std::sort(first, last, comparator)` on a range of an array, as an
    insertion sort that swaps an element left while the comparator puts it
    before its left neighbour. */
module Sorting {

  /** Ordered by `key`. */
  predicate KeyOrdered<T>(s: seq<T>, key: T -> real)
  {
    forall p, q :: 0 <= p < q < |s| ==> key(s[p]) <= key(s[q])
  }

  /** On the elements of `s`, `less` compares by `key` (and so is a strict
      weak ordering there). */
  ghost predicate Consistent<T>(s: seq<T>, less: (T, T) -> bool, key: T -> real)
  {
    forall x, y :: x in s && y in s ==> (less(x, y) <==> key(x) < key(y))
  }

  /** Keys at indices `[lo, hi)` of `s` are ordered, except that index
      `skip` (if it lies there) is left out. */
  predicate OrderedExcept<T>(s: seq<T>, lo: int, hi: int, skip: int, key: T -> real)
    requires 0 <= lo <= hi <= |s|
  {
    forall p, q :: lo <= p < q < hi && p != skip && q != skip ==> key(s[p]) <= key(s[q])
  }

  /** The element at `j` has a key at or below those after it up to `i`. */
  predicate BelowFollowers<T>(s: seq<T>, j: int, i: int, key: T -> real)
    requires 0 <= j <= i < |s|
  {
    forall q :: j < q <= i ==> key(s[j]) <= key(s[q])
  }

  /** Swapping `s[j - 1]` and `s[j]` permutes `[lo, hi)` and leaves the
      rest alone. */
  lemma SwapInRange<T>(s: seq<T>, lo: int, hi: int, j: int)
    requires 0 <= lo < j < hi <= |s|
    ensures var t := s[j - 1 := s[j]][j := s[j - 1]];
            multiset(t[lo..hi]) == multiset(s[lo..hi]) &&
            t[..lo] == s[..lo] && t[hi..] == s[hi..]
  {
    var t := s[j - 1 := s[j]][j := s[j - 1]];
    assert t[lo..hi] == s[lo..hi][j - 1 - lo := s[j]][j - lo := s[j - 1]];
  }

  /** One step of the inner loop: moving the element at `j` one place to
      the left, past a larger key, keeps the loop's two order facts. */
  lemma SwapKeepsOrder<T>(s: seq<T>, lo: int, i: int, j: int, key: T -> real)
    requires 0 <= lo < j <= i < |s|
    requires OrderedExcept(s, lo, i + 1, j, key)
    requires BelowFollowers(s, j, i, key)
    requires key(s[j]) < key(s[j - 1])
    ensures var t := s[j - 1 := s[j]][j := s[j - 1]];
            OrderedExcept(t, lo, i + 1, j - 1, key) && BelowFollowers(t, j - 1, i, key)
  {
    var t := s[j - 1 := s[j]][j := s[j - 1]];
    forall p, q | lo <= p < q < i + 1 && p != j - 1 && q != j - 1
      ensures key(t[p]) <= key(t[q])
    {
      if q == j {
        assert t[q] == s[j - 1] && t[p] == s[p];
      } else if p == j {
        assert t[p] == s[j - 1] && t[q] == s[q];
      } else {
        assert t[p] == s[p] && t[q] == s[q];
      }
    }
    forall q | j - 1 < q <= i
      ensures key(t[j - 1]) <= key(t[q])
    {
      if q == j {
        assert t[j - 1] == s[j] && t[q] == s[j - 1];
      } else {
        assert t[j - 1] == s[j] && t[q] == s[q];
      }
    }
  }

  /** When the inner loop stops, the range `[lo, i]` is ordered. */
  lemma InsertionDone<T>(s: seq<T>, lo: int, i: int, j: int, key: T -> real)
    requires 0 <= lo <= j <= i < |s|
    requires OrderedExcept(s, lo, i + 1, j, key)
    requires BelowFollowers(s, j, i, key)
    requires j > lo ==> key(s[j - 1]) <= key(s[j])
    ensures OrderedExcept(s, lo, i + 1, -1, key)
  {
    forall p, q | lo <= p < q < i + 1
      ensures key(s[p]) <= key(s[q])
    {
      if p != j && q == j && p < j - 1 {
        assert key(s[p]) <= key(s[j - 1]);
      }
    }
  }

  /** An ordered index range, taken out as a sequence, is ordered. */
  lemma OrderedSlice<T>(s: seq<T>, lo: int, hi: int, key: T -> real)
    requires 0 <= lo <= hi <= |s|
    requires OrderedExcept(s, lo, hi, -1, key)
    ensures KeyOrdered(s[lo..hi], key)
  {
    var t := s[lo..hi];
    forall p, q | 0 <= p < q < |t|
      ensures key(t[p]) <= key(t[q])
    {
      assert t[p] == s[lo + p] && t[q] == s[lo + q];
    }
  }

  /** Sorts `[start, end)` of `a` with the comparator `less`: the range is
      permuted, the rest of the array is untouched, and when `less`
      compares the range's elements by `key` the range ends up ordered by
      `key`. */
  method SortRange<T>(a: array<T>, start: int, end: int, less: (T, T) -> bool, ghost key: T -> real)
    requires 0 <= start <= end <= a.Length
    modifies a
    ensures multiset(a[start..end]) == multiset(old(a[start..end]))
    ensures a[..start] == old(a[..start]) && a[end..] == old(a[end..])
    ensures Consistent(old(a[start..end]), less, key) ==> KeyOrdered(a[start..end], key)
  {
    ghost var original := a[start..end];
    ghost var consistent := Consistent(original, less, key);
    var i := start;
    while i < end
      invariant start <= i <= end
      invariant multiset(a[start..end]) == multiset(original)
      invariant a[..start] == old(a[..start]) && a[end..] == old(a[end..])
      invariant consistent ==> OrderedExcept(a[..], start, i, -1, key)
    {
      InsertOne(a, start, end, i, less, key, original);
      i := i + 1;
    }
    if consistent {
      OrderedSlice(a[..], start, end, key);
      assert a[..][start..end] == a[start..end];
    }
  }

  /** One pass of the outer loop: `a[i]` is swapped left while `less`
      puts it before its left neighbour. */
  method InsertOne<T>(a: array<T>, start: int, end: int, i: int, less: (T, T) -> bool, ghost key: T -> real,
                      ghost original: seq<T>)
    requires 0 <= start <= i < end <= a.Length
    requires multiset(a[start..end]) == multiset(original)
    requires Consistent(original, less, key) ==> OrderedExcept(a[..], start, i, -1, key)
    modifies a
    ensures multiset(a[start..end]) == multiset(original)
    ensures a[..start] == old(a[..start]) && a[end..] == old(a[end..])
    ensures Consistent(original, less, key) ==> OrderedExcept(a[..], start, i + 1, -1, key)
  {
    ghost var consistent := Consistent(original, less, key);
    var j := i;
    while j > start && less(a[j], a[j - 1])
      invariant start <= j <= i
      invariant multiset(a[start..end]) == multiset(original)
      invariant a[..start] == old(a[..start]) && a[end..] == old(a[end..])
      invariant consistent ==> OrderedExcept(a[..], start, i + 1, j, key) && BelowFollowers(a[..], j, i, key)
    {
      ghost var s := a[..];
      SwapInRange(s, start, end, j);
      if consistent {
        InOriginal(s, start, end, original, j);
        InOriginal(s, start, end, original, j - 1);
        SwapKeepsOrder(s, start, i, j, key);
      }
      SwapAdjacent(a, j);
      j := j - 1;
    }
    if consistent && j > start {
      InOriginal(a[..], start, end, original, j);
      InOriginal(a[..], start, end, original, j - 1);
    }
    if consistent {
      InsertionDone(a[..], start, i, j, key);
    }
  }

  /** `std::swap(a[j - 1], a[j])` */
  method SwapAdjacent<T>(a: array<T>, j: int)
    requires 0 < j < a.Length
    modifies a
    ensures a[..] == old(a[..])[j - 1 := old(a[j])][j := old(a[j - 1])]
  {
    a[j - 1], a[j] := a[j], a[j - 1];
  }

  /** An element of a range that is a permutation of `original` is an
      element of `original`. */
  lemma InOriginal<T>(s: seq<T>, lo: int, hi: int, original: seq<T>, k: int)
    requires 0 <= lo <= k < hi <= |s|
    requires multiset(s[lo..hi]) == multiset(original)
    ensures s[k] in original
  {
    assert s[lo..hi][k - lo] == s[k];
    assert s[k] in multiset(s[lo..hi]);
  }

  /** Sequences with the same multiset have the same elements. */
  lemma SameElements<T>(s: seq<T>, t: seq<T>)
    requires multiset(s) == multiset(t)
    ensures forall x :: x in s <==> x in t
  {
    forall x
      ensures x in s <==> x in t
    {
      assert x in s <==> x in multiset(s);
      assert x in t <==> x in multiset(t);
    }
  }

  /** The two parts of a split sequence make up its multiset. */
  lemma SplitMultiset<T>(s: seq<T>, mid: int)
    requires 0 <= mid <= |s|
    ensures multiset(s[..mid]) + multiset(s[mid..]) == multiset(s)
  {
    assert s == s[..mid] + s[mid..];
  }
}
