/**
 Small building blocks shared by the dashboard model: an Option type for
 lookups that may find nothing, a Result type for computations that the
 JavaScript engine would abort with an exception, the `Array.prototype.filter`
 of a sequence, and the in-place `Array.prototype.sort` with a numeric
 comparator.
 */
module Common {

  datatype Option<T> = None | Some(value: T)

  datatype Result<T> = Ok(value: T) | Err(message: string)

  /** `s.filter(p)`: the elements of `s` that satisfy `p`, in their order. */
  function Filter<T>(s: seq<T>, p: T -> bool): (r: seq<T>)
    ensures |r| <= |s|
  {
    if s == [] then []
    else
      var rest := Filter(s[1..], p);
      if p(s[0]) then [s[0]] + rest else rest
  }

  /** The filter keeps every occurrence of an element that passes and none of one that fails. */
  lemma {:induction false} FilterOccurrences<T>(s: seq<T>, p: T -> bool, x: T)
    ensures multiset(Filter(s, p))[x] == if p(x) then multiset(s)[x] else 0
  {
    if s != [] {
      assert s == [s[0]] + s[1..];
      FilterOccurrences(s[1..], p, x);
    }
  }

  /** An element is kept exactly when it occurs in `s` and passes. */
  lemma FilterMembers<T>(s: seq<T>, p: T -> bool, x: T)
    ensures x in Filter(s, p) <==> x in s && p(x)
  {
    FilterOccurrences(s, p, x);
  }

  /** Filtering a concatenation filters each part. */
  lemma {:induction false} FilterAppend<T>(s: seq<T>, t: seq<T>, p: T -> bool)
    ensures Filter(s + t, p) == Filter(s, p) + Filter(t, p)
  {
    if s == [] {
      assert s + t == t;
    } else {
      var u := s + t;
      assert u != [] && u[0] == s[0] && u[1..] == s[1..] + t;
      FilterAppend(s[1..], t, p);
      calc {
        Filter(u, p);
        (if p(s[0]) then [s[0]] else []) + Filter(s[1..] + t, p);
        (if p(s[0]) then [s[0]] else []) + (Filter(s[1..], p) + Filter(t, p));
        Filter(s, p) + Filter(t, p);
      }
    }
  }

  /** A filter that every element passes keeps the sequence as it is. */
  lemma {:induction false} FilterKeepsAll<T>(s: seq<T>, p: T -> bool)
    requires forall x :: x in s ==> p(x)
    ensures Filter(s, p) == s
  {
    if s != [] {
      FilterKeepsAll(s[1..], p);
    }
  }

  /** A sub-multiset is no larger than the multiset that holds it. */
  lemma SubMultisetSize<T>(a: multiset<T>, b: multiset<T>)
    requires a <= b
    ensures |a| <= |b|
  {
    assert b == a + (b - a);
  }

  /** `s` is ordered by `rank`: no element ranks above a later one. */
  ghost predicate SortedBy<T>(s: seq<T>, rank: T -> int)
  {
    forall i, j :: 0 <= i < j < |s| ==> rank(s[i]) <= rank(s[j])
  }

  /** Exchanges `a[j - 1]` and `a[j]`, leaving every other element in place. */
  method SwapAdjacent<T>(a: array<T>, j: int)
    requires 0 < j < a.Length
    modifies a
    ensures a[j - 1] == old(a[j]) && a[j] == old(a[j - 1])
    ensures forall k :: 0 <= k < a.Length && k != j - 1 && k != j ==> a[k] == old(a[k])
    ensures multiset(a[..]) == old(multiset(a[..]))
  {
    a[j - 1], a[j] := a[j], a[j - 1];
  }

  /**
   One pass of insertion: with `a[..i]` ordered by `rank`, moves `a[i]` left
   past every element that ranks strictly above it, so that `a[..i + 1]` is
   ordered.
   */
  method InsertLast<T>(a: array<T>, i: int, rank: T -> int)
    requires 0 <= i < a.Length
    requires SortedBy(a[..i], rank)
    modifies a
    ensures SortedBy(a[..i + 1], rank)
    ensures forall k :: i < k < a.Length ==> a[k] == old(a[k])
    ensures multiset(a[..]) == old(multiset(a[..]))
  {
    var j := i;
    while 0 < j && rank(a[j]) < rank(a[j - 1])
      invariant 0 <= j <= i
      invariant forall p, q :: 0 <= p < q <= i && p != j && q != j ==> rank(a[p]) <= rank(a[q])
      invariant forall q :: j < q <= i ==> rank(a[j]) <= rank(a[q])
      invariant forall k :: i < k < a.Length ==> a[k] == old(a[k])
      invariant multiset(a[..]) == old(multiset(a[..]))
    {
      SwapAdjacent(a, j);
      j := j - 1;
    }
  }

  /**
   `a.sort((x, y) => rank(x) - rank(y))`: reorders `a` in place so that it is
   ordered by `rank` and holds the same elements as before.
   */
  method SortInPlace<T>(a: array<T>, rank: T -> int)
    modifies a
    ensures SortedBy(a[..], rank)
    ensures multiset(a[..]) == old(multiset(a[..]))
  {
    var i := 0;
    while i < a.Length
      invariant 0 <= i <= a.Length
      invariant SortedBy(a[..i], rank)
      invariant multiset(a[..]) == old(multiset(a[..]))
    {
      InsertLast(a, i, rank);
      i := i + 1;
    }
    assert a[..a.Length] == a[..];
  }
}
