/** Ordering and counting facts shared by every component: Go's string order,
    the contract of Go's (unstable) sort.Slice, and permutation invariance of sums.
 */
module Orders {

  datatype Option<+T> = None | Some(value: T)

  // ------------------------------------------------------------------
  // Go compares strings byte by byte. UTF-8 preserves code point order, so
  // comparing characters gives the same order.
  // ------------------------------------------------------------------

  predicate Less(a: string, b: string) {
    if |b| == 0 then false
    else if |a| == 0 then true
    else if a[0] != b[0] then a[0] < b[0]
    else Less(a[1..], b[1..])
  }

  lemma {:induction false} LessTotal(a: string, b: string)
    ensures Less(a, b) || Less(b, a) || a == b
  {
    if |a| > 0 && |b| > 0 && a[0] == b[0] {
      LessTotal(a[1..], b[1..]);
      assert a == [a[0]] + a[1..] && b == [b[0]] + b[1..];
    }
  }

  lemma {:induction false} LessAsymmetric(a: string, b: string)
    ensures !(Less(a, b) && Less(b, a))
  {
    if |a| > 0 && |b| > 0 && a[0] == b[0] {
      LessAsymmetric(a[1..], b[1..]);
    }
  }

  lemma {:induction false} LessTransitive(a: string, b: string, c: string)
    requires Less(a, b) && Less(b, c)
    ensures Less(a, c)
  {
    if |a| > 0 && a[0] == b[0] && b[0] == c[0] {
      LessTransitive(a[1..], b[1..], c[1..]);
    }
  }

  lemma LessNegativelyTransitive(a: string, b: string, c: string)
    requires !Less(b, a) && !Less(c, b)
    ensures !Less(c, a)
  {
    LessTotal(a, b);
    LessTotal(b, c);
    LessAsymmetric(a, c);
    if Less(a, b) && Less(b, c) {
      LessTransitive(a, b, c);
    }
  }

  // ------------------------------------------------------------------
  // sort.Slice
  // ------------------------------------------------------------------

  /** What sort.Slice demands of its less function. */
  ghost predicate StrictWeakOrder<T(!new)>(less: (T, T) -> bool) {
    && (forall x, y :: less(x, y) ==> !less(y, x))
    && (forall x, y, z :: !less(y, x) && !less(z, y) ==> !less(z, x))
  }

  ghost predicate Sorted<T>(less: (T, T) -> bool, s: seq<T>) {
    forall i, j :: 0 <= i < j < |s| ==> !less(s[j], s[i])
  }

  /** Callers learn only that some sorted permutation comes back, so whatever they
      prove also holds of an unstable sort. */
  method SortSlice<T(!new)>(s: seq<T>, less: (T, T) -> bool) returns (r: seq<T>)
    requires StrictWeakOrder(less)
    ensures multiset(r) == multiset(s)
    ensures |r| == |s|
    ensures Sorted(less, r)
  {
    r := [];
    assert Sorted(less, r);
    hide StrictWeakOrder, Sorted;
    for n := 0 to |s|
      invariant |r| == n && multiset(r) == multiset(s[..n])
      invariant Sorted(less, r)
    {
      var k := |r|;
      while k > 0 && less(s[n], r[k - 1])
        invariant 0 <= k <= |r|
        invariant forall j :: k <= j < |r| ==> less(s[n], r[j])
      {
        k := k - 1;
      }
      assert s[..n + 1] == s[..n] + [s[n]];
      InsertKeepsSorted(less, r, k, s[n]);
      InsertPermutes(r, k, s[n]);
      r := r[..k] + [s[n]] + r[k..];
    }
    assert s[..|s|] == s;
  }

  lemma InsertPermutes<T>(r: seq<T>, k: nat, x: T)
    requires k <= |r|
    ensures multiset(r[..k] + [x] + r[k..]) == multiset(r) + multiset{x}
  {
    assert r == r[..k] + r[k..];
  }

  lemma InsertKeepsSorted<T(!new)>(less: (T, T) -> bool, r: seq<T>, k: nat, x: T)
    requires StrictWeakOrder(less) && Sorted(less, r) && k <= |r|
    requires k > 0 ==> !less(x, r[k - 1])
    requires forall j :: k <= j < |r| ==> less(x, r[j])
    ensures Sorted(less, r[..k] + [x] + r[k..])
  {
    var t := r[..k] + [x] + r[k..];
    forall i, j | 0 <= i < j < |t| ensures !less(t[j], t[i]) {
      var a := if i < k then i else i - 1;
      var b := if j < k then j else j - 1;
      if j == k {
        assert t[j] == x && t[i] == r[i];
        assert !less(r[k - 1], r[i]);
      } else if i == k {
        assert t[i] == x && t[j] == r[b];
      } else {
        assert t[i] == r[a] && t[j] == r[b];
      }
    }
  }

  /** No two different elements tie. */
  ghost predicate NoTies<T(!new)>(less: (T, T) -> bool, s: seq<T>) {
    forall x, y :: x in s && y in s && !less(x, y) && !less(y, x) ==> x == y
  }

  /** Sorting is deterministic whenever no two different elements tie. */
  lemma {:induction false} SortedUnique<T(!new)>(less: (T, T) -> bool, a: seq<T>, b: seq<T>)
    requires StrictWeakOrder(less) && NoTies(less, a)
    requires Sorted(less, a) && Sorted(less, b)
    requires multiset(a) == multiset(b)
    ensures a == b
    decreases |a|
  {
    hide Sorted, StrictWeakOrder, NoTies;
    SameSize(a, b);
    if |a| == 0 {
    } else {
      SameHead(less, a, b);
      SameTail(a, b);
      SortedTail(less, a);
      SortedTail(less, b);
      SortedUnique(less, a[1..], b[1..]);
      assert a == [a[0]] + a[1..] && b == [b[0]] + b[1..];
    }
  }

  lemma SortPermutation<T(!new)>(less: (T, T) -> bool, a: seq<T>, b: seq<T>)
    requires StrictWeakOrder(less) && NoTies(less, a) && multiset(a) == multiset(b)
    ensures InsertionSort(less, a) == InsertionSort(less, b)
  {
    hide StrictWeakOrder, NoTies, Sorted;
    InsertionSorted(less, b);
    SortIsInsertionSort(less, a, InsertionSort(less, b));
  }

  /** In a sorted list without ties, equal elements stand next to each other. */
  lemma AdjacentDistinct<T(!new)>(less: (T, T) -> bool, s: seq<T>)
    requires StrictWeakOrder(less) && Sorted(less, s) && NoTies(less, s)
    requires forall i :: 0 < i < |s| ==> s[i - 1] != s[i]
    ensures Distinct(s)
  {
    hide StrictWeakOrder;
    forall i, j | 0 <= i < j < |s| ensures s[i] != s[j] {
      var k := i + 1;
      assert s[k - 1] != s[k];
      assert !less(s[k], s[i]);
      if k < j {
        assert !less(s[j], s[k]);
      }
      assert s[i] in s && s[k] in s;
    }
  }

  /** The source's duplicate check: compare neighbours of the sorted list. */
  method Repeats<T(==, !new)>(ghost less: (T, T) -> bool, sorted: seq<T>) returns (repeated: bool)
    requires StrictWeakOrder(less) && Sorted(less, sorted) && NoTies(less, sorted)
    ensures repeated <==> !Distinct(sorted)
  {
    hide StrictWeakOrder, Sorted, NoTies;
    var n := 1;
    while n < |sorted|
      invariant 1 <= n
      invariant forall k :: 0 < k < n && k < |sorted| ==> sorted[k - 1] != sorted[k]
    {
      if sorted[n - 1] == sorted[n] {
        return true;
      }
      n := n + 1;
    }
    AdjacentDistinct(less, sorted);
    repeated := false;
  }

  lemma SameTail<T>(a: seq<T>, b: seq<T>)
    requires |a| > 0 && |b| > 0 && multiset(a) == multiset(b) && a[0] == b[0]
    ensures multiset(a[1..]) == multiset(b[1..])
  {
    HeadTail(a);
    HeadTail(b);
  }

  /** The sorted form as a function, for orders without ties. */
  function Inserted<T>(less: (T, T) -> bool, x: T, s: seq<T>): (r: seq<T>)
    ensures multiset(r) == multiset(s) + multiset{x}
  {
    if |s| == 0 then [x]
    else if less(s[0], x) then
      assert s == [s[0]] + s[1..];
      [s[0]] + Inserted(less, x, s[1..])
    else [x] + s
  }

  function InsertionSort<T>(less: (T, T) -> bool, s: seq<T>): (r: seq<T>)
    ensures multiset(r) == multiset(s)
    ensures |r| == |s|
  {
    if |s| == 0 then []
    else
      assert s == [s[0]] + s[1..];
      var r := Inserted(less, s[0], InsertionSort(less, s[1..]));
      SameSize(r, s);
      r
  }

  lemma {:induction false} InsertedSorted<T(!new)>(less: (T, T) -> bool, x: T, s: seq<T>)
    requires StrictWeakOrder(less) && Sorted(less, s)
    ensures Sorted(less, Inserted(less, x, s))
  {
    if |s| == 0 {
    } else {
      var rest := s[1..];
      if less(s[0], x) {
        InsertedSorted(less, x, rest);
        var r := Inserted(less, x, rest);
        forall i, j | 0 <= i < j < |[s[0]] + r| ensures !less(([s[0]] + r)[j], ([s[0]] + r)[i]) {
          if i == 0 {
            assert r[j - 1] in multiset(rest) + multiset{x};
            assert r[j - 1] in rest || r[j - 1] == x;
          }
        }
      } else {
        forall i, j | 0 <= i < j < |[x] + s| ensures !less(([x] + s)[j], ([x] + s)[i]) {
          if i == 0 {
            assert !less(s[j - 1], s[0]) || j == 1;
          }
        }
      }
    }
  }

  lemma {:induction false} InsertionSorted<T(!new)>(less: (T, T) -> bool, s: seq<T>)
    requires StrictWeakOrder(less)
    ensures Sorted(less, InsertionSort(less, s))
  {
    if |s| == 0 {
    } else {
      InsertionSorted(less, s[1..]);
      InsertedSorted(less, s[0], InsertionSort(less, s[1..]));
    }
  }

  /** Without ties every sorted permutation is the insertion sort. */
  lemma SortIsInsertionSort<T(!new)>(less: (T, T) -> bool, s: seq<T>, sorted: seq<T>)
    requires StrictWeakOrder(less) && NoTies(less, s)
    requires multiset(sorted) == multiset(s) && Sorted(less, sorted)
    ensures sorted == InsertionSort(less, s)
  {
    InsertionSorted(less, s);
    assert NoTies(less, sorted) by { SameElements(s, sorted); }
    hide StrictWeakOrder, NoTies, Sorted, InsertionSort;
    SortedUnique(less, sorted, InsertionSort(less, s));
  }

  lemma SameHead<T(!new)>(less: (T, T) -> bool, a: seq<T>, b: seq<T>)
    requires StrictWeakOrder(less) && NoTies(less, a) && Sorted(less, a) && Sorted(less, b)
    requires |a| > 0 && |b| > 0 && multiset(a) == multiset(b)
    ensures a[0] == b[0]
    ensures NoTies(less, a[1..])
  {
    hide StrictWeakOrder;
    LeastFirst(less, a, b);
    LeastFirst(less, b, a);
    hide Sorted;
    assert forall x :: x in a[1..] ==> x in a;
  }

  lemma LeastFirst<T(!new)>(less: (T, T) -> bool, a: seq<T>, b: seq<T>)
    requires StrictWeakOrder(less) && Sorted(less, a) && |a| > 0 && |b| > 0
    requires multiset(a) == multiset(b)
    ensures !less(b[0], a[0]) && b[0] in a
  {
    assert b[0] in multiset(a);
    var i :| 0 <= i < |a| && a[i] == b[0];
  }

  lemma SortedTail<T(!new)>(less: (T, T) -> bool, s: seq<T>)
    requires Sorted(less, s) && |s| > 0
    ensures Sorted(less, s[1..])
  {
  }

  lemma HeadTail<T>(s: seq<T>)
    requires |s| > 0
    ensures multiset(s) == multiset{s[0]} + multiset(s[1..])
    ensures multiset(s[1..]) == multiset(s) - multiset{s[0]}
  {
    assert s == [s[0]] + s[1..];
  }

  lemma SameSize<T>(a: seq<T>, b: seq<T>)
    requires multiset(a) == multiset(b)
    ensures |a| == |b|
  {
    assert |multiset(a)| == |a| && |multiset(b)| == |b|;
  }

  lemma SameElements<T>(a: seq<T>, b: seq<T>)
    requires multiset(a) == multiset(b)
    ensures forall x :: x in a <==> x in b
  {
    forall x ensures x in a <==> x in b {
      assert x in a <==> x in multiset(a);
      assert x in b <==> x in multiset(b);
    }
  }

  predicate Distinct<T(==)>(s: seq<T>) {
    forall i, j :: 0 <= i < j < |s| ==> s[i] != s[j]
  }

  lemma {:induction false} DistinctIffMultiset<T>(s: seq<T>)
    ensures Distinct(s) <==> forall x :: multiset(s)[x] <= 1
  {
    if |s| == 0 {
    } else {
      var rest, h := s[1..], s[0];
      HeadTail(s);
      DistinctIffMultiset(rest);
      if Distinct(s) {
        assert forall i, j :: 0 <= i < j < |rest| ==> rest[i] == s[i + 1] && rest[j] == s[j + 1];
        assert h !in rest;
      } else {
        var i, j :| 0 <= i < j < |s| && s[i] == s[j];
        if i == 0 {
          assert rest[j - 1] == h;
          assert multiset(s)[h] > 1;
        } else {
          assert rest[i - 1] == rest[j - 1];
          var x :| multiset(rest)[x] > 1;
          assert multiset(s)[x] > 1;
        }
      }
    }
  }

  function Map<T, U>(f: T -> U, s: seq<T>): (r: seq<U>)
    ensures |r| == |s| && forall i :: 0 <= i < |s| ==> r[i] == f(s[i])
  {
    seq(|s|, i requires 0 <= i < |s| => f(s[i]))
  }

  lemma MapIn<T, U>(f: T -> U, s: seq<T>, x: T)
    requires x in s
    ensures f(x) in Map(f, s)
  {
    var i :| 0 <= i < |s| && s[i] == x;
    assert Map(f, s)[i] == f(x);
  }

  /** An image without repetitions identifies its elements. */
  lemma DistinctImage<T, U>(f: T -> U, s: seq<T>, x: T, y: T)
    requires Distinct(Map(f, s)) && x in s && y in s && f(x) == f(y)
    ensures x == y
  {
    var i :| 0 <= i < |s| && s[i] == x;
    var j :| 0 <= j < |s| && s[j] == y;
    assert Map(f, s)[i] == Map(f, s)[j];
  }

  lemma NoneDistinct<T, U>(f: T -> U)
    ensures Distinct(Map(f, []))
  {
  }

  lemma AppendDistinct<T, U>(f: T -> U, s: seq<T>, x: T)
    requires Distinct(Map(f, s))
    ensures Distinct(Map(f, s + [x])) <==> f(x) !in Map(f, s)
    ensures Map(f, s + [x]) == Map(f, s) + [f(x)]
  {
    var a, b := Map(f, s), Map(f, s + [x]);
    assert b == a + [f(x)];
    if f(x) in a {
      var i :| 0 <= i < |a| && a[i] == f(x);
      assert b[i] == b[|a|];
    }
  }

  lemma PrefixDistinct<T, U>(f: T -> U, s: seq<T>, n: nat)
    requires n <= |s| && Distinct(Map(f, s))
    ensures Distinct(Map(f, s[..n]))
  {
    assert Map(f, s[..n]) == Map(f, s)[..n];
  }

  /** Reordering a list reorders its image. */
  lemma {:induction false} MapPermutation<T, U>(f: T -> U, a: seq<T>, b: seq<T>)
    requires multiset(a) == multiset(b)
    ensures multiset(Map(f, a)) == multiset(Map(f, b))
    decreases |a|
  {
    SameSize(a, b);
    if |a| == 0 {
    } else {
      assert a[0] in multiset(b);
      var k :| 0 <= k < |b| && b[k] == a[0];
      var rest := b[..k] + b[k + 1..];
      RemoveAt(a, b, k);
      MapPermutation(f, a[1..], rest);
      MapHead(f, a);
      MapPieces(f, b, k);
      hide Map;
    }
  }

  lemma MapHead<T, U>(f: T -> U, s: seq<T>)
    requires |s| > 0
    ensures multiset(Map(f, s)) == multiset{f(s[0])} + multiset(Map(f, s[1..]))
  {
    assert Map(f, s) == [f(s[0])] + Map(f, s[1..]);
  }

  lemma MapPieces<T, U>(f: T -> U, s: seq<T>, k: nat)
    requires k < |s|
    ensures multiset(Map(f, s)) == multiset{f(s[k])} + multiset(Map(f, s[..k] + s[k + 1..]))
  {
    var x, y := Map(f, s[..k]), Map(f, s[k + 1..]);
    assert Map(f, s) == x + [f(s[k])] + y;
    assert Map(f, s[..k] + s[k + 1..]) == x + y;
  }

  lemma RemoveAt<T>(a: seq<T>, b: seq<T>, k: nat)
    requires multiset(a) == multiset(b) && |a| > 0 && k < |b| && b[k] == a[0]
    ensures multiset(a[1..]) == multiset(b[..k] + b[k + 1..])
  {
    HeadTail(a);
    assert b == b[..k] + ([b[k]] + b[k + 1..]);
    assert multiset(b) == multiset(b[..k]) + multiset{b[k]} + multiset(b[k + 1..]);
  }

  lemma DistinctPermutation<T>(a: seq<T>, b: seq<T>)
    requires multiset(a) == multiset(b)
    ensures Distinct(a) <==> Distinct(b)
  {
    DistinctIffMultiset(a);
    DistinctIffMultiset(b);
  }

  lemma {:induction false} DistinctSize<T>(s: seq<T>)
    requires Distinct(s)
    ensures |set x | x in s| == |s|
  {
    if |s| == 0 {
    } else {
      var n := |s| - 1;
      DistinctSize(s[..n]);
      assert s == s[..n] + [s[n]];
      assert (set x | x in s) == (set x | x in s[..n]) + {s[n]};
      assert s[n] !in s[..n];
    }
  }

  lemma SubsetSameSize<T>(a: set<T>, b: set<T>)
    requires a <= b && |a| == |b|
    ensures a == b
  {
    assert b == a + (b - a);
    assert |b| == |a| + |b - a|;
  }

  lemma SubsetSize<T>(a: set<T>, b: set<T>)
    requires a <= b
    ensures |a| <= |b|
  {
    assert b == a + (b - a);
    assert |b| == |a| + |b - a|;
  }

  /** Two duplicate-free lists of the same length, one inside the other, are permutations. */
  lemma DistinctInside<T>(a: seq<T>, b: seq<T>)
    requires Distinct(a) && Distinct(b) && |a| == |b| && forall x :: x in a ==> x in b
    ensures multiset(a) == multiset(b)
  {
    DistinctSize(a);
    DistinctSize(b);
    var p, q := set x | x in a, set x | x in b;
    SubsetSameSize(p, q);
    forall x ensures multiset(a)[x] == multiset(b)[x] {
      DistinctIffMultiset(a);
      DistinctIffMultiset(b);
      assert x in a <==> x in p;
      assert x in b <==> x in q;
      assert x in a <==> x in multiset(a);
      assert x in b <==> x in multiset(b);
    }
  }

  // ------------------------------------------------------------------
  // Sums over a list do not depend on its order.
  // ------------------------------------------------------------------

  function Sum<T>(f: T -> int, s: seq<T>): int {
    if |s| == 0 then 0 else f(s[0]) + Sum(f, s[1..])
  }

  lemma {:induction false} SumConcat<T>(f: T -> int, a: seq<T>, b: seq<T>)
    ensures Sum(f, a + b) == Sum(f, a) + Sum(f, b)
  {
    if |a| == 0 {
      assert a + b == b;
    } else {
      assert (a + b)[1..] == a[1..] + b;
      SumConcat(f, a[1..], b);
    }
  }

  lemma {:induction false} SumPermutation<T>(f: T -> int, a: seq<T>, b: seq<T>)
    requires multiset(a) == multiset(b)
    ensures Sum(f, a) == Sum(f, b)
    decreases |a|
  {
    SameSize(a, b);
    if |a| == 0 {
    } else {
      assert a[0] in multiset(b);
      var k :| 0 <= k < |b| && b[k] == a[0];
      var rest := b[..k] + b[k + 1..];
      RemoveAt(a, b, k);
      SumPermutation(f, a[1..], rest);
      assert b == b[..k] + ([b[k]] + b[k + 1..]);
      SumConcat(f, b[..k], [b[k]] + b[k + 1..]);
      SumConcat(f, b[..k], b[k + 1..]);
    }
  }
}
