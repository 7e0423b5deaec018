/** The ordering `Arrays.sort` applies to the panel's string arrays: Java's
    `String.compareTo`, and the result of sorting by it. How the sort works
    is not modelled; only the sorted permutation it returns is. */
module StringOrder {

  /** `String.compareTo`: the difference of the first pair of differing
      characters, or else the difference of the lengths. */
  function CompareTo(a: string, b: string): (r: int)
    ensures r == 0 <==> a == b
  {
    if |a| == 0 || |b| == 0 then |a| - |b|
    else if a[0] != b[0] then a[0] as int - b[0] as int
    else
      assert a == [a[0]] + a[1..] && b == [b[0]] + b[1..];
      CompareTo(a[1..], b[1..])
  }

  /** Swapping the arguments negates the comparison. */
  lemma {:induction false} CompareToAntisymmetric(a: string, b: string)
    ensures CompareTo(b, a) == -CompareTo(a, b)
  {
    if |a| != 0 && |b| != 0 && a[0] == b[0] {
      CompareToAntisymmetric(a[1..], b[1..]);
    }
  }

  lemma {:induction false} CompareToTransitive(a: string, b: string, c: string)
    requires CompareTo(a, b) <= 0 && CompareTo(b, c) <= 0
    ensures CompareTo(a, c) <= 0
  {
    if |a| != 0 && |b| != 0 && |c| != 0 && a[0] == b[0] && b[0] == c[0] {
      CompareToTransitive(a[1..], b[1..], c[1..]);
    }
  }

  predicate LessEq(a: string, b: string) {
    CompareTo(a, b) <= 0
  }

  /** Ascending order, as `Arrays.sort` leaves an array: each element is at
      most the next one. */
  predicate Sorted(s: seq<string>) {
    |s| <= 1 || (LessEq(s[0], s[1]) && Sorted(s[1..]))
  }

  /** In a sorted sequence every element is at most every later one. */
  lemma {:induction false} SortedPairwise(s: seq<string>, i: nat, j: nat)
    requires Sorted(s) && i < j < |s|
    ensures LessEq(s[i], s[j])
  {
    if i == 0 {
      if j > 1 {
        SortedPairwise(s[1..], 0, j - 1);
        CompareToTransitive(s[0], s[1], s[j]);
      }
    } else {
      SortedPairwise(s[1..], i - 1, j - 1);
    }
  }

  /** Inserts `x` into a sorted sequence before the first element it does not exceed. */
  function Insert(x: string, s: seq<string>): (r: seq<string>)
    requires Sorted(s)
    ensures Sorted(r)
    ensures multiset(r) == multiset(s) + multiset{x}
    ensures r[0] == x || (s != [] && r[0] == s[0])
  {
    if s == [] then [x]
    else if LessEq(x, s[0]) then [x] + s
    else
      CompareToAntisymmetric(x, s[0]);
      assert s == [s[0]] + s[1..];
      [s[0]] + Insert(x, s[1..])
  }

  /** The array `Arrays.sort` leaves: a sorted permutation of its input. */
  function SortStrings(s: seq<string>): (r: seq<string>)
    ensures Sorted(r)
    ensures multiset(r) == multiset(s)
    ensures |r| == |s|
  {
    if s == [] then []
    else
      assert s == [s[0]] + s[1..];
      Insert(s[0], SortStrings(s[1..]))
  }

  /** The first element of a sorted sequence is at most each of its elements. */
  lemma {:induction false} SortedHeadLeast(a: seq<string>, x: string)
    requires Sorted(a) && x in a
    ensures LessEq(a[0], x)
  {
    var i :| 0 <= i < |a| && a[i] == x;
    if i > 0 {
      SortedPairwise(a, 0, i);
    }
  }

  lemma DropEqualHeads(a: seq<string>, b: seq<string>)
    requires a != [] && b != [] && a[0] == b[0] && multiset(a) == multiset(b)
    ensures multiset(a[1..]) == multiset(b[1..])
  {
    assert a == [a[0]] + a[1..];
    assert b == [b[0]] + b[1..];
    assert multiset(a[1..]) == multiset(a) - multiset{a[0]};
    assert multiset(b[1..]) == multiset(b) - multiset{b[0]};
  }

  /** Two sorted sequences holding the same strings are the same sequence. */
  lemma {:induction false} SortedPermutationUnique(a: seq<string>, b: seq<string>)
    requires Sorted(a) && Sorted(b) && multiset(a) == multiset(b)
    ensures a == b
  {
    if a != [] {
      assert a[0] in multiset(b) && b[0] in multiset(a);
      SortedHeadLeast(a, b[0]);
      SortedHeadLeast(b, a[0]);
      CompareToAntisymmetric(a[0], b[0]);
      DropEqualHeads(a, b);
      SortedPermutationUnique(a[1..], b[1..]);
      assert a == [a[0]] + a[1..] && b == [b[0]] + b[1..];
    }
  }

  /** Sorting a sorted sequence leaves it as it is. */
  lemma SortKeepsSorted(s: seq<string>)
    requires Sorted(s)
    ensures SortStrings(s) == s
  {
    SortedPermutationUnique(SortStrings(s), s);
  }

  /** The sorted result depends only on which strings are present, not on their order. */
  lemma SortIgnoresOrder(s: seq<string>, t: seq<string>)
    requires multiset(s) == multiset(t)
    ensures SortStrings(s) == SortStrings(t)
  {
    SortedPermutationUnique(SortStrings(s), SortStrings(t));
  }

  /** A sequence equals its own sorted form exactly when it is already sorted. */
  lemma SortFixedIffSorted(s: seq<string>)
    ensures SortStrings(s) == s <==> Sorted(s)
  {
    if Sorted(s) {
      SortKeepsSorted(s);
    }
  }
}
