/** String order and sorting, shared by the ranking of suggestions and the epic cascade. */
module Ordering {

  /** Lexicographic order by code point, the order of UTF-8 strings. */
  predicate LexLeq(x: string, y: string) {
    if x == [] then true
    else if y == [] then false
    else x[0] < y[0] || (x[0] == y[0] && LexLeq(x[1..], y[1..]))
  }

  lemma {:induction false} LexTotal(x: string, y: string)
    ensures LexLeq(x, y) || LexLeq(y, x)
    ensures LexLeq(x, y) && LexLeq(y, x) ==> x == y
  {
    if x != [] && y != [] {
      LexTotal(x[1..], y[1..]);
      assert x == [x[0]] + x[1..] && y == [y[0]] + y[1..];
    }
  }

  lemma {:induction false} LexTransitive(x: string, y: string, z: string)
    requires LexLeq(x, y) && LexLeq(y, z)
    ensures LexLeq(x, z)
  {
    if x != [] && x[0] == y[0] == z[0] {
      LexTransitive(x[1..], y[1..], z[1..]);
    }
  }

  /** The first differing character decides, the smaller first; a string stands in front of its extensions. */
  lemma {:induction false} FirstDifferenceDecides(x: string, y: string, k: nat)
    requires k <= |x| && k <= |y| && x[..k] == y[..k]
    ensures k == |x| ==> LexLeq(x, y)
    ensures k == |y| < |x| ==> !LexLeq(x, y)
    ensures k < |x| && k < |y| && x[k] != y[k] ==> (LexLeq(x, y) <==> x[k] < y[k])
  {
    if k > 0 {
      assert x[0] == x[..k][0] && y[0] == y[..k][0];
      assert x[1..][..k - 1] == x[..k][1..] && y[1..][..k - 1] == y[..k][1..];
      FirstDifferenceDecides(x[1..], y[1..], k - 1);
    }
  }

  ghost predicate TotalPreorder<T(!new)>(leq: (T, T) -> bool) {
    && (forall x, y :: leq(x, y) || leq(y, x))
    && (forall x, y, z :: leq(x, y) && leq(y, z) ==> leq(x, z))
  }

  ghost predicate SortedBy<T>(leq: (T, T) -> bool, s: seq<T>) {
    forall i, j | 0 <= i < j < |s| :: leq(s[i], s[j])
  }

  /** Sorts by a total preorder: insertion sort in the place of the library sort. */
  method SortBy<T(!new)>(leq: (T, T) -> bool, s: seq<T>) returns (sorted: seq<T>)
    requires TotalPreorder(leq)
    ensures multiset(sorted) == multiset(s)
    ensures SortedBy(leq, sorted)
  {
    sorted := [];
    for n := 0 to |s|
      invariant multiset(sorted) == multiset(s[..n])
      invariant SortedBy(leq, sorted)
    {
      assert s[..n + 1] == s[..n] + [s[n]];
      sorted := InsertBy(leq, sorted, s[n]);
    }
    assert s[..|s|] == s;
  }

  lemma SpliceSorted<T>(leq: (T, T) -> bool, sorted: seq<T>, k: nat, x: T)
    requires SortedBy(leq, sorted) && k <= |sorted|
    requires forall i | 0 <= i < k :: leq(sorted[i], x)
    requires forall i | k <= i < |sorted| :: leq(x, sorted[i])
    ensures SortedBy(leq, sorted[..k] + [x] + sorted[k..])
    ensures multiset(sorted[..k] + [x] + sorted[k..]) == multiset(sorted) + multiset{x}
  {
    assert sorted == sorted[..k] + sorted[k..];
    var r := sorted[..k] + [x] + sorted[k..];
    forall i, j | 0 <= i < j < |r|
      ensures leq(r[i], r[j])
    {
      assert i < k ==> r[i] == sorted[i];
      assert i > k ==> r[i] == sorted[i - 1];
      assert j < k ==> r[j] == sorted[j];
      assert j > k ==> r[j] == sorted[j - 1];
    }
  }

  method InsertBy<T(!new)>(leq: (T, T) -> bool, sorted: seq<T>, x: T) returns (r: seq<T>)
    requires TotalPreorder(leq) && SortedBy(leq, sorted)
    ensures multiset(r) == multiset(sorted) + multiset{x}
    ensures SortedBy(leq, r)
  {
    var k := |sorted|;
    while k > 0 && !leq(sorted[k - 1], x)
      invariant 0 <= k <= |sorted|
      invariant forall i | k <= i < |sorted| :: leq(x, sorted[i])
    {
      k := k - 1;
    }
    forall i | 0 <= i < k
      ensures leq(sorted[i], x)
    {
      if i < k - 1 {
        assert leq(sorted[i], sorted[k - 1]) && leq(sorted[k - 1], x);
      }
    }
    SpliceSorted(leq, sorted, k, x);
    r := sorted[..k] + [x] + sorted[k..];
  }
}
