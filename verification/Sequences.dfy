/** Sequence facts shared by the models: distinctness, sorting by a total order, sums. */
module Sequences {

  datatype Option<+T> = None | Some(value: T)

  ghost predicate Distinct<T>(s: seq<T>) {
    forall i, j :: 0 <= i < j < |s| ==> s[i] != s[j]
  }

  lemma ConcatDistinct<T>(a: seq<T>, b: seq<T>)
    requires Distinct(a) && Distinct(b)
    requires forall x :: x in a && x in b ==> false
    ensures Distinct(a + b)
  {
    forall i, j | 0 <= i < j < |a + b| ensures (a + b)[i] != (a + b)[j] {
      assert i < |a| ==> (a + b)[i] in a;
      assert j >= |a| ==> (a + b)[j] in b;
    }
  }

  /** A sequence without repetition is no longer than one that holds all its elements. */
  lemma {:induction false} DistinctBound<T>(a: seq<T>, b: seq<T>)
    requires Distinct(a) && forall x :: x in a ==> x in b
    ensures |a| <= |b|
  {
    if a != [] {
      assert a[0] in a;
      var j :| 0 <= j < |b| && b[j] == a[0];
      var rest := b[..j] + b[j + 1..];
      forall x | x in a[1..] ensures x in rest {
        var i :| 1 <= i < |a| && a[i] == x;
        assert a[0] != x && x in a;
        var k :| 0 <= k < |b| && b[k] == x;
        assert k != j;
        assert if k < j then rest[k] == x else rest[k - 1] == x;
      }
      DistinctBound(a[1..], rest);
    }
  }

  /** Two listings of the same elements without repetition are equally long. */
  lemma SameLength<T>(a: seq<T>, b: seq<T>)
    requires Distinct(a) && Distinct(b) && forall x :: x in a <==> x in b
    ensures |a| == |b|
  {
    DistinctBound(a, b);
    DistinctBound(b, a);
  }

  // ---------------------------------------------------------------- filters

  function Filter<T>(p: T -> bool, s: seq<T>): seq<T> {
    if s == [] then [] else Filter(p, s[..|s| - 1]) + if p(s[|s| - 1]) then [s[|s| - 1]] else []
  }

  lemma {:induction false} FilterMembers<T>(p: T -> bool, s: seq<T>)
    ensures forall x :: x in Filter(p, s) <==> x in s && p(x)
    ensures |Filter(p, s)| <= |s|
  {
    if s != [] {
      var n := |s| - 1;
      FilterMembers(p, s[..n]);
      assert s == s[..n] + [s[n]];
    }
  }

  lemma FilterPrefix<T>(p: T -> bool, s: seq<T>, n: nat)
    requires 0 < n <= |s|
    ensures Filter(p, s[..n]) == Filter(p, s[..n - 1]) + if p(s[n - 1]) then [s[n - 1]] else []
  {
    assert s[..n][..n - 1] == s[..n - 1];
  }

  // ---------------------------------------------------------------- sums

  lemma Distribute(a: int, b: int, c: int)
    ensures (a + b) * c == a * c + b * c && c * (a + b) == c * a + c * b
  {
  }

  function Sum<T>(f: T -> int, s: seq<T>): int {
    if s == [] then 0 else Sum(f, s[..|s| - 1]) + f(s[|s| - 1])
  }

  lemma SumAppend<T>(f: T -> int, s: seq<T>, x: T)
    ensures Sum(f, s + [x]) == Sum(f, s) + f(x)
  {
    assert (s + [x])[..|s|] == s;
  }

  lemma {:induction false} SumConcat<T>(f: T -> int, a: seq<T>, b: seq<T>)
    ensures Sum(f, a + b) == Sum(f, a) + Sum(f, b)
  {
    if b == [] {
      assert a + b == a;
    } else {
      var n := |b| - 1;
      assert (a + b)[..|a + b| - 1] == a + b[..n];
      SumConcat(f, a, b[..n]);
    }
  }

  function Without<T>(s: seq<T>, k: nat): seq<T>
    requires k < |s|
  {
    s[..k] + s[k + 1..]
  }

  lemma WithoutMultiset<T>(s: seq<T>, k: nat)
    requires k < |s|
    ensures multiset(Without(s, k)) == multiset(s) - multiset{s[k]}
  {
    assert s == s[..k] + [s[k]] + s[k + 1..];
  }

  lemma WithoutFront<T>(s: seq<T>, k: nat)
    requires k < |s| - 1
    ensures Without(s, k) == Without(s[..|s| - 1], k) + [s[|s| - 1]]
  {
  }

  lemma {:induction false} SumWithout<T>(f: T -> int, s: seq<T>, k: nat)
    requires k < |s|
    ensures Sum(f, s) == f(s[k]) + Sum(f, Without(s, k))
  {
    var n := |s| - 1;
    if k < n {
      SumWithout(f, s[..n], k);
      SumAppend(f, Without(s[..n], k), s[n]);
      WithoutFront(s, k);
    } else {
      assert Without(s, k) == s[..n];
    }
  }

  /** A sum does not depend on the order of the listing. */
  lemma {:induction false} SumPermuted<T>(f: T -> int, a: seq<T>, b: seq<T>)
    requires multiset(a) == multiset(b)
    ensures Sum(f, a) == Sum(f, b)
  {
    if a == [] {
      assert |multiset(b)| == 0;
    } else {
      var n := |a| - 1;
      assert a[n] in multiset(b);
      var k :| 0 <= k < |b| && b[k] == a[n];
      WithoutMultiset(a, n);
      WithoutMultiset(b, k);
      assert Without(a, n) == a[..n];
      SumPermuted(f, a[..n], Without(b, k));
      SumWithout(f, b, k);
    }
  }

  /** Without repetition, the same elements make the same multiset. */
  lemma {:induction false} SameElements<T>(a: seq<T>, b: seq<T>)
    requires Distinct(a) && Distinct(b) && forall x :: x in a <==> x in b
    ensures multiset(a) == multiset(b)
  {
    forall x ensures multiset(a)[x] == multiset(b)[x] {
      CountDistinct(a, x);
      CountDistinct(b, x);
    }
  }

  lemma {:induction false} CountDistinct<T>(s: seq<T>, x: T)
    requires Distinct(s)
    ensures multiset(s)[x] == if x in s then 1 else 0
  {
    if s != [] {
      var n := |s| - 1;
      assert s == s[..n] + [s[n]];
      CountDistinct(s[..n], x);
    }
  }

  // ---------------------------------------------------------------- sorting by a key

  function InsertBy<T>(key: T -> int, x: T, s: seq<T>): seq<T> {
    if s == [] || key(x) <= key(s[0]) then [x] + s else [s[0]] + InsertBy(key, x, s[1..])
  }

  /** A stable sort by an integer key. */
  function SortBy<T>(key: T -> int, s: seq<T>): seq<T> {
    if s == [] then [] else InsertBy(key, s[0], SortBy(key, s[1..]))
  }

  ghost predicate Increasing<T>(key: T -> int, s: seq<T>) {
    forall i, j :: 0 <= i < j < |s| ==> key(s[i]) < key(s[j])
  }

  ghost predicate DistinctKeys<T>(key: T -> int, s: seq<T>) {
    forall i, j :: 0 <= i < j < |s| ==> key(s[i]) != key(s[j])
  }

  lemma {:induction false} InsertElements<T>(key: T -> int, x: T, s: seq<T>)
    ensures multiset(InsertBy(key, x, s)) == multiset(s) + multiset{x}
  {
    if s != [] && key(x) > key(s[0]) {
      InsertElements(key, x, s[1..]);
      assert s == [s[0]] + s[1..];
    }
  }

  lemma {:induction false} InsertIncreasing<T>(key: T -> int, x: T, s: seq<T>)
    requires Increasing(key, s) && forall k :: 0 <= k < |s| ==> key(s[k]) != key(x)
    ensures Increasing(key, InsertBy(key, x, s))
    ensures s != [] && key(x) > key(s[0]) ==> InsertBy(key, x, s)[0] == s[0]
  {
    if s != [] && key(x) > key(s[0]) {
      var r := InsertBy(key, x, s[1..]);
      InsertIncreasing(key, x, s[1..]);
      InsertHead(key, x, s[1..]);
      assert forall j :: 1 <= j < |r| ==> key(r[0]) < key(r[j]);
    }
  }

  lemma InsertHead<T>(key: T -> int, x: T, s: seq<T>)
    ensures var r := InsertBy(key, x, s); r != [] && (r[0] == x || (s != [] && r[0] == s[0]))
  {
  }

  /** Sorting rearranges. */
  lemma {:induction false} SortRearranges<T>(key: T -> int, s: seq<T>)
    ensures multiset(SortBy(key, s)) == multiset(s)
  {
    if s != [] {
      SortRearranges(key, s[1..]);
      assert s == [s[0]] + s[1..];
      InsertElements(key, s[0], SortBy(key, s[1..]));
    }
  }

  /** Sorting puts distinct keys in increasing order. */
  lemma {:induction false} SortIncreases<T>(key: T -> int, s: seq<T>)
    requires DistinctKeys(key, s)
    ensures Increasing(key, SortBy(key, s))
  {
    if s != [] {
      var rest := s[1..];
      var r := SortBy(key, rest);
      SortIncreases(key, rest);
      SortRearranges(key, rest);
      forall k | 0 <= k < |r| ensures key(r[k]) != key(s[0]) {
        assert r[k] in multiset(r) && r[k] in multiset(rest);
        var m :| 0 <= m < |rest| && rest[m] == r[k];
        assert s[m + 1] == r[k];
      }
      InsertIncreasing(key, s[0], r);
    }
  }

  lemma SortElements<T>(key: T -> int, s: seq<T>)
    ensures |SortBy(key, s)| == |s| && forall x :: x in SortBy(key, s) <==> x in s
  {
    SortRearranges(key, s);
    assert |multiset(SortBy(key, s))| == |multiset(s)|;
    forall x ensures x in SortBy(key, s) <==> x in s {
      assert x in multiset(SortBy(key, s)) <==> x in multiset(s);
    }
  }

  /** Only one listing of the same elements is increasing. */
  lemma {:induction false} IncreasingUnique<T>(key: T -> int, a: seq<T>, b: seq<T>)
    requires Increasing(key, a) && Increasing(key, b) && forall x :: x in a <==> x in b
    ensures a == b
  {
    assert |a| > 0 ==> a[0] in a;
    assert |b| > 0 ==> b[0] in b;
    if a != [] && b != [] {
      assert a[0] in b && b[0] in a;
      assert a[0] == b[0];
      forall x ensures x in a[1..] <==> x in b[1..] {
        TailMembers(key, a, x);
        TailMembers(key, b, x);
      }
      IncreasingUnique(key, a[1..], b[1..]);
    }
  }

  lemma TailMembers<T>(key: T -> int, s: seq<T>, x: T)
    requires s != [] && Increasing(key, s)
    ensures x in s[1..] <==> x in s && x != s[0]
  {
    if x in s && x != s[0] {
      var i :| 1 <= i < |s| && s[i] == x;
      assert s[1..][i - 1] == x;
    }
  }

  /** Sorting depends only on the elements when their keys are distinct. */
  lemma SortIgnoresListing<T>(key: T -> int, a: seq<T>, b: seq<T>)
    requires DistinctKeys(key, a) && DistinctKeys(key, b) && forall x :: x in a <==> x in b
    ensures SortBy(key, a) == SortBy(key, b)
  {
    SortIncreases(key, a);
    SortIncreases(key, b);
    SortElements(key, a);
    SortElements(key, b);
    IncreasingUnique(key, SortBy(key, a), SortBy(key, b));
  }

  lemma SortIdempotent<T>(key: T -> int, s: seq<T>)
    requires Increasing(key, s)
    ensures SortBy(key, s) == s
  {
    SortIncreases(key, s);
    SortElements(key, s);
    IncreasingUnique(key, SortBy(key, s), s);
  }

  /** A rearrangement of elements with distinct keys still has distinct keys. */
  lemma SameCountDistinct<T>(key: T -> int, a: seq<T>, b: seq<T>)
    requires multiset(a) == multiset(b) && DistinctKeys(key, b)
    ensures DistinctKeys(key, a)
  {
    forall i, j | 0 <= i < j < |a| ensures key(a[i]) != key(a[j]) {
      assert a[i] in multiset(b) && a[j] in multiset(b);
      var m :| 0 <= m < |b| && b[m] == a[i];
      var n :| 0 <= n < |b| && b[n] == a[j];
      assert Distinct(b);
      CountDistinct(b, a[i]);
      CountTwice(a, i, j);
      assert m < n || n < m;
    }
  }

  lemma CountTwice<T>(a: seq<T>, i: nat, j: nat)
    requires i < j < |a|
    ensures a[i] == a[j] ==> multiset(a)[a[i]] >= 2
  {
    assert a == a[..j] + [a[j]] + a[j + 1..];
    assert a[..j][i] == a[i];
  }

  /** A listing as long as one with distinct keys, of the same elements, has distinct keys. */
  lemma SameLengthDistinct<T>(key: T -> int, a: seq<T>, b: seq<T>)
    requires DistinctKeys(key, a) && |a| == |b| && forall x :: x in a <==> x in b
    ensures DistinctKeys(key, b)
  {
    assert Distinct(a);
    forall i, j | 0 <= i < j < |b| ensures key(b[i]) != key(b[j]) {
      var rest := Without(b, j);
      assert rest[i] == b[i];
      forall x | x in a && b[i] == b[j] ensures x in rest {
        var k :| 0 <= k < |b| && b[k] == x;
        assert if k == j then rest[i] == x else if k < j then rest[k] == x else rest[k - 1] == x;
      }
      if forall x :: x in a ==> x in rest { DistinctBound(a, rest); }
      assert b[i] in a && b[j] in a;
      var m :| 0 <= m < |a| && a[m] == b[i];
      var n :| 0 <= n < |a| && a[n] == b[j];
      assert m < n || n < m;
    }
  }

  /** Raising one term by `c` raises the sum by `c`, if the term is in the listing. */
  lemma {:induction false} SumPoint<T>(f: T -> int, g: T -> int, x: T, c: int, s: seq<T>)
    requires Distinct(s) && forall k :: 0 <= k < |s| ==> g(s[k]) == f(s[k]) + if s[k] == x then c else 0
    ensures Sum(g, s) == Sum(f, s) + if x in s then c else 0
  {
    if s != [] {
      var n := |s| - 1;
      SumPoint(f, g, x, c, s[..n]);
      assert s == s[..n] + [s[n]];
    }
  }

  /** A predicate and its complement split a listing, in number and in every sum. */
  lemma {:induction false} FilterSplits<T>(p: T -> bool, q: T -> bool, f: T -> int, s: seq<T>)
    requires forall x :: x in s ==> p(x) != q(x)
    ensures |Filter(p, s)| + |Filter(q, s)| == |s|
    ensures Sum(f, Filter(p, s)) + Sum(f, Filter(q, s)) == Sum(f, s)
  {
    if s != [] {
      var n := |s| - 1;
      assert s[n] in s && forall x :: x in s[..n] ==> x in s;
      FilterSplits(p, q, f, s[..n]);
      SumAppend(f, Filter(p, s[..n]), s[n]);
      SumAppend(f, Filter(q, s[..n]), s[n]);
      assert Filter(p, s[..n]) + [] == Filter(p, s[..n]) && Filter(q, s[..n]) + [] == Filter(q, s[..n]);
    }
  }

  // ---------------------------------------------------------------- sorting by a key and a tie-breaker

  /** Two stable sorts: by the tie-breaker, then by the key. */
  function SortByBoth<T>(key: T -> int, tie: T -> int, s: seq<T>): seq<T> {
    SortBy(key, SortBy(tie, s))
  }

  predicate Before<T>(key: T -> int, tie: T -> int, x: T, y: T) {
    key(x) < key(y) || (key(x) == key(y) && tie(x) < tie(y))
  }

  ghost predicate InOrder<T>(key: T -> int, tie: T -> int, s: seq<T>) {
    forall i, j :: 0 <= i < j < |s| ==> Before(key, tie, s[i], s[j])
  }

  lemma {:induction false} InsertInOrder<T>(key: T -> int, tie: T -> int, x: T, s: seq<T>)
    requires InOrder(key, tie, s) && forall k :: 0 <= k < |s| ==> tie(x) < tie(s[k])
    ensures InOrder(key, tie, InsertBy(key, x, s))
  {
    if s != [] && key(x) > key(s[0]) {
      InsertInOrder(key, tie, x, s[1..]);
      var r := InsertBy(key, x, s[1..]);
      InsertElements(key, x, s[1..]);
      forall j | 0 <= j < |r| ensures Before(key, tie, s[0], r[j]) {
        assert r[j] in multiset(r);
        if r[j] != x {
          assert r[j] in s[1..];
        }
      }
    }
  }

  lemma {:induction false} SortByKeyInOrder<T>(key: T -> int, tie: T -> int, s: seq<T>)
    requires Increasing(tie, s)
    ensures InOrder(key, tie, SortBy(key, s))
  {
    if s != [] {
      var rest := s[1..];
      SortByKeyInOrder(key, tie, rest);
      var r := SortBy(key, rest);
      SortRearranges(key, rest);
      forall k | 0 <= k < |r| ensures tie(s[0]) < tie(r[k]) {
        assert r[k] in multiset(r) && r[k] in multiset(rest);
        var m :| 0 <= m < |rest| && rest[m] == r[k];
        assert s[m + 1] == r[k];
      }
      InsertInOrder(key, tie, s[0], r);
    }
  }

  lemma SortedByBoth<T>(key: T -> int, tie: T -> int, s: seq<T>)
    requires DistinctKeys(tie, s)
    ensures InOrder(key, tie, SortByBoth(key, tie, s))
  {
    SortIncreases(tie, s);
    SortByKeyInOrder(key, tie, SortBy(tie, s));
  }

  lemma SortByBothElements<T>(key: T -> int, tie: T -> int, s: seq<T>)
    ensures multiset(SortByBoth(key, tie, s)) == multiset(s)
    ensures |SortByBoth(key, tie, s)| == |s| && forall x :: x in SortByBoth(key, tie, s) <==> x in s
  {
    SortRearranges(tie, s);
    SortRearranges(key, SortBy(tie, s));
    SortElements(tie, s);
    SortElements(key, SortBy(tie, s));
  }

  /** Only one listing of the same elements is in order. */
  lemma {:induction false} OrderUnique<T>(key: T -> int, tie: T -> int, a: seq<T>, b: seq<T>)
    requires InOrder(key, tie, a) && InOrder(key, tie, b) && forall x :: x in a <==> x in b
    ensures a == b
  {
    assert |a| > 0 ==> a[0] in a;
    assert |b| > 0 ==> b[0] in b;
    if a != [] && b != [] {
      assert a[0] in b && b[0] in a;
      assert a[0] == b[0];
      forall x ensures x in a[1..] <==> x in b[1..] {
        TailInOrder(key, tie, a, x);
        TailInOrder(key, tie, b, x);
      }
      OrderUnique(key, tie, a[1..], b[1..]);
    }
  }

  lemma TailInOrder<T>(key: T -> int, tie: T -> int, s: seq<T>, x: T)
    requires s != [] && InOrder(key, tie, s)
    ensures x in s[1..] <==> x in s && x != s[0]
  {
    if x in s && x != s[0] {
      var i :| 1 <= i < |s| && s[i] == x;
      assert s[1..][i - 1] == x;
    }
  }

  /** A filter keeps the order. */
  lemma {:induction false} FilterInOrder<T>(key: T -> int, tie: T -> int, p: T -> bool, s: seq<T>)
    requires InOrder(key, tie, s)
    ensures InOrder(key, tie, Filter(p, s))
  {
    if s != [] {
      var n := |s| - 1;
      var rest := s[..n];
      var front := Filter(p, rest);
      FilterInOrder(key, tie, p, rest);
      forall i | 0 <= i < |front| ensures Before(key, tie, front[i], s[n]) {
        var k := FilteredFrom(p, rest, i);
      }
    }
  }

  /** Where an element of a filter comes from. */
  lemma {:induction false} FilteredFrom<T>(p: T -> bool, s: seq<T>, i: nat) returns (k: nat)
    requires i < |Filter(p, s)|
    ensures k < |s| && s[k] == Filter(p, s)[i]
  {
    var n := |s| - 1;
    if i < |Filter(p, s[..n])| { k := FilteredFrom(p, s[..n], i); } else { k := n; }
  }
}
