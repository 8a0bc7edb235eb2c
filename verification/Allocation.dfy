/** The largest-remainder allocation of packages/analytics/src/wallet-weight.ts: 10^18 units are
    shared in proportion to integer raw weights, listed in ascending address order. */
module Allocation {

  import opened Sequences

  /** The number of units, 10^18. */
  const SCALE: nat := 1_000_000_000_000_000_000

  function Total(raw: seq<nat>, n: nat): nat
    requires n <= |raw|
  {
    if n == 0 then 0 else Total(raw, n - 1) + raw[n - 1]
  }

  /** The exact share rounded down, and what is left of its numerator. */
  function Whole(raw: seq<nat>, sum: nat, units: nat, i: nat): nat
    requires i < |raw| && sum > 0
  {
    raw[i] * units / sum
  }

  function Remainder(raw: seq<nat>, sum: nat, units: nat, i: nat): nat
    requires i < |raw| && sum > 0
  {
    raw[i] * units % sum
  }

  function Wholes(raw: seq<nat>, sum: nat, units: nat): seq<nat>
    requires sum > 0
  {
    seq(|raw|, i requires 0 <= i < |raw| => Whole(raw, sum, units, i))
  }

  function Remainders(raw: seq<nat>, sum: nat, units: nat): seq<nat>
    requires sum > 0
  {
    seq(|raw|, i requires 0 <= i < |raw| => Remainder(raw, sum, units, i))
  }

  /** Larger remainders first; among equal ones the lower address, which is the lower index. */
  predicate Sooner(rem: seq<nat>, i: nat, j: nat)
    requires i < |rem| && j < |rem|
  {
    rem[i] > rem[j] || (rem[i] == rem[j] && i < j)
  }

  ghost predicate Indices(order: seq<nat>, n: nat) {
    |order| == n && Distinct(order) && forall k :: 0 <= k < n ==> order[k] < n
  }

  ghost predicate InOrder(rem: seq<nat>, order: seq<nat>) {
    && (forall k :: 0 <= k < |order| ==> order[k] < |rem|)
    && forall i, j :: 0 <= i < j < |order| ==> Sooner(rem, order[i], order[j])
  }

  function Place(rem: seq<nat>, x: nat, order: seq<nat>): (r: seq<nat>)
    requires x < |rem| && forall k :: 0 <= k < |order| ==> order[k] < |rem|
    ensures |r| == |order| + 1 && forall k :: 0 <= k < |r| ==> r[k] < |rem|
  {
    if order == [] || Sooner(rem, x, order[0]) then [x] + order else [order[0]] + Place(rem, x, order[1..])
  }

  function SortedOrder(rem: seq<nat>, n: nat): (r: seq<nat>)
    requires n <= |rem|
    ensures |r| == n && forall k :: 0 <= k < |r| ==> r[k] < |rem|
  {
    if n == 0 then [] else Place(rem, n - 1, SortedOrder(rem, n - 1))
  }

  /** One unit more for each of the first `k` in the order. */
  function Bump(units: seq<nat>, order: seq<nat>, k: nat): (r: seq<nat>)
    requires k <= |order| && forall i :: 0 <= i < |order| ==> order[i] < |units|
    ensures |r| == |units|
  {
    if k == 0 then units
    else
      var u := Bump(units, order, k - 1);
      u[order[k - 1] := u[order[k - 1]] + 1]
  }

  /** The allocation; `None` where the source reports an invalid one. */
  function Allocate(raw: seq<nat>, units: nat): Option<seq<nat>>
    requires Total(raw, |raw|) > 0
  {
    var sum := Total(raw, |raw|);
    var wholes := Wholes(raw, sum, units);
    var residual := units - Total(wholes, |wholes|);
    var order := SortedOrder(Remainders(raw, sum, units), |raw|);
    if residual < 0 || residual >= |raw| then None
    else Some(Bump(wholes, order, residual))
  }

  method AllocateUnits(raw: seq<nat>, scale: nat) returns (r: Option<seq<nat>>)
    requires Total(raw, |raw|) > 0
    ensures r == Allocate(raw, scale)
  {
    var sum := Total(raw, |raw|);
    var wholes := Wholes(raw, sum, scale);
    var units := new nat[|raw|](i requires 0 <= i < |raw| => wholes[i]);
    var order := SortedOrder(Remainders(raw, sum, scale), |raw|);
    var residual := scale - Total(wholes, |wholes|);
    if residual < 0 || residual >= |raw| { return None; }
    assert units[..] == wholes;
    for i := 0 to residual
      invariant units[..] == Bump(wholes, order, i)
    {
      units[order[i]] := units[order[i]] + 1;
    }
    r := Some(units[..]);
  }

  // ---------------------------------------------------------------- the order

  lemma {:induction false} PlaceKeepsOrder(rem: seq<nat>, x: nat, order: seq<nat>)
    requires x < |rem| && InOrder(rem, order) && x !in order
    ensures InOrder(rem, Place(rem, x, order))
    ensures forall y :: y in Place(rem, x, order) <==> y == x || y in order
  {
    if order != [] && !Sooner(rem, x, order[0]) {
      assert order[0] in order;
      PlaceKeepsOrder(rem, x, order[1..]);
      var rest := Place(rem, x, order[1..]);
      forall j | 0 <= j < |rest| ensures Sooner(rem, order[0], rest[j]) {
        assert rest[j] in rest;
      }
    }
  }

  lemma {:induction false} OrderMeaning(rem: seq<nat>, n: nat)
    requires n <= |rem|
    ensures InOrder(rem, SortedOrder(rem, n))
    ensures forall y :: y in SortedOrder(rem, n) <==> 0 <= y < n
  {
    if n > 0 {
      OrderMeaning(rem, n - 1);
      PlaceKeepsOrder(rem, n - 1, SortedOrder(rem, n - 1));
    }
  }

  lemma OrderDistinct(rem: seq<nat>, order: seq<nat>)
    requires InOrder(rem, order)
    ensures Distinct(order)
  {
    forall i, j | 0 <= i < j < |order| ensures order[i] != order[j] {
      assert Sooner(rem, order[i], order[j]);
    }
  }

  // ---------------------------------------------------------------- the residual

  lemma {:induction false} Shares(raw: seq<nat>, sum: nat, units: nat, n: nat)
    requires sum > 0 && n <= |raw|
    ensures Total(raw, n) * units
         == Total(Wholes(raw, sum, units), n) * sum + Total(Remainders(raw, sum, units), n)
  {
    if n > 0 {
      Shares(raw, sum, units, n - 1);
      var w, r := Whole(raw, sum, units, n - 1), Remainder(raw, sum, units, n - 1);
      assert raw[n - 1] * units == w * sum + r;
      Distribute(Total(raw, n - 1), raw[n - 1], units);
      Distribute(Total(Wholes(raw, sum, units), n - 1), w, sum);
    }
  }

  lemma {:induction false} RemaindersBelow(raw: seq<nat>, sum: nat, units: nat, n: nat)
    requires sum > 0 && n <= |raw|
    ensures Total(Remainders(raw, sum, units), n) <= n * (sum - 1)
  {
    if n > 0 {
      RemaindersBelow(raw, sum, units, n - 1);
      Distribute(n - 1, 1, sum - 1);
    }
  }

  ghost function Residual(raw: seq<nat>, units: nat): int
    requires Total(raw, |raw|) > 0
  {
    units - Total(Wholes(raw, Total(raw, |raw|), units), |raw|)
  }

  /** The units left over are the sum of the remainders over the total, at least 0 and below n. */
  lemma ResidualInRange(raw: seq<nat>, units: nat)
    requires Total(raw, |raw|) > 0
    ensures var sum := Total(raw, |raw|);
      && 0 <= Residual(raw, units) < |raw|
      && Total(Remainders(raw, sum, units), |raw|) == Residual(raw, units) * sum
  {
    hide Total;
    var sum := Total(raw, |raw|);
    Shares(raw, sum, units, |raw|);
    RemaindersBelow(raw, sum, units, |raw|);
    TotalNeedsRows(raw);
    var t, r := Total(Wholes(raw, sum, units), |raw|), Total(Remainders(raw, sum, units), |raw|);
    ResidualArithmetic(sum, units, t, r, |raw|);
  }

  lemma TotalNeedsRows(raw: seq<nat>)
    ensures Total(raw, |raw|) > 0 ==> |raw| > 0
  {
  }

  lemma ResidualArithmetic(sum: nat, units: nat, t: nat, r: nat, n: nat)
    requires sum > 0 && sum * units == t * sum + r && r <= n * (sum - 1) && n > 0
    ensures r == (units - t) * sum && 0 <= units - t < n
  {
    var d := units - t;
    assert d * sum == units * sum - t * sum;
    assert d * sum == r && n * sum == n * (sum - 1) + n;
    LessByProduct(-1, d, sum);
    LessByProduct(d, n, sum);
  }

  lemma LessByProduct(a: int, b: int, s: int)
    requires s > 0 && a * s < b * s
    ensures a < b
  {
  }

  // ---------------------------------------------------------------- who gets one more

  lemma {:induction false} BumpMeaning(units: seq<nat>, order: seq<nat>, k: nat)
    requires k <= |order| && Distinct(order) && forall i :: 0 <= i < |order| ==> order[i] < |units|
    ensures forall i :: 0 <= i < |units| ==>
      Bump(units, order, k)[i] == units[i] + if i in order[..k] then 1 else 0
  {
    if k > 0 {
      BumpMeaning(units, order, k - 1);
      assert order[..k] == order[..k - 1] + [order[k - 1]];
    }
  }

  lemma {:induction false} TotalUpdate(s: seq<nat>, i: nat, n: nat)
    requires i < n <= |s|
    ensures Total(s[i := s[i] + 1], n) == Total(s, n) + 1
  {
    if i < n - 1 {
      TotalUpdate(s, i, n - 1);
    } else {
      TotalSame(s, s[i := s[i] + 1], i);
    }
  }

  lemma {:induction false} TotalSame(a: seq<nat>, b: seq<nat>, n: nat)
    requires n <= |a| && n <= |b| && forall i :: 0 <= i < n ==> a[i] == b[i]
    ensures Total(a, n) == Total(b, n)
  {
    if n > 0 { TotalSame(a, b, n - 1); }
  }

  lemma {:induction false} BumpTotal(units: seq<nat>, order: seq<nat>, k: nat)
    requires k <= |order| && forall i :: 0 <= i < |order| ==> order[i] < |units|
    ensures Total(Bump(units, order, k), |units|) == Total(units, |units|) + k
  {
    if k > 0 {
      BumpTotal(units, order, k - 1);
      TotalUpdate(Bump(units, order, k - 1), order[k - 1], |units|);
    }
  }

  /** Whoever precedes a bumped index is bumped too. */
  lemma BumpedIsPrefix(rem: seq<nat>, order: seq<nat>, k: nat, i: nat, j: nat)
    requires InOrder(rem, order) && k <= |order| && i < |rem| && j < |rem|
    requires i in order && j in order[..k] && Sooner(rem, i, j)
    ensures i in order[..k]
  {
    var a :| 0 <= a < |order| && order[a] == i;
    var b :| 0 <= b < k && order[..k][b] == j;
    assert b < a ==> Sooner(rem, order[b], order[a]);
    assert order[..k][a] == i;
  }

  function At(rem: seq<nat>): nat -> int {
    (i: nat) => if i < |rem| then rem[i] else 0
  }

  function Range(n: nat): (r: seq<nat>)
    ensures |r| == n && forall i :: 0 <= i < n ==> r[i] == i
  {
    seq(n, i => i)
  }

  lemma {:induction false} SumRange(rem: seq<nat>, n: nat)
    requires n <= |rem|
    ensures Sum(At(rem), Range(n)) == Total(rem, n)
  {
    if n > 0 {
      SumRange(rem, n - 1);
      assert Range(n) == Range(n - 1) + [n - 1];
      SumAppend<nat>(At(rem), Range(n - 1), n - 1);
    }
  }

  /** Summing the remainders in the allocation order changes nothing. */
  lemma SumInOrder(rem: seq<nat>)
    ensures Sum(At(rem), SortedOrder(rem, |rem|)) == Total(rem, |rem|)
  {
    var n := |rem|;
    OrderMeaning(rem, n);
    OrderDistinct(rem, SortedOrder(rem, n));
    forall x ensures x in SortedOrder(rem, n) <==> x in Range(n) {
      assert 0 <= x < n ==> Range(n)[x] == x;
    }
    SameElements(SortedOrder(rem, n), Range(n));
    SumPermuted(At(rem), SortedOrder(rem, n), Range(n));
    SumRange(rem, n);
  }

  lemma {:induction false} SumOrderBound(rem: seq<nat>, order: seq<nat>, m: nat, k: nat, top: nat)
    requires InOrder(rem, order) && m <= |order| && forall i :: 0 <= i < |rem| ==> rem[i] <= top
    requires forall j :: k <= j < |order| ==> rem[order[j]] == 0
    ensures Sum(At(rem), order[..m]) <= (if m < k then m else k) * top
  {
    if m > 0 {
      SumOrderBound(rem, order, m - 1, k, top);
      assert order[..m] == order[..m - 1] + [order[m - 1]];
      SumAppend(At(rem), order[..m - 1], order[m - 1]);
      if m <= k { Distribute(m - 1, 1, top); }
    }
  }

  /** One more unit goes only to shares that were rounded down. */
  lemma BumpedHaveRemainder(raw: seq<nat>, units: nat, k: nat)
    requires Total(raw, |raw|) > 0 && 0 <= k < Residual(raw, units)
    ensures var rem := Remainders(raw, Total(raw, |raw|), units); var order := SortedOrder(rem, |rem|);
      k < |order| && rem[order[k]] > 0
  {
    hide Residual, Total, SortedOrder;
    var sum := Total(raw, |raw|);
    var rem := Remainders(raw, sum, units);
    var order := SortedOrder(rem, |rem|);
    ResidualInRange(raw, units);
    OrderMeaning(rem, |rem|);
    SumInOrder(rem);
    assert order[..|order|] == order;
    if rem[order[k]] == 0 {
      forall j | k <= j < |order| ensures rem[order[j]] == 0 {
        assert j == k || Sooner(rem, order[k], order[j]);
      }
      SumOrderBound(rem, order, |order|, k, sum - 1);
      BoundBelow(k, Residual(raw, units), sum);
      assert false;
    }
  }

  lemma BoundBelow(k: nat, r: nat, sum: nat)
    requires k < r && sum > 0
    ensures k * (sum - 1) < r * sum
  {
    Distribute(k, r - k, sum);
    assert k * (sum - 1) == k * sum - k;
  }

  // ---------------------------------------------------------------- the allocation

  /** The allocation never fails, and its parts. */
  lemma AllocationParts(raw: seq<nat>, units: nat)
    requires Total(raw, |raw|) > 0
    ensures var sum := Total(raw, |raw|); var rem := Remainders(raw, sum, units);
      var order := SortedOrder(rem, |raw|); var k := Residual(raw, units);
      && Allocate(raw, units).Some? && 0 <= k < |raw|
      && var u := Allocate(raw, units).value;
         && |u| == |raw| && Total(u, |raw|) == units
         && forall i :: 0 <= i < |raw| ==>
              u[i] == Whole(raw, sum, units, i) + if i in order[..k] then 1 else 0
  {
    hide SortedOrder, Total, Whole, Bump;
    var sum := Total(raw, |raw|);
    var rem := Remainders(raw, sum, units);
    var order := SortedOrder(rem, |raw|);
    ResidualInRange(raw, units);
    OrderMeaning(rem, |raw|);
    OrderDistinct(rem, order);
    var wholes := Wholes(raw, sum, units);
    BumpMeaning(wholes, order, Residual(raw, units));
    BumpTotal(wholes, order, Residual(raw, units));
    assert forall i :: 0 <= i < |raw| ==> wholes[i] == Whole(raw, sum, units, i);
  }

  /** All units are handed out, and each share is its exact one rounded down or up. */
  lemma AllocationIsExact(raw: seq<nat>, units: nat)
    requires Total(raw, |raw|) > 0
    ensures var sum := Total(raw, |raw|);
      && Allocate(raw, units).Some?
      && var u := Allocate(raw, units).value;
         && |u| == |raw| && Total(u, |u|) == units
         && forall i :: 0 <= i < |raw| ==> Rounded(u[i], raw[i], sum, units)
  {
    hide SortedOrder, Total, Allocate, Residual, Whole;
    AllocationParts(raw, units);
    var sum := Total(raw, |raw|);
    var u := Allocate(raw, units).value;
    forall i | 0 <= i < |raw| ensures Rounded(u[i], raw[i], sum, units) {
      ShareBounds(raw, units, i);
    }
  }

  /** `u` is the exact share `raw * units / sum` rounded down or up. */
  predicate Rounded(u: nat, raw: nat, sum: nat, units: nat) {
    u * sum < raw * units + sum && raw * units < u * sum + sum
  }

  lemma RoundedEither(raw: nat, sum: nat, units: nat)
    requires sum > 0
    ensures Rounded(raw * units / sum, raw, sum, units)
    ensures raw * units % sum > 0 ==> Rounded(raw * units / sum + 1, raw, sum, units)
  {
    var w := raw * units / sum;
    assert raw * units == w * sum + raw * units % sum;
    Distribute(w, 1, sum);
  }

  lemma ShareBounds(raw: seq<nat>, units: nat, i: nat)
    requires Total(raw, |raw|) > 0 && i < |raw|
    ensures var sum := Total(raw, |raw|);
      Allocate(raw, units).Some? && i < |Allocate(raw, units).value|
      && Rounded(Allocate(raw, units).value[i], raw[i], sum, units)
  {
    hide SortedOrder, Total, Allocate, Residual, Rounded;
    AllocationParts(raw, units);
    var sum := Total(raw, |raw|);
    var rem := Remainders(raw, sum, units);
    var order := SortedOrder(rem, |raw|);
    RoundedEither(raw[i], sum, units);
    if i in order[..Residual(raw, units)] {
      var k :| 0 <= k < Residual(raw, units) && order[..Residual(raw, units)][k] == i;
      BumpedHaveRemainder(raw, units, k);
    }
  }

  /** A strictly larger raw weight never gets fewer units; equal ones differ by at most one, in
      favour of the lower address. */
  lemma AllocationIsFair(raw: seq<nat>, units: nat, i: nat, j: nat)
    requires Total(raw, |raw|) > 0 && units > 0 && i < |raw| && j < |raw|
    ensures Allocate(raw, units).Some? && |Allocate(raw, units).value| == |raw|
    ensures var u := Allocate(raw, units).value;
      && (raw[i] > raw[j] ==> u[i] >= u[j])
      && (raw[i] == raw[j] && i < j ==> u[j] <= u[i] <= u[j] + 1)
  {
    hide SortedOrder, Total, Allocate, Residual;
    AllocationParts(raw, units);
    var sum := Total(raw, |raw|);
    var rem := Remainders(raw, sum, units);
    var order := SortedOrder(rem, |raw|);
    OrderMeaning(rem, |raw|);
    var k := Residual(raw, units);
    if raw[i] > raw[j] || (raw[i] == raw[j] && i < j) {
      LargerShare(raw[i], raw[j], units, sum);
      if Whole(raw, sum, units, i) == Whole(raw, sum, units, j) && j in order[..k] {
        BumpedIsPrefix(rem, order, k, i, j);
      }
    }
  }

  lemma LargerShare(a: nat, b: nat, units: nat, sum: nat)
    requires a >= b && units > 0 && sum > 0
    ensures a * units / sum >= b * units / sum
    ensures a > b && a * units / sum == b * units / sum ==> a * units % sum > b * units % sum
  {
    var x, y := a * units, b * units;
    Distribute(b, a - b, units);
    assert x == y + (a - b) * units && (a > b ==> x > y);
    QuotientMonotone(x, y, sum);
  }

  lemma QuotientMonotone(x: nat, y: nat, sum: nat)
    requires x >= y && sum > 0
    ensures x / sum >= y / sum
    ensures x > y && x / sum == y / sum ==> x % sum > y % sum
  {
    var p, q := x / sum, y / sum;
    assert x == p * sum + x % sum && y == q * sum + y % sum;
    LessByProduct(q - 1, p, sum) by { assert (q - 1) * sum == q * sum - sum; }
  }
}
