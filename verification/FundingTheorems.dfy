/** Funding goes to at most one cycle and none of it is lost, over every history that is built. */
module FundingTheorems {

  import opened Sequences
  import opened CycleSpec
  import opened CycleTheorems
  import opened CycleBuilder
  import opened CycleReconstruction
  import opened PositionCycles

  // ---------------------------------------------------------------- at most one candidate

  /** Two cycles of a coin keep their order in the coin's list. */
  lemma {:induction false} PositionsInCoin(vs: seq<Cycle>, i: nat, j: nat, c: Coin) returns (p: nat, q: nat)
    requires i < j < |vs| && vs[i].coin == c && vs[j].coin == c
    ensures p < q < |ForCoin(vs, c)| && ForCoin(vs, c)[p] == vs[i] && ForCoin(vs, c)[q] == vs[j]
  {
    var n := |vs| - 1;
    if j < n {
      p, q := PositionsInCoin(vs[..n], i, j, c);
    } else {
      FilterMembers(OfCoin(c), vs[..n]);
      assert vs[..n][i] == vs[i] && vs[i] in ForCoin(vs[..n], c);
      p :| 0 <= p < |ForCoin(vs[..n], c)| && ForCoin(vs[..n], c)[p] == vs[i];
      q := |ForCoin(vs[..n], c)|;
    }
  }

  /** No item of funding ever has two candidates. */
  lemma NeverTwoCandidates(fills: seq<Fill>, vs: seq<Cycle>, item: Funding)
    requires Parsed(fills) && AllCycles(fills, vs)
    ensures Allocate(vs, item) != MultipleCandidates
  {
    hide ForCoin, RunCoin, Covers, AtBoundary, OwnFills;
    var active := Candidates(vs, |vs|, item);
    if |active| > 1 {
      var i, j, c := active[0], active[1], item.coin;
      CoversOwnCoin(vs[i], item);
      CoversOwnCoin(vs[j], item);
      var p, q := PositionsInCoin(vs, i, j, c);
      OwnFillsAreSound(fills, c);
      var own := OwnFills(fills, c);
      OpenIntervalsAreDisjoint(own, |own|, p, q);
    }
  }

  lemma CoversOwnCoin(c: Cycle, item: Funding)
    requires Covers(c, item)
    ensures c.coin == item.coin
  {
  }

  // ---------------------------------------------------------------- conservation

  /** What the first `m` cycles receive of the first `n` items. */
  function ReceivedTotal(vs: seq<Cycle>, m: nat, items: seq<Funding>, n: nat): real
    requires n <= |items|
  {
    if m == 0 then 0.0 else ReceivedTotal(vs, m - 1, items, n) + RealSum(AmountOf, Received(vs, m - 1, items, n))
  }

  function UnplacedAmount(u: Unallocated): real {
    u.item.amount
  }

  lemma {:induction false} ReceivedGrows(vs: seq<Cycle>, m: nat, items: seq<Funding>, n: nat)
    requires n < |items|
    ensures var verdict := Allocate(vs, items[n]);
      ReceivedTotal(vs, m, items, n + 1)
        == ReceivedTotal(vs, m, items, n) + if verdict.To? && verdict.index < m then items[n].amount else 0.0
  {
    hide Allocate, RealSum, Received;
    if m > 0 {
      ReceivedGrows(vs, m - 1, items, n);
      OneReceives(vs, m - 1, items, n);
    }
  }

  lemma OneReceives(vs: seq<Cycle>, k: nat, items: seq<Funding>, n: nat)
    requires n < |items|
    ensures RealSum(AmountOf, Received(vs, k, items, n + 1))
         == RealSum(AmountOf, Received(vs, k, items, n))
             + if Allocate(vs, items[n]) == To(k) then items[n].amount else 0.0
  {
    hide Allocate, RealSum, Filter;
    FilterPrefix(GoesTo(vs, k), items, n + 1);
    RealAppend(AmountOf, Received(vs, k, items, n), items[n]);
    assert Received(vs, k, items, n) + [] == Received(vs, k, items, n);
  }

  /** Every amount is received by one cycle or reported: nothing is lost and nothing counted twice. */
  lemma {:induction false} FundingIsConserved(vs: seq<Cycle>, items: seq<Funding>, n: nat)
    requires n <= |items|
    ensures ReceivedTotal(vs, |vs|, items, n) + RealSum(UnplacedAmount, Unplaced(vs, items, n))
         == RealSum(AmountOf, items[..n])
  {
    hide Allocate, RealSum, Received;
    if n == 0 {
      NothingTotal(vs, |vs|, items);
    } else {
      FundingIsConserved(vs, items, n - 1);
      ReceivedGrows(vs, |vs|, items, n - 1);
      PrefixGrows(AmountOf, items, n);
      AllocatedInRange(vs, items[n - 1]);
      var verdict := Allocate(vs, items[n - 1]);
      RealAppend(UnplacedAmount, Unplaced(vs, items, n - 1), Unallocated(items[n - 1], verdict));
      assert Unplaced(vs, items, n - 1) + [] == Unplaced(vs, items, n - 1);
    }
  }

  lemma {:induction false} NothingTotal(vs: seq<Cycle>, m: nat, items: seq<Funding>)
    ensures ReceivedTotal(vs, m, items, 0) == 0.0
    ensures RealSum(AmountOf, items[..0]) == 0.0 && RealSum(UnplacedAmount, Unplaced(vs, items, 0)) == 0.0
  {
    if m > 0 { NothingTotal(vs, m - 1, items); }
  }

  function PaidOf(f: Finalized): real {
    f.pnl.funding
  }

  lemma {:induction false} PaidIsReceived(fills: seq<Fill>, funding: seq<Funding>, vs: seq<Cycle>, r: BuildResult,
                                          m: nat)
    requires Parsed(fills) && IsHistory(fills, funding, vs, r) && m <= |vs|
    ensures RealSum(PaidOf, r.cycles[..m]) == ReceivedTotal(vs, m, Sorted(funding), |Sorted(funding)|)
  {
    hide RealSum, AllCycles, Received, Unplaced;
    if m == 0 {
      NoPay(r.cycles);
    } else {
      PaidIsReceived(fills, funding, vs, r, m - 1);
      PrefixGrows(PaidOf, r.cycles, m);
      ListedCycle(fills, vs, m - 1);
      var received := Received(vs, m - 1, Sorted(funding), |Sorted(funding)|);
      assert vs[m - 1].funding + received == received;
      PaidByPnl(r.cycles[m - 1]);
    }
  }

  lemma NoPay(cs: seq<Finalized>)
    ensures RealSum(PaidOf, cs[..0]) == 0.0
  {
  }

  lemma PaidByPnl(f: Finalized)
    requires CyclePnl(f.cycle.fills, f.cycle.funding) == Some(f.pnl)
    ensures PaidOf(f) == RealSum(AmountOf, f.cycle.funding)
  {
    hide RealSum;
  }

  lemma {:induction false} RealSumWithout<T>(f: T -> real, s: seq<T>, k: nat)
    requires k < |s|
    ensures RealSum(f, s) == f(s[k]) + RealSum(f, Without(s, k))
  {
    var n := |s| - 1;
    if k < n {
      RealSumWithout(f, s[..n], k);
      RealAppend(f, Without(s[..n], k), s[n]);
      WithoutFront(s, k);
    } else {
      assert Without(s, k) == s[..n];
    }
  }

  /** A sum of amounts does not depend on the order of the listing. */
  lemma {:induction false} RealSumPermuted<T>(f: T -> real, a: seq<T>, b: seq<T>)
    requires multiset(a) == multiset(b)
    ensures RealSum(f, a) == RealSum(f, b)
  {
    if a == [] {
      assert |multiset(b)| == 0;
    } else {
      var n := |a| - 1;
      assert a[n] in multiset(b);
      var k :| 0 <= k < |b| && b[k] == a[n];
      WithoutMultiset(a, n);
      WithoutMultiset(b, k);
      assert Without(a, n) == a[..n];
      RealSumPermuted(f, a[..n], Without(b, k));
      RealSumWithout(f, b, k);
    }
  }

  /** Over every history: the funding in the results plus the funding reported as unallocated is all the
      funding handed in, and no item is reported for having several candidates. */
  lemma HistoryConservesFunding(fills: seq<Fill>, funding: seq<Funding>, vs: seq<Cycle>, r: BuildResult)
    requires Parsed(fills) && IsHistory(fills, funding, vs, r)
    ensures RealSum(PaidOf, r.cycles) + RealSum(UnplacedAmount, r.unallocated) == RealSum(AmountOf, funding)
    ensures forall u :: u in r.unallocated ==> u.reason == BoundaryAmbiguous || u.reason == NoTrustedCycle
  {
    hide RealSum, AllCycles, Unplaced, Sorted;
    var items := Sorted(funding);
    SortedFunding(funding);
    RealSumPermuted(AmountOf, items, funding);
    PaidIsReceived(fills, funding, vs, r, |vs|);
    FundingIsConserved(vs, items, |items|);
    assert r.cycles[..|vs|] == r.cycles && items[..|items|] == items;
    ReasonsGiven(fills, vs, items, |items|);
  }

  lemma SortedFunding(funding: seq<Funding>)
    ensures multiset(Sorted(funding)) == multiset(funding)
  {
    SortByBothElements(FundingTime, FundingId, funding);
  }

  lemma {:induction false} ReasonsGiven(fills: seq<Fill>, vs: seq<Cycle>, items: seq<Funding>, n: nat)
    requires Parsed(fills) && AllCycles(fills, vs) && n <= |items|
    ensures forall u :: u in Unplaced(vs, items, n) ==> u.reason == BoundaryAmbiguous || u.reason == NoTrustedCycle
  {
    hide AllCycles, Allocate;
    if n > 0 {
      ReasonsGiven(fills, vs, items, n - 1);
      NeverTwoCandidates(fills, vs, items[n - 1]);
    }
  }

  // ---------------------------------------------------------------- the order of the input

  /** The cycles of every coin are the same whatever the order in which the fills are handed in. */
  lemma CyclesIgnoreListing(fills: seq<Fill>, again: seq<Fill>, c: Coin)
    requires Parsed(fills) && multiset(fills) == multiset(again)
    ensures Parsed(again) && CoinCycles(again, c) == CoinCycles(fills, c)
  {
    hide SortByBoth, RunCoin, Suffix, CoinFills;
    SameCountDistinct(IdOf, again, fills);
    forall k | 0 <= k < |again| ensures Positive(again[k]) {
      assert again[k] in multiset(fills);
      var j :| 0 <= j < |fills| && fills[j] == again[k];
    }
    SortedByBoth(TimeOf, IdOf, fills);
    SortedByBoth(TimeOf, IdOf, again);
    var a, b := SortByBoth(TimeOf, IdOf, fills), SortByBoth(TimeOf, IdOf, again);
    SortByBothElements(TimeOf, IdOf, fills);
    SortByBothElements(TimeOf, IdOf, again);
    forall x ensures x in a <==> x in b {
      assert x in multiset(fills) <==> x in multiset(again);
    }
    OrderUnique(TimeOf, IdOf, a, b);
  }
}
