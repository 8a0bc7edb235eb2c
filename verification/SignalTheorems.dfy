/** What a signal guarantees to the stage after it: weights and events are conserved, every number is
    exact and in range, and the direction-change validator accepts it whenever it says VALID. */
module SignalTheorems {

  import opened Sequences
  import opened Aggregation
  import opened BehaviorSignal
  import W = WalletWeight
  import A = Allocation
  import T = AggregationTheorems
  import D = DirectionChange

  // ---------------------------------------------------------------- exact arithmetic

  lemma RoundExact(rnd: real -> real, n: int)
    requires Rounding80(rnd) && -PRECISION < n < PRECISION
    ensures rnd(Nineteenth(n)) == Nineteenth(n)
  {
  }

  lemma NineteenthAdds(m: int, n: int)
    ensures Nineteenth(m) + Nineteenth(n) == Nineteenth(m + n)
    ensures Nineteenth(m) - Nineteenth(n) == Nineteenth(m - n)
    ensures m <= n <==> Nineteenth(m) <= Nineteenth(n)
    ensures Nineteenth(0) == 0.0 && Nineteenth(10 * A.SCALE) == 1.0
  {
  }

  /** The units of 10^-19 that a wallet puts on one side. */
  function SideUnits(own: nat, other: nat, weight: nat): nat {
    if own == 0 then 0 else if other == 0 then 10 * weight else 5 * weight
  }

  lemma ShareIsExact(own: nat, other: nat, weight: nat, rnd: real -> real)
    requires Rounding80(rnd) && weight <= A.SCALE
    ensures SideValue(weight, Share(own, other), rnd) == Nineteenth(SideUnits(own, other, weight))
  {
    hide Rounding80;
    assert WeightValue(weight) * Share(own, other) == Nineteenth(SideUnits(own, other, weight));
    RoundExact(rnd, SideUnits(own, other, weight));
  }

  function Own(entry: W.Entry, events: seq<Event>): seq<Event> {
    Filter(TradedBy(entry.input.member.walletAddressId), events)
  }

  function BuyUnits(events: seq<Event>): W.Entry -> int {
    e => SideUnits(|Filter(IsBuy, Own(e, events))|, |Filter(IsSell, Own(e, events))|, e.units)
  }

  function SellUnits(events: seq<Event>): W.Entry -> int {
    e => SideUnits(|Filter(IsSell, Own(e, events))|, |Filter(IsBuy, Own(e, events))|, e.units)
  }

  /** The weight of a wallet that traded in the bucket. */
  function ActiveUnits(events: seq<Event>): W.Entry -> int {
    e => if Own(e, events) != [] then e.units else 0
  }

  lemma OneContribution(e: W.Entry, events: seq<Event>, rnd: real -> real)
    requires Rounding80(rnd) && e.units <= A.SCALE
    ensures var c := ContributionOf(e, events, rnd);
      && c.buyContribution == Nineteenth(BuyUnits(events)(e)) && c.sellContribution == Nineteenth(SellUnits(events)(e))
      && (Participates(c) <==> Own(e, events) != [])
      && c.buyEventCount + c.sellEventCount == |Own(e, events)|
      && c.buyNotional + c.sellNotional == Sum(UnitsOf, Own(e, events))
    ensures BuyUnits(events)(e) + SellUnits(events)(e) == 10 * ActiveUnits(events)(e)
  {
    hide Rounding80, Filter, IsBuyOf, Sum, WeightValue, Share, SideValue, Nineteenth;
    var buy, sell := Filter(IsBuy, Own(e, events)), Filter(IsSell, Own(e, events));
    FilterSplits(IsBuy, IsSell, UnitsOf, Own(e, events));
    ShareIsExact(|buy|, |sell|, e.units, rnd);
    ShareIsExact(|sell|, |buy|, e.units, rnd);
  }

  ghost predicate WeightsAddUp(entries: seq<W.Entry>) {
    && 0 < |entries| <= MAX_MEMBERS && Sum(W.UnitsOfEntry, entries) == A.SCALE
  }

  lemma {:induction false} SumBetween<T>(f: T -> int, g: T -> int, k: nat, s: seq<T>, n: nat)
    requires n <= |s| && forall i :: 0 <= i < |s| ==> 0 <= f(s[i]) <= k * g(s[i])
    ensures 0 <= Sum(f, s[..n]) <= k * Sum(g, s[..n])
  {
    if n > 0 {
      SumBetween(f, g, k, s, n - 1);
      assert s[..n] == s[..n - 1] + [s[n - 1]];
      SumAppend(f, s[..n - 1], s[n - 1]);
      SumAppend(g, s[..n - 1], s[n - 1]);
      Distribute(Sum(g, s[..n - 1]), g(s[n - 1]), k);
    }
  }

  lemma {:induction false} PrefixSum<T>(f: T -> int, s: seq<T>, n: nat)
    requires n <= |s| && forall i :: 0 <= i < |s| ==> 0 <= f(s[i])
    ensures 0 <= Sum(f, s[..n]) <= Sum(f, s)
    decreases |s|
  {
    if n < |s| {
      assert s[..|s| - 1][..n] == s[..n];
      PrefixSum(f, s[..|s| - 1], n);
    } else {
      assert s[..n] == s;
      if n > 0 { PrefixSum(f, s[..n - 1], n - 1); }
    }
  }

  lemma SumsBelowOne(g: W.Entry -> int, entries: seq<W.Entry>, n: nat)
    requires WeightsAddUp(entries) && n <= |entries|
    requires forall i :: 0 <= i < |entries| ==> 0 <= g(entries[i]) <= 10 * entries[i].units
    ensures 0 <= Sum(g, entries[..n]) <= 10 * A.SCALE
    ensures n > 0 ==> Sum(g, entries[..n]) == Sum(g, entries[..n - 1]) + g(entries[n - 1])
  {
    assert forall i :: 0 <= i < |entries| ==> W.UnitsOfEntry(entries[i]) == entries[i].units;
    SumBetween(g, W.UnitsOfEntry, 10, entries, n);
    PrefixSum(W.UnitsOfEntry, entries, n);
    if n > 0 {
      assert entries[..n] == entries[..n - 1] + [entries[n - 1]];
      SumAppend(g, entries[..n - 1], entries[n - 1]);
    }
  }

  /** The rounded fold of exact contributions is their exact sum. */
  lemma {:induction false} FoldIsExact(f: Contribution -> real, g: W.Entry -> int, entries: seq<W.Entry>,
                                       cs: seq<Contribution>, n: nat, rnd: real -> real)
    requires Rounding80(rnd) && WeightsAddUp(entries) && |cs| == |entries| && n <= |cs|
    requires forall i :: 0 <= i < |cs| ==>
      f(cs[i]) == Nineteenth(g(entries[i])) && 0 <= g(entries[i]) <= 10 * entries[i].units
    ensures Folded(f, cs, n, rnd) == Nineteenth(Sum(g, entries[..n]))
  {
    hide Rounding80, Nineteenth, WeightsAddUp;
    if n == 0 {
      NineteenthAdds(0, 0);
    } else {
      hide Sum;
      FoldIsExact(f, g, entries, cs, n - 1, rnd);
      SumsBelowOne(g, entries, n);
      NineteenthAdds(Sum(g, entries[..n - 1]), g(entries[n - 1]));
      RoundExact(rnd, Sum(g, entries[..n]));
    }
  }

  lemma UnitsBelowScale(entries: seq<W.Entry>, i: nat)
    requires WeightsAddUp(entries) && i < |entries|
    ensures entries[i].units <= A.SCALE
  {
    PrefixSum(W.UnitsOfEntry, entries, i + 1);
    PrefixSum(W.UnitsOfEntry, entries, i);
    assert entries[..i + 1] == entries[..i] + [entries[i]];
    SumAppend(W.UnitsOfEntry, entries[..i], entries[i]);
  }

  // ---------------------------------------------------------------- strengths

  lemma {:induction false} SumSplits<T>(f: T -> int, g: T -> int, h: T -> int, k: int, s: seq<T>)
    requires forall i :: 0 <= i < |s| ==> f(s[i]) + g(s[i]) == k * h(s[i])
    ensures Sum(f, s) + Sum(g, s) == k * Sum(h, s)
  {
    if s != [] {
      var n := |s| - 1;
      SumSplits(f, g, h, k, s[..n]);
      Distribute(Sum(h, s[..n]), h(s[n]), k);
    }
  }

  lemma ContributionsAreExact(entries: seq<W.Entry>, events: seq<Event>, rnd: real -> real, i: nat)
    requires Rounding80(rnd) && WeightsAddUp(entries) && i < |entries|
    ensures var c, e := Contributions(entries, events, rnd)[i], entries[i];
      && BuyOf(c) == Nineteenth(BuyUnits(events)(e)) && SellOf(c) == Nineteenth(SellUnits(events)(e))
      && 0 <= BuyUnits(events)(e) <= 10 * e.units && 0 <= SellUnits(events)(e) <= 10 * e.units
      && BuyUnits(events)(e) + SellUnits(events)(e) == 10 * ActiveUnits(events)(e)
      && 0 <= ActiveUnits(events)(e) <= 1 * W.UnitsOfEntry(e)
  {
    hide Rounding80, Nineteenth, Filter, ContributionOf;
    UnitsBelowScale(entries, i);
    OneContribution(entries[i], events, rnd);
  }

  /** What the sums of the two sides make of a signal. */
  lemma SignalFromSums(evidence: Evidence, cs: seq<Contribution>, rnd: real -> real, b: nat, d: nat)
    requires Rounding80(rnd) && b + d <= 10 * A.SCALE
    requires Folded(BuyOf, cs, |cs|, rnd) == Nineteenth(b) && Folded(SellOf, cs, |cs|, rnd) == Nineteenth(d)
    ensures var s := SignalOf(evidence, cs, rnd);
      && s.buyStrength == Nineteenth(b) && s.sellStrength == Nineteenth(d) && s.netSignal == Nineteenth(b - d)
      && s.mass == Nineteenth(b + d)
  {
    hide Rounding80, Nineteenth, Filter, Folded, Round18;
    NineteenthAdds(b, d);
    RoundExact(rnd, b + d);
    RoundExact(rnd, b - d);
  }

  lemma StrengthFolds(entries: seq<W.Entry>, events: seq<Event>, rnd: real -> real)
    requires Rounding80(rnd) && WeightsAddUp(entries)
    ensures var cs := Contributions(entries, events, rnd);
      var b, d, m := Sum(BuyUnits(events), entries), Sum(SellUnits(events), entries), Sum(ActiveUnits(events), entries);
      && Folded(BuyOf, cs, |cs|, rnd) == Nineteenth(b) && Folded(SellOf, cs, |cs|, rnd) == Nineteenth(d)
      && b + d == 10 * m && 0 <= b && 0 <= d && 0 <= m <= A.SCALE
  {
    hide Rounding80, Nineteenth, Filter, BuyUnits, SellUnits, ActiveUnits, ContributionOf, BuyOf, SellOf, Sum;
    var cs := Contributions(entries, events, rnd);
    forall i | 0 <= i < |entries|
      ensures BuyOf(cs[i]) == Nineteenth(BuyUnits(events)(entries[i]))
        && SellOf(cs[i]) == Nineteenth(SellUnits(events)(entries[i]))
      ensures 0 <= BuyUnits(events)(entries[i]) <= 10 * entries[i].units
      ensures 0 <= SellUnits(events)(entries[i]) <= 10 * entries[i].units
      ensures BuyUnits(events)(entries[i]) + SellUnits(events)(entries[i]) == 10 * ActiveUnits(events)(entries[i])
      ensures 0 <= ActiveUnits(events)(entries[i]) <= 1 * W.UnitsOfEntry(entries[i])
    {
      ContributionsAreExact(entries, events, rnd, i);
    }
    FoldIsExact(BuyOf, BuyUnits(events), entries, cs, |cs|, rnd);
    FoldIsExact(SellOf, SellUnits(events), entries, cs, |cs|, rnd);
    assert entries[..|cs|] == entries;
    SumSplits(BuyUnits(events), SellUnits(events), ActiveUnits(events), 10, entries);
    SumBetween(ActiveUnits(events), W.UnitsOfEntry, 1, entries, |entries|);
    SumsBelowOne(BuyUnits(events), entries, |entries|);
    SumsBelowOne(SellUnits(events), entries, |entries|);
  }

  /** The strengths are exact, and together they are the weight of the wallets that traded. */
  lemma StrengthsAreExact(entries: seq<W.Entry>, events: seq<Event>, evidence: Evidence, rnd: real -> real)
    requires Rounding80(rnd) && WeightsAddUp(entries)
    ensures var s := SignalOf(evidence, Contributions(entries, events, rnd), rnd);
      var b, d, m := Sum(BuyUnits(events), entries), Sum(SellUnits(events), entries), Sum(ActiveUnits(events), entries);
      && s.buyStrength == Nineteenth(b) && s.sellStrength == Nineteenth(d) && s.netSignal == Nineteenth(b - d)
      && s.mass == Nineteenth(10 * m) && b + d == 10 * m && 0 <= b && 0 <= d && 0 <= m <= A.SCALE
  {
    hide Rounding80, Nineteenth, Filter, BuyUnits, SellUnits, ActiveUnits, ContributionOf, SignalOf, BuyOf, SellOf, Sum;
    StrengthFolds(entries, events, rnd);
    SignalFromSums(evidence, Contributions(entries, events, rnd), rnd, Sum(BuyUnits(events), entries),
                   Sum(SellUnits(events), entries));
  }

  // ---------------------------------------------------------------- agreement, breadth and confidence

  /** Rounding keeps what lies between 0 and a bound of 19 decimals there. */
  lemma RoundWithin(rnd: real -> real, x: real, n: nat)
    requires Rounding80(rnd) && 0.0 <= x <= Nineteenth(n) && n < PRECISION
    ensures 0.0 <= rnd(x) <= Nineteenth(n)
  {
    assert rnd(Nineteenth(0)) == Nineteenth(0) == 0.0;
    assert rnd(Nineteenth(n)) == Nineteenth(n);
  }

  lemma TimesWithin(rnd: real -> real, x: real, y: real, n: nat)
    requires Rounding80(rnd) && 0.0 <= x <= 1.0 && 0.0 <= y <= Nineteenth(n) && n < PRECISION
    ensures 0.0 <= Times(x, y, rnd) <= Nineteenth(n)
  {
    hide Rounding80, Nineteenth;
    W.Product(0.0, x, y, y);
    W.Product(x, 1.0, y, y);
    RoundWithin(rnd, x * y, n);
  }

  lemma Round18Within(x: real, n: nat)
    requires 0.0 <= x <= n as real / 1_000_000_000_000_000_000.0
    ensures 0.0 <= Round18(x) <= n as real / 1_000_000_000_000_000_000.0
    ensures D.AtMost18Places(Round18(x))
  {
    W.HalfEvenMonotone(0.0, x * 1_000_000_000_000_000_000.0);
    W.HalfEvenMonotone(x * 1_000_000_000_000_000_000.0, n as real);
    W.HalfEvenInteger(n);
    W.HalfEvenInteger(0);
    assert Round18(x) * 1_000_000_000_000_000_000.0 == W.HalfEven(x * 1_000_000_000_000_000_000.0) as real;
  }

  /** 0.995, above the breadth of 200 wallets, in units of 10^-18. */
  const CEILING: nat := 995_000_000_000_000_000

  lemma HalfProduct(x: real, y: real)
    requires x > 0.0 && y > 0.0
    ensures x * y > 0.0
  {
  }

  lemma BreadthWithin(n: nat, rnd: real -> real)
    requires Rounding80(rnd) && n <= MAX_MEMBERS
    ensures 0.0 <= Breadth(n, rnd) <= Nineteenth(10 * CEILING)
  {
    hide Rounding80;
    UnitLiterals();
    QuotientBelow(n as real, n as real + BREADTH_ANCHOR, 0.995);
    RoundWithin(rnd, n as real / (n as real + BREADTH_ANCHOR), 10 * CEILING);
  }

  lemma QuotientBelow(x: real, d: real, top: real)
    requires d > 0.0 && 0.0 <= x <= top * d
    ensures 0.0 <= x / d <= top
  {
    var q := x / d;
    assert q * d == x;
    if q > top { HalfProduct(q - top, d); }
    if q < 0.0 { HalfProduct(0.0 - q, d); }
  }

  lemma AgreementWithin(b: nat, d: nat, rnd: real -> real)
    requires Rounding80(rnd) && b + d <= 10 * A.SCALE
    ensures 0.0 <= Agreement(Nineteenth(b), Nineteenth(d), Nineteenth(b + d), rnd) <= Nineteenth(10 * A.SCALE)
  {
    hide Rounding80;
    var mass, top := Nineteenth(b + d), Nineteenth(if b >= d then b else d);
    NineteenthAdds(b, d);
    if mass != 0.0 {
      QuotientBelow(top, mass, 1.0);
      RoundWithin(rnd, top / mass, 10 * A.SCALE);
    }
  }

  /** Agreement, breadth and confidence stay in range; confidence stays below 1. */
  lemma SignalIsBounded(evidence: Evidence, cs: seq<Contribution>, rnd: real -> real, b: nat, d: nat)
    requires Rounding80(rnd) && b + d <= 10 * A.SCALE && |cs| <= MAX_MEMBERS
    requires Folded(BuyOf, cs, |cs|, rnd) == Nineteenth(b) && Folded(SellOf, cs, |cs|, rnd) == Nineteenth(d)
    ensures var s := SignalOf(evidence, cs, rnd);
      && (s.status == SignalValid <==> b + d > 0)
      && 0.0 <= s.confidence <= 0.995 && D.AtMost18Places(s.confidence)
      && 0.0 <= s.agreement <= 1.0 && 0.0 <= s.breadth <= 0.995
  {
    hide Rounding80, Filter, Folded, Round18, Nineteenth, Agreement, Breadth, Times, D.AtMost18Places;
    FilterMembers(Participates, cs);
    NineteenthAdds(b, d);
    NineteenthAdds(b + d, 0);
    RoundExact(rnd, b + d);
    AgreementWithin(b, d, rnd);
    BreadthWithin(|Filter(Participates, cs)|, rnd);
    UnitLiterals();
    var agreement := Agreement(Nineteenth(b), Nineteenth(d), Nineteenth(b + d), rnd);
    var breadth := Breadth(|Filter(Participates, cs)|, rnd);
    NineteenthAdds(b + d, 10 * A.SCALE);
    TimesWithin(rnd, Nineteenth(b + d), agreement, 10 * A.SCALE);
    TimesWithin(rnd, Times(Nineteenth(b + d), agreement, rnd), breadth, 10 * CEILING);
    Round18Within(Times(Times(Nineteenth(b + d), agreement, rnd), breadth, rnd), CEILING);
    Round18Within(agreement, A.SCALE);
    Round18Within(breadth, CEILING);
  }

  lemma UnitLiterals()
    ensures Nineteenth(10 * A.SCALE) == 1.0 == A.SCALE as real / 1_000_000_000_000_000_000.0
    ensures Nineteenth(10 * CEILING) == 0.995 == CEILING as real / 1_000_000_000_000_000_000.0
  {
  }

  // ---------------------------------------------------------------- accepted receipts

  /** An aggregate receipt that passes its check is the one the aggregation issues for its snapshot. */
  lemma AcceptedAggregate(a: Receipt, hash: Hash)
    requires AggregateProblem(a, hash).None?
    ensures var s := a.aggregate.snapshot;
      && AggregateBucket(s, hash) == Some(a.aggregate) && a.aggregate.status != Blocked
      && s.members != [] && BucketStart(s.start).Some? && a == ReceiptOf(a.aggregate)
      && s.start == At(BucketStart(s.start).value) && 0 < |s.coin| <= 100
  {
    hide AggregateBucket, BucketStart;
    AggregateKey(a.aggregate.snapshot, hash);
  }

  /** A weight receipt that passes its check is the one the weighting issues for its rows. */
  lemma AcceptedWeights(w: WeightReceipt, rnd: real -> real)
    requires W.Rounding(rnd) && WeightProblem(w, rnd).None?
    ensures WeightsAddUp(w.entries) && DistinctWallets(w.entries)
    ensures w.rows != [] && w == WeightReceiptOf(w.rows, w.entries)
    ensures W.CalculateWalletWeights(w.rows, rnd) == W.Weights(w.entries)
  {
    hide W.Rounding, W.CalculateWalletWeights, SortBy, A.Rounded, W.FairPair;
    WeightedRows(w.rows, rnd);
    W.WeightsGuarantee(w.rows, rnd);
    EntriesOfRows(w.rows, w.entries, rnd);
  }

  /** Accepted receipts speak of the same cohort. */
  lemma AcceptedCohort(a: Receipt, w: WeightReceipt, hash: Hash, rnd: real -> real)
    requires W.Rounding(rnd) && ReceiptProblem(a, w, hash, rnd).None?
    ensures a.aggregate.snapshot.members == SortBy(WalletOf, W.Members(w.rows))
    ensures a.selectionRunId == w.selectionRunId
  {
    hide W.Rounding, AggregateBucket, W.CalculateWalletWeights, SortBy, BucketStart;
    AcceptedAggregate(a, hash);
    AcceptedWeights(w, rnd);
  }

  ghost predicate DistinctWallets(entries: seq<W.Entry>) {
    forall i, j :: 0 <= i < j < |entries| ==> WalletOfEntry(entries[i]) != WalletOfEntry(entries[j])
  }

  function WalletOfEntry(e: W.Entry): Id {
    e.input.member.walletAddressId
  }

  lemma EntriesOfRows(rows: seq<W.Input>, entries: seq<W.Entry>, rnd: real -> real)
    requires W.Rounding(rnd) && W.CalculateWalletWeights(rows, rnd) == W.Weights(entries)
    ensures 0 < |entries| <= MAX_MEMBERS && DistinctWallets(entries)
    ensures forall x: Id :: InScope(SortBy(WalletOf, W.Members(rows)), x)
              <==> exists i :: 0 <= i < |entries| && WalletOfEntry(entries[i]) == x
  {
    hide W.Rounding, SortBy, W.RawUnits, A.Allocate, W.RowError;
    var sorted := SortBy(W.AddressOf, rows);
    SortElements(W.AddressOf, rows);
    SortRearranges(W.AddressOf, rows);
    assert |entries| == |rows| == |W.Members(rows)| && forall i :: 0 <= i < |rows| ==> entries[i].input == sorted[i];
    W.WalletKeys(rows);
    SameCountDistinct(W.WalletOfInput, sorted, rows);
    assert forall i, j :: 0 <= i < j < |sorted| ==> W.WalletOfInput(sorted[i]) != W.WalletOfInput(sorted[j]);
    T.MembersSorted(W.Members(rows));
    forall x: Id
      ensures InScope(W.Members(rows), x) <==> exists i :: 0 <= i < |entries| && WalletOfEntry(entries[i]) == x
    {
      EntriesCover(rows, sorted, x);
      if i :| 0 <= i < |entries| && WalletOfEntry(entries[i]) == x { assert sorted[i].member.walletAddressId == x; }
      if i :| 0 <= i < |sorted| && sorted[i].member.walletAddressId == x { assert WalletOfEntry(entries[i]) == x; }
    }
  }

  lemma EntriesCover(rows: seq<W.Input>, sorted: seq<W.Input>, x: Id)
    requires forall r :: r in sorted <==> r in rows
    ensures InScope(W.Members(rows), x) <==> exists i :: 0 <= i < |sorted| && sorted[i].member.walletAddressId == x
  {
    if InScope(W.Members(rows), x) {
      var i :| 0 <= i < |rows| && W.Members(rows)[i].walletAddressId == x;
      assert rows[i] in sorted;
      var j :| 0 <= j < |sorted| && sorted[j] == rows[i];
    }
    if i :| 0 <= i < |sorted| && sorted[i].member.walletAddressId == x {
      assert sorted[i] in rows;
      var j :| 0 <= j < |rows| && rows[j] == sorted[i];
      assert W.Members(rows)[j].walletAddressId == x;
    }
  }
}
