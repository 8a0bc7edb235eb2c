/** Split periods are always accepted by the wealth index, whose last point is one plus the return, and
    the growth telescopes to the end over the start, times before over after at every external flow. */
module ReturnTheorems {

  import opened Sequences
  import opened Returns

  // ---------------------------------------------------------------- orderly periods

  /** A period as the split makes it. */
  predicate Orderly(p: Period) {
    && p.from <= p.to && p.beginningNav > 0.0 && p.endingNav > 0.0
    && (p.rate + 1.0) * p.beginningNav == p.endingNav && p.rate + 1.0 > 0.0
  }

  ghost predicate InSequence(periods: seq<Period>) {
    && (forall k :: 0 <= k < |periods| ==> Orderly(periods[k]))
    && forall k :: 1 <= k < |periods| ==> periods[k - 1].to <= periods[k].from
  }

  lemma PeriodIsOrderly(beginning: NavPoint, ending: NavPoint)
    requires beginning.nav > 0.0 && ending.nav > 0.0 && beginning.time <= ending.time
    ensures Orderly(CreateReturnPeriod(beginning, ending))
  {
    var q := ending.nav / beginning.nav;
    assert q * beginning.nav == ending.nav;
    if q <= 0.0 { NonPositive(q, beginning.nav); }
  }

  lemma NonPositive(q: real, b: real)
    requires q <= 0.0 && b > 0.0
    ensures q * b <= 0.0
  {
  }

  lemma AppendPeriod(periods: seq<Period>, p: Period)
    requires InSequence(periods) && Orderly(p) && (periods != [] ==> periods[|periods| - 1].to <= p.from)
    ensures InSequence(periods + [p])
  {
  }

  lemma {:induction false} NeighboursInSequence(regular: seq<NavPoint>, n: nat)
    requires n < |regular| && PositiveNavs(regular) && InOrder(TimeOf, IdOf, regular)
    ensures var ps := Neighbours(regular, n);
      && |ps| == n && InSequence(ps) && (n > 0 ==> ps[n - 1].to == regular[n].time)
  {
    hide CreateReturnPeriod;
    if n > 0 {
      NeighboursInSequence(regular, n - 1);
      assert Before(TimeOf, IdOf, regular[n - 1], regular[n]);
      PeriodIsOrderly(regular[n - 1], regular[n]);
      PeriodEnds(regular[n - 1], regular[n]);
      AppendPeriod(Neighbours(regular, n - 1), CreateReturnPeriod(regular[n - 1], regular[n]));
    }
  }

  lemma PeriodEnds(beginning: NavPoint, ending: NavPoint)
    requires beginning.nav > 0.0
    ensures var p := CreateReturnPeriod(beginning, ending);
      p.from == beginning.time && p.to == ending.time && p.beginningNav == beginning.nav && p.endingNav == ending.nav
  {
  }

  lemma {:induction false} FlowsInSequence(points: seq<NavPoint>, flows: seq<CashFlow>, start: NavPoint, n: nat)
    requires n <= |flows| && PositiveNavs(points) && start.nav > 0.0 && LinkFlows(points, flows, start, n).Linked?
    ensures var l := LinkFlows(points, flows, start, n);
      && |l.periods| == n && InSequence(l.periods) && (n > 0 ==> l.periods[n - 1].to <= l.base.time)
  {
    hide CreateReturnPeriod, First;
    if n > 0 {
      FlowsInSequence(points, flows, start, n - 1);
      var base := LinkFlows(points, flows, start, n - 1).base;
      var before := First(AtFlow(FlowBefore, flows[n - 1].externalId), points).value;
      FirstMeaning(AtFlow(FlowBefore, flows[n - 1].externalId), points);
      PeriodIsOrderly(base, before);
      PeriodEnds(base, before);
      AppendPeriod(LinkFlows(points, flows, start, n - 1).periods, CreateReturnPeriod(base, before));
    }
  }

  lemma EndOfFlows(points: seq<NavPoint>, flows: seq<CashFlow>)
    requires PositiveNavs(points) && flows != [] && WithFlows(points, flows).Split?
    ensures var plain := Filter(IsPlain, points); var start := Last(EarlierThan(flows[0].time), plain);
      && start.Some? && start.value.nav > 0.0
      && var l := LinkFlows(points, flows, start.value, |flows|);
         && l.Linked? && var end := Last(LaterThan(l.base.time), plain);
            && end.Some? && end.value.nav > 0.0 && end.value.time > l.base.time
            && WithFlows(points, flows).periods == l.periods + [CreateReturnPeriod(l.base, end.value)]
  {
    hide First, LinkFlow, CreateReturnPeriod, Filter, Last;
    var plain := Filter(IsPlain, points);
    FilterMembers(IsPlain, points);
    LastMeaning(EarlierThan(flows[0].time), plain);
    var start := Last(EarlierThan(flows[0].time), plain).value;
    var l := LinkFlows(points, flows, start, |flows|);
    LastMeaning(LaterThan(l.base.time), plain);
  }

  /** The periods of every successful split are ordered, do not overlap, and have positive navs whose
      quotient is the growth of the period. */
  lemma SplitIsInSequence(navPoints: seq<NavPoint>, cashFlows: seq<CashFlow>)
    requires SplitPeriods(navPoints, cashFlows).Split?
    ensures SplitPeriods(navPoints, cashFlows).periods != [] && InSequence(SplitPeriods(navPoints, cashFlows).periods)
  {
    hide Points, ExternalFlows, WithFlows, CreateReturnPeriod, Neighbours, Filter;
    PointsPositive(navPoints);
    NavsParsedExactlyWhen(navPoints, |navPoints|);
    var points, flows := Points(navPoints), ExternalFlows(cashFlows);
    if flows == [] {
      PointsInOrder(navPoints);
      var regular := Filter(IsRegular, points);
      FilteredPositive(IsRegular, points);
      FilterInOrder(TimeOf, IdOf, IsRegular, points);
      NeighboursInSequence(regular, |regular| - 1);
    } else {
      EndOfFlows(points, flows);
      var start := Last(EarlierThan(flows[0].time), Filter(IsPlain, points)).value;
      FlowsInSequence(points, flows, start, |flows|);
      var l := LinkFlows(points, flows, start, |flows|);
      var end := Last(LaterThan(l.base.time), Filter(IsPlain, points)).value;
      PeriodIsOrderly(l.base, end);
      PeriodEnds(l.base, end);
      AppendPeriod(l.periods, CreateReturnPeriod(l.base, end));
    }
  }

  lemma PointsInOrder(navPoints: seq<NavPoint>)
    requires forall i, j :: 0 <= i < j < |navPoints| ==> navPoints[i].externalId != navPoints[j].externalId
    ensures InOrder(TimeOf, IdOf, Points(navPoints))
  {
    SortedByBoth(TimeOf, IdOf, navPoints);
  }

  // ---------------------------------------------------------------- acceptance

  lemma {:induction false} GrowthPositive(periods: seq<Period>, n: nat)
    requires n <= |periods| && forall k :: 0 <= k < |periods| ==> periods[k].rate + 1.0 > 0.0
    ensures Growth(periods, n) > 0.0
  {
    if n > 0 {
      GrowthPositive(periods, n - 1);
      PositiveProduct(Growth(periods, n - 1), periods[n - 1].rate + 1.0);
    }
  }

  lemma PositiveProduct(x: real, y: real)
    requires x > 0.0 && y > 0.0
    ensures x * y > 0.0
  {
  }

  /** The wealth index accepts every successful split, and ends at one plus the time-weighted return. */
  method IndexOfSplit(navPoints: seq<NavPoint>, cashFlows: seq<CashFlow>) returns (points: seq<WealthPoint>, twr: real)
    requires SplitPeriods(navPoints, cashFlows).Split?
    ensures var periods := SplitPeriods(navPoints, cashFlows).periods;
      && |points| == |periods| + 1 && points[|periods|].nav == 1.0 + twr == Growth(periods, |periods|)
      && (forall k :: 0 <= k < |points| ==>
          points[k].nav > 0.0 && points[k].sequence == Some(k) && points[k].externalId == k)
      && forall k :: 1 <= k < |points| ==> points[k - 1].time <= points[k].time
  {
    hide WithFlows, WithoutFlows, Points, ExternalFlows, Orderly;
    SplitIsInSequence(navPoints, cashFlows);
    var split := SplitReturnPeriodsAtCashFlows(navPoints, cashFlows);
    var periods := split.periods;
    SequenceAccepted(periods);
    var wealth := BuildTwrWealthIndex(periods);
    var metric := MultiplyReturns(periods);
    points, twr := wealth.points, metric.value;
    forall k | 0 <= k <= |periods| ensures Growth(periods, k) > 0.0 { GrowthPositive(periods, k); }
    TimesAscend(periods);
  }

  lemma SequenceAccepted(periods: seq<Period>)
    requires InSequence(periods)
    ensures forall k :: 0 <= k < |periods| ==>
      PeriodError(periods, k).None? && periods[k].beginningNav > 0.0 && periods[k].rate + 1.0 > 0.0
  {
    forall k | 0 <= k < |periods|
      ensures PeriodError(periods, k).None? && periods[k].beginningNav > 0.0 && periods[k].rate + 1.0 > 0.0
    {
      assert Orderly(periods[k]);
    }
  }

  lemma TimesAscend(periods: seq<Period>)
    requires InSequence(periods) && periods != []
    ensures periods[0].from <= periods[0].to && forall k :: 1 <= k < |periods| ==> periods[k - 1].to <= periods[k].to
  {
    forall k | 1 <= k < |periods| ensures periods[k - 1].to <= periods[k].to {
      assert Orderly(periods[k]);
    }
    assert Orderly(periods[0]);
  }

  // ---------------------------------------------------------------- telescoping

  /** The product over the first `n` flows of the nav before the flow over the nav after it. */
  function FlowRatio(points: seq<NavPoint>, flows: seq<CashFlow>, n: nat): real
    requires n <= |flows| && PositiveNavs(points)
  {
    if n == 0 then 1.0
    else
      var before, after := First(AtFlow(FlowBefore, flows[n - 1].externalId), points),
          First(AtFlow(FlowAfter, flows[n - 1].externalId), points);
      FirstMeaning(AtFlow(FlowAfter, flows[n - 1].externalId), points);
      if before.None? || after.None? then 0.0
      else FlowRatio(points, flows, n - 1) * (before.value.nav / after.value.nav)
  }

  lemma {:induction false} GrowthPrefix(periods: seq<Period>, p: Period, n: nat)
    requires n <= |periods|
    ensures Growth(periods + [p], n) == Growth(periods, n)
  {
    if n > 0 { GrowthPrefix(periods, p, n - 1); }
  }

  lemma GrowthAppend(periods: seq<Period>, p: Period)
    ensures Growth(periods + [p], |periods| + 1) == Growth(periods, |periods|) * (p.rate + 1.0)
  {
    GrowthPrefix(periods, p, |periods|);
  }

  /** If g * start == base * ratio, a factor before/base and a step from before to after keep it so. */
  lemma OneFlow(g: real, start: real, base: real, ratio: real, factor: real, before: real, after: real)
    requires base > 0.0 && after > 0.0 && g * start == base * ratio && factor * base == before
    ensures (g * factor) * start == after * (ratio * (before / after))
  {
    var q := before / after;
    assert q * after == before;
    assert (g * factor) * start == factor * (g * start);
    assert factor * (base * ratio) == (factor * base) * ratio;
    assert after * (ratio * q) == ratio * (q * after);
  }

  lemma {:induction false} FlowsTelescope(points: seq<NavPoint>, flows: seq<CashFlow>, start: NavPoint, n: nat)
    requires n <= |flows| && PositiveNavs(points) && start.nav > 0.0 && LinkFlows(points, flows, start, n).Linked?
    ensures var l := LinkFlows(points, flows, start, n);
      |l.periods| == n && Growth(l.periods, n) * start.nav == l.base.nav * FlowRatio(points, flows, n)
  {
    hide First, Growth;
    if n == 0 {
      NoGrowth();
    } else {
      FlowsTelescope(points, flows, start, n - 1);
      var l := LinkFlows(points, flows, start, n - 1);
      var before := First(AtFlow(FlowBefore, flows[n - 1].externalId), points).value;
      var after := First(AtFlow(FlowAfter, flows[n - 1].externalId), points).value;
      FirstMeaning(AtFlow(FlowAfter, flows[n - 1].externalId), points);
      var p := CreateReturnPeriod(l.base, before);
      GrowthAppend(l.periods, p);
      Factor(l.base, before);
      OneFlow(Growth(l.periods, n - 1), start.nav, l.base.nav, FlowRatio(points, flows, n - 1), p.rate + 1.0,
              before.nav, after.nav);
    }
  }

  lemma NoGrowth()
    ensures Growth([], 0) == 1.0
  {
  }

  lemma Factor(beginning: NavPoint, ending: NavPoint)
    requires beginning.nav > 0.0
    ensures (CreateReturnPeriod(beginning, ending).rate + 1.0) * beginning.nav == ending.nav
  {
  }

  /** With external flows: growth times the start nav is the end nav times before over after at each flow. */
  lemma GrowthWithFlows(points: seq<NavPoint>, flows: seq<CashFlow>)
    requires PositiveNavs(points) && flows != [] && WithFlows(points, flows).Split?
    ensures var periods := WithFlows(points, flows).periods;
      && |periods| == |flows| + 1
      && Growth(periods, |periods|) * periods[0].beginningNav
          == periods[|periods| - 1].endingNav * FlowRatio(points, flows, |flows|)
  {
    hide First, WithFlows, CreateReturnPeriod, Filter, Last, Growth, FlowRatio, LinkFlow;
    EndOfFlows(points, flows);
    var start := Last(EarlierThan(flows[0].time), Filter(IsPlain, points)).value;
    FlowsTelescope(points, flows, start, |flows|);
    var l := LinkFlows(points, flows, start, |flows|);
    var end := Last(LaterThan(l.base.time), Filter(IsPlain, points)).value;
    var p := CreateReturnPeriod(l.base, end);
    GrowthAppend(l.periods, p);
    Factor(l.base, end);
    PeriodEnds(l.base, end);
    Rearrange(Growth(l.periods, |flows|), start.nav, l.base.nav, FlowRatio(points, flows, |flows|), p.rate + 1.0,
              end.nav);
    FirstPeriod(points, flows, start, |flows|);
    assert (l.periods + [p])[0] == l.periods[0];
  }

  lemma Rearrange(g: real, start: real, base: real, ratio: real, factor: real, end: real)
    requires g * start == base * ratio && factor * base == end
    ensures (g * factor) * start == end * ratio
  {
    assert (g * factor) * start == factor * (g * start);
    assert factor * (base * ratio) == (factor * base) * ratio;
  }

  lemma {:induction false} FirstPeriod(points: seq<NavPoint>, flows: seq<CashFlow>, start: NavPoint, n: nat)
    requires 0 < n <= |flows| && PositiveNavs(points) && start.nav > 0.0 && LinkFlows(points, flows, start, n).Linked?
    ensures var l := LinkFlows(points, flows, start, n); |l.periods| == n && l.periods[0].beginningNav == start.nav
  {
    hide First;
    if n > 1 {
      FirstPeriod(points, flows, start, n - 1);
    }
  }

  /** Without external flows the growth is the last nav over the first. */
  lemma {:induction false} GrowthWithoutFlows(regular: seq<NavPoint>, n: nat)
    requires n < |regular| && PositiveNavs(regular)
    ensures |Neighbours(regular, n)| == n && Growth(Neighbours(regular, n), n) * regular[0].nav == regular[n].nav
  {
    hide Growth;
    if n == 0 {
      NoGrowth();
    } else {
      GrowthWithoutFlows(regular, n - 1);
      var p := CreateReturnPeriod(regular[n - 1], regular[n]);
      GrowthAppend(Neighbours(regular, n - 1), p);
      Factor(regular[n - 1], regular[n]);
      Rearrange(Growth(Neighbours(regular, n - 1), n - 1), regular[0].nav, regular[n - 1].nav, 1.0, p.rate + 1.0,
                regular[n].nav);
    }
  }

  lemma QuotientForm(g: real, start: real, end: real, ratio: real)
    requires start > 0.0 && g * start == end * ratio
    ensures g == end / start * ratio
  {
    var q := end / start;
    assert q * start == end;
    assert (q * ratio) * start == (q * start) * ratio;
    Cancel(g, q * ratio, start);
  }

  lemma Cancel(x: real, y: real, z: real)
    requires z > 0.0 && x * z == y * z
    ensures x == y
  {
    assert (x - y) * z == x * z - y * z;
  }

  /** The growth of every successful split is the end nav over the start nav, times the nav before over
      the nav after each external flow. */
  lemma SplitTelescopes(navPoints: seq<NavPoint>, cashFlows: seq<CashFlow>)
    requires SplitPeriods(navPoints, cashFlows).Split?
    ensures var periods, flows := SplitPeriods(navPoints, cashFlows).periods, ExternalFlows(cashFlows);
      && NavError(navPoints, |navPoints|).None? && PositiveNavs(Points(navPoints))
      && periods != [] && periods[0].beginningNav > 0.0
      && Growth(periods, |periods|)
         == periods[|periods| - 1].endingNav / periods[0].beginningNav * FlowRatio(Points(navPoints), flows, |flows|)
  {
    hide Points, ExternalFlows, WithFlows, CreateReturnPeriod, Filter, Growth;
    PointsPositive(navPoints);
    SplitIsInSequence(navPoints, cashFlows);
    var points, flows := Points(navPoints), ExternalFlows(cashFlows);
    var periods := SplitPeriods(navPoints, cashFlows).periods;
    if flows == [] {
      var regular := Filter(IsRegular, points);
      FilteredPositive(IsRegular, points);
      GrowthWithoutFlows(regular, |regular| - 1);
      EndsOfNeighbours(regular, |regular| - 1);
    } else {
      GrowthWithFlows(points, flows);
    }
    QuotientForm(Growth(periods, |periods|), periods[0].beginningNav, periods[|periods| - 1].endingNav,
                 FlowRatio(points, flows, |flows|));
  }

  lemma {:induction false} EndsOfNeighbours(regular: seq<NavPoint>, n: nat)
    requires 0 < n < |regular| && PositiveNavs(regular)
    ensures var ps := Neighbours(regular, n);
      |ps| == n && ps[0].beginningNav == regular[0].nav && ps[n - 1].endingNav == regular[n].nav
  {
    if n > 1 { EndsOfNeighbours(regular, n - 1); }
  }
}
