/** packages/analytics/src/returns.ts: return periods are split at external cash flows, linked into a
    wealth index and multiplied into a time-weighted return. Decimals are exact reals. */
module Returns {

  import opened Sequences

  datatype Boundary = Unset | Regular | FlowBefore | FlowAfter

  datatype NavPoint = NavPoint(externalId: nat, nav: real, time: int, boundary: Boundary, cashFlowId: Option<nat>)

  datatype CashFlow = CashFlow(externalId: nat, unknown: bool, isExternal: Option<bool>, amount: Option<real>,
                               time: int)

  datatype Period = Period(beginningNav: real, endingNav: real, from: int, rate: real, to: int)

  datatype Reason =
    | UnknownCashFlow
    | InsufficientHistory
    | DuplicateEvent
    | NonPositiveNav
    | MissingBoundaryNav
    | OrderAmbiguous

  /** The periods, and the flows whose boundary navs do not differ by their amount. */
  datatype SplitResult = Split(periods: seq<Period>, mismatched: seq<nat>) | Refused(reason: Reason)

  function TimeOf(p: NavPoint): int {
    p.time
  }

  function IdOf(p: NavPoint): int {
    p.externalId
  }

  function FlowTime(f: CashFlow): int {
    f.time
  }

  function FlowId(f: CashFlow): int {
    f.externalId
  }

  // ---------------------------------------------------------------- nav points

  function NavError(points: seq<NavPoint>, n: nat): Option<Reason>
    requires n <= |points|
  {
    if n == 0 then None
    else if NavError(points, n - 1).Some? then NavError(points, n - 1)
    else if exists j :: 0 <= j < n - 1 && points[j].externalId == points[n - 1].externalId then Some(DuplicateEvent)
    else if points[n - 1].nav <= 0.0 then Some(NonPositiveNav)
    else None
  }

  lemma {:induction false} NavsParsedExactlyWhen(points: seq<NavPoint>, n: nat)
    requires n <= |points|
    ensures NavError(points, n).None? <==>
      (forall i, j :: 0 <= i < j < n ==> points[i].externalId != points[j].externalId)
      && forall k :: 0 <= k < n ==> points[k].nav > 0.0
  {
    if n > 0 { NavsParsedExactlyWhen(points, n - 1); }
  }

  predicate IsRegular(p: NavPoint) {
    p.boundary == Unset || p.boundary == Regular
  }

  predicate IsPlain(p: NavPoint) {
    IsRegular(p) && p.cashFlowId.None?
  }

  predicate IsExternalFlow(f: CashFlow) {
    f.isExternal == Some(true)
  }

  function AtFlow(side: Boundary, id: nat): NavPoint -> bool {
    (p: NavPoint) => p.boundary == side && p.cashFlowId == Some(id)
  }

  function First<T>(p: T -> bool, s: seq<T>): Option<T> {
    if s == [] then None else if p(s[0]) then Some(s[0]) else First(p, s[1..])
  }

  function Last<T>(p: T -> bool, s: seq<T>): Option<T> {
    if s == [] then None else if p(s[|s| - 1]) then Some(s[|s| - 1]) else Last(p, s[..|s| - 1])
  }

  function EarlierThan(time: int): NavPoint -> bool {
    (p: NavPoint) => p.time < time
  }

  function LaterThan(time: int): NavPoint -> bool {
    (p: NavPoint) => p.time > time
  }

  // ---------------------------------------------------------------- periods

  function CreateReturnPeriod(beginning: NavPoint, ending: NavPoint): Period
    requires beginning.nav > 0.0
  {
    Period(beginning.nav, ending.nav, beginning.time, ending.nav / beginning.nav - 1.0, ending.time)
  }

  ghost predicate PositiveNavs(points: seq<NavPoint>) {
    forall k :: 0 <= k < |points| ==> points[k].nav > 0.0
  }

  /** Without external flows: one period between each two neighbours. */
  function Neighbours(regular: seq<NavPoint>, n: nat): seq<Period>
    requires n < |regular| && PositiveNavs(regular)
  {
    if n == 0 then [] else Neighbours(regular, n - 1) + [CreateReturnPeriod(regular[n - 1], regular[n])]
  }

  datatype Linked = Linked(base: NavPoint, periods: seq<Period>, mismatched: seq<nat>) | Broken(reason: Reason)

  /** One flow: a period ends before it, the next begins after it. */
  function LinkFlow(points: seq<NavPoint>, flow: CashFlow, l: Linked): Linked
    requires l.Linked? ==> l.base.nav > 0.0
  {
    if l.Broken? then l
    else
      var before, after := First(AtFlow(FlowBefore, flow.externalId), points),
          First(AtFlow(FlowAfter, flow.externalId), points);
      if before.None? || after.None? || flow.amount.None? then Broken(MissingBoundaryNav)
      else if before.value.time < l.base.time || after.value.time < before.value.time then Broken(OrderAmbiguous)
      else
        Linked(after.value, l.periods + [CreateReturnPeriod(l.base, before.value)],
               l.mismatched + if after.value.nav - before.value.nav == flow.amount.value then [] else [flow.externalId])
  }

  lemma {:induction false} FirstMeaning<T>(p: T -> bool, s: seq<T>)
    ensures match First(p, s)
      case None => forall k :: 0 <= k < |s| ==> !p(s[k])
      case Some(x) => x in s && p(x)
  {
    if s != [] { FirstMeaning(p, s[1..]); }
  }

  lemma {:induction false} LastMeaning<T>(p: T -> bool, s: seq<T>)
    ensures match Last(p, s)
      case None => forall k :: 0 <= k < |s| ==> !p(s[k])
      case Some(x) => x in s && p(x)
  {
    if s != [] {
      LastMeaning(p, s[..|s| - 1]);
      assert s == s[..|s| - 1] + [s[|s| - 1]];
    }
  }

  function LinkFlows(points: seq<NavPoint>, flows: seq<CashFlow>, start: NavPoint, n: nat): (l: Linked)
    requires n <= |flows| && PositiveNavs(points) && start.nav > 0.0
    ensures l.Linked? ==> l.base.nav > 0.0
  {
    if n == 0 then Linked(start, [], [])
    else
      var f := flows[n - 1];
      FirstMeaning(AtFlow(FlowAfter, f.externalId), points);
      LinkFlow(points, f, LinkFlows(points, flows, start, n - 1))
  }

  lemma FilteredPositive(p: NavPoint -> bool, points: seq<NavPoint>)
    requires PositiveNavs(points)
    ensures PositiveNavs(Filter(p, points))
  {
    FilterMembers(p, points);
    forall k | 0 <= k < |Filter(p, points)| ensures Filter(p, points)[k].nav > 0.0 {
      assert Filter(p, points)[k] in points;
    }
  }

  function WithoutFlows(points: seq<NavPoint>): SplitResult
    requires PositiveNavs(points)
  {
    FilteredPositive(IsRegular, points);
    var regular := Filter(IsRegular, points);
    if |regular| < 2 then Refused(InsufficientHistory) else Split(Neighbours(regular, |regular| - 1), [])
  }

  function WithFlows(points: seq<NavPoint>, flows: seq<CashFlow>): SplitResult
    requires PositiveNavs(points) && flows != []
  {
    var plain := Filter(IsPlain, points);
    var start := Last(EarlierThan(flows[0].time), plain);
    if start.None? then Refused(MissingBoundaryNav)
    else
      FilterMembers(IsPlain, points);
      LastMeaning(EarlierThan(flows[0].time), plain);
      var l := LinkFlows(points, flows, start.value, |flows|);
      if l.Broken? then Refused(l.reason)
      else
        var end := Last(LaterThan(l.base.time), plain);
        if end.None? then Refused(MissingBoundaryNav)
        else Split(l.periods + [CreateReturnPeriod(l.base, end.value)], l.mismatched)
  }

  function Points(navPoints: seq<NavPoint>): seq<NavPoint> {
    SortByBoth(TimeOf, IdOf, navPoints)
  }

  function ExternalFlows(cashFlows: seq<CashFlow>): seq<CashFlow> {
    SortByBoth(FlowTime, FlowId, Filter(IsExternalFlow, cashFlows))
  }

  lemma PointsPositive(navPoints: seq<NavPoint>)
    requires NavError(navPoints, |navPoints|).None?
    ensures PositiveNavs(Points(navPoints))
  {
    NavsParsedExactlyWhen(navPoints, |navPoints|);
    SortByBothElements(TimeOf, IdOf, navPoints);
    forall k | 0 <= k < |Points(navPoints)| ensures Points(navPoints)[k].nav > 0.0 {
      assert Points(navPoints)[k] in navPoints;
    }
  }

  function SplitPeriods(navPoints: seq<NavPoint>, cashFlows: seq<CashFlow>): SplitResult {
    if exists k :: 0 <= k < |cashFlows| && cashFlows[k].unknown then Refused(UnknownCashFlow)
    else if navPoints == [] then Refused(InsufficientHistory)
    else if NavError(navPoints, |navPoints|).Some? then Refused(NavError(navPoints, |navPoints|).value)
    else
      PointsPositive(navPoints);
      var flows := ExternalFlows(cashFlows);
      if flows == [] then WithoutFlows(Points(navPoints)) else WithFlows(Points(navPoints), flows)
  }

  // ---------------------------------------------------------------- the loops of the source

  method ParseNavPoints(navPoints: seq<NavPoint>) returns (error: Option<Reason>)
    ensures error == if navPoints == [] then Some(InsufficientHistory) else NavError(navPoints, |navPoints|)
  {
    if navPoints == [] { return Some(InsufficientHistory); }
    var ids: set<nat> := {};
    for n := 0 to |navPoints|
      invariant NavError(navPoints, n).None?
      invariant forall x :: x in ids <==> exists j :: 0 <= j < n && navPoints[j].externalId == x
    {
      var p := navPoints[n];
      if p.externalId in ids {
        ErrorStays(navPoints, n + 1, |navPoints|);
        return Some(DuplicateEvent);
      }
      ids := ids + {p.externalId};
      if p.nav <= 0.0 {
        ErrorStays(navPoints, n + 1, |navPoints|);
        return Some(NonPositiveNav);
      }
    }
    error := None;
  }

  lemma {:induction false} ErrorStays(points: seq<NavPoint>, n: nat, m: nat)
    requires n <= m <= |points| && NavError(points, n).Some?
    ensures NavError(points, m) == NavError(points, n)
    decreases m
  {
    if n < m { ErrorStays(points, n, m - 1); }
  }

  method Link(points: seq<NavPoint>, flow: CashFlow, base: NavPoint, periods: seq<Period>, mismatched: seq<nat>)
    returns (l: Linked)
    requires base.nav > 0.0
    ensures l == LinkFlow(points, flow, Linked(base, periods, mismatched))
  {
    hide First;
    var before := First(AtFlow(FlowBefore, flow.externalId), points);
    var after := First(AtFlow(FlowAfter, flow.externalId), points);
    if before.None? || after.None? || flow.amount.None? { return Broken(MissingBoundaryNav); }
    if before.value.time < base.time || after.value.time < before.value.time { return Broken(OrderAmbiguous); }
    var ended := periods + [CreateReturnPeriod(base, before.value)];
    var found := mismatched;
    if after.value.nav - before.value.nav != flow.amount.value { found := found + [flow.externalId]; }
    l := Linked(after.value, ended, found);
  }

  method SplitAtFlows(points: seq<NavPoint>, flows: seq<CashFlow>) returns (r: SplitResult)
    requires PositiveNavs(points) && flows != []
    ensures r == WithFlows(points, flows)
  {
    hide First, Last, Filter, LinkFlow, CreateReturnPeriod;
    var plain := Filter(IsPlain, points);
    var start := Last(EarlierThan(flows[0].time), plain);
    if start.None? { return Refused(MissingBoundaryNav); }
    FilterMembers(IsPlain, points);
    LastMeaning(EarlierThan(flows[0].time), plain);
    var base := start.value;
    var periods: seq<Period> := [];
    var mismatched: seq<nat> := [];
    for n := 0 to |flows|
      invariant LinkFlows(points, flows, start.value, n) == Linked(base, periods, mismatched)
    {
      var l := Link(points, flows[n], base, periods, mismatched);
      assert l == LinkFlows(points, flows, start.value, n + 1);
      if l.Broken? {
        StaysBroken(points, flows, start.value, n + 1, |flows|);
        return Refused(l.reason);
      }
      base, periods, mismatched := l.base, l.periods, l.mismatched;
    }
    var end := Last(LaterThan(base.time), plain);
    if end.None? { return Refused(MissingBoundaryNav); }
    r := Split(periods + [CreateReturnPeriod(base, end.value)], mismatched);
  }

  lemma {:induction false} StaysBroken(points: seq<NavPoint>, flows: seq<CashFlow>, start: NavPoint, n: nat, m: nat)
    requires n <= m <= |flows| && PositiveNavs(points) && start.nav > 0.0 && LinkFlows(points, flows, start, n).Broken?
    ensures LinkFlows(points, flows, start, m) == LinkFlows(points, flows, start, n)
    decreases m
  {
    if n < m { StaysBroken(points, flows, start, n, m - 1); }
  }

  method SplitReturnPeriodsAtCashFlows(navPoints: seq<NavPoint>, cashFlows: seq<CashFlow>) returns (r: SplitResult)
    ensures r == SplitPeriods(navPoints, cashFlows)
  {
    hide WithFlows, WithoutFlows, Points, ExternalFlows;
    if exists k :: 0 <= k < |cashFlows| && cashFlows[k].unknown { return Refused(UnknownCashFlow); }
    var error := ParseNavPoints(navPoints);
    if error.Some? { return Refused(error.value); }
    PointsPositive(navPoints);
    var flows := ExternalFlows(cashFlows);
    if flows == [] {
      r := WithoutFlows(Points(navPoints));
    } else {
      r := SplitAtFlows(Points(navPoints), flows);
    }
  }

  // ---------------------------------------------------------------- linking and multiplying

  datatype WealthPoint = WealthPoint(externalId: nat, nav: real, time: int, sequence: Option<int>)

  datatype WealthResult = Wealth(points: seq<WealthPoint>) | Failed(reason: Reason)

  datatype MetricResult = Metric(value: real) | Undefined(reason: Reason)

  function PeriodError(periods: seq<Period>, k: nat): Option<Reason>
    requires k < |periods|
  {
    var p := periods[k];
    if p.to < p.from || (k > 0 && p.from < periods[k - 1].to) then Some(OrderAmbiguous)
    else if p.beginningNav <= 0.0 || p.endingNav <= 0.0 then Some(NonPositiveNav)
    else if p.rate + 1.0 <= 0.0 then Some(NonPositiveNav)
    else None
  }

  function Growth(periods: seq<Period>, n: nat): real
    requires n <= |periods|
  {
    if n == 0 then 1.0 else Growth(periods, n - 1) * (periods[n - 1].rate + 1.0)
  }

  ghost predicate IsWealthIndex(periods: seq<Period>, points: seq<WealthPoint>, n: nat)
    requires n <= |periods| && periods != []
  {
    && |points| == n + 1
    && forall k :: 0 <= k <= n ==>
         points[k] == WealthPoint(k, Growth(periods, k), if k == 0 then periods[0].from else periods[k - 1].to, Some(k))
  }

  /** The index links the growth of every prefix of the periods; it fails on the first period out of
      order or not positive. */
  method BuildTwrWealthIndex(periods: seq<Period>) returns (r: WealthResult)
    ensures r.Wealth? <==> periods != [] && forall k :: 0 <= k < |periods| ==> PeriodError(periods, k).None?
    ensures r.Wealth? ==> IsWealthIndex(periods, r.points, |periods|)
    ensures r.Failed? && periods != [] ==>
      exists k :: 0 <= k < |periods| && PeriodError(periods, k) == Some(r.reason)
                  && forall j :: 0 <= j < k ==> PeriodError(periods, j).None?
  {
    if periods == [] { return Failed(InsufficientHistory); }
    var wealth := 1.0;
    var previousTo: Option<int> := None;
    var points := [WealthPoint(0, 1.0, periods[0].from, Some(0))];
    for n := 0 to |periods|
      invariant forall k :: 0 <= k < n ==> PeriodError(periods, k).None?
      invariant wealth == Growth(periods, n) && IsWealthIndex(periods, points, n)
      invariant previousTo == if n == 0 then None else Some(periods[n - 1].to)
    {
      var p := periods[n];
      if p.to < p.from || (previousTo.Some? && p.from < previousTo.value) {
        assert PeriodError(periods, n) == Some(OrderAmbiguous);
        return Failed(OrderAmbiguous);
      }
      if p.beginningNav <= 0.0 || p.endingNav <= 0.0 || p.rate + 1.0 <= 0.0 {
        assert PeriodError(periods, n) == Some(NonPositiveNav);
        return Failed(NonPositiveNav);
      }
      wealth := wealth * (p.rate + 1.0);
      points := points + [WealthPoint(n + 1, wealth, p.to, Some(n + 1))];
      previousTo := Some(p.to);
    }
    r := Wealth(points);
  }

  /** The product of all factors less one. */
  method MultiplyReturns(periods: seq<Period>) returns (r: MetricResult)
    ensures r.Metric? <==>
      periods != [] && forall k :: 0 <= k < |periods| ==> periods[k].beginningNav > 0.0 && periods[k].rate + 1.0 > 0.0
    ensures r.Metric? ==> r.value == Growth(periods, |periods|) - 1.0
    ensures r.Undefined? ==> r.reason == if periods == [] then InsufficientHistory else NonPositiveNav
  {
    if periods == [] { return Undefined(InsufficientHistory); }
    var factor := 1.0;
    for n := 0 to |periods|
      invariant factor == Growth(periods, n)
      invariant forall k :: 0 <= k < n ==> periods[k].beginningNav > 0.0 && periods[k].rate + 1.0 > 0.0
    {
      if periods[n].beginningNav <= 0.0 || periods[n].rate + 1.0 <= 0.0 { return Undefined(NonPositiveNav); }
      factor := factor * (periods[n].rate + 1.0);
    }
    r := Metric(factor - 1.0);
  }
}
