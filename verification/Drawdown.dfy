/** packages/analytics/src/risk.ts: the maximum drawdown, computed in one pass behind a running peak,
    against its definition over all pairs of points. Decimals are exact reals. */
module Drawdown {

  import opened Sequences
  import opened Returns
  import opened ReturnTheorems

  const DAY: real := 86_400_000.0

  datatype DrawdownPoint = DrawdownPoint(drawdown: real, nav: real, time: int, peakAt: int, peakNav: real)

  datatype MaxDrawdown = MaxDrawdown(
    drawdown: real, durationDays: real, peakAt: int, peakNav: real, recoveredAt: Option<int>,
    recoveryDays: Option<real>, troughAt: int, troughNav: real)

  datatype ParseResult = Parsed(points: seq<WealthPoint>) | Unparsed(reason: Problem)

  datatype DrawdownResult = Computed(value: MaxDrawdown) | Impossible(reason: Problem)

  datatype Problem = NoHistory | InvalidInput | Repeated | OutOfOrder | NotPositive

  // ---------------------------------------------------------------- parsing

  function WealthTime(p: WealthPoint): int {
    p.time
  }

  function WealthId(p: WealthPoint): int {
    p.externalId
  }

  function WealthError(points: seq<WealthPoint>, n: nat): Option<Problem>
    requires n <= |points|
  {
    if n == 0 then None
    else if WealthError(points, n - 1).Some? then WealthError(points, n - 1)
    else if exists j :: 0 <= j < n - 1 && points[j].externalId == points[n - 1].externalId then Some(Repeated)
    else if points[n - 1].sequence.Some? && points[n - 1].sequence.value != n - 1 then Some(OutOfOrder)
    else if points[n - 1].nav <= 0.0 then Some(NotPositive)
    else None
  }

  predicate AllSequenced(points: seq<WealthPoint>) {
    forall k :: 0 <= k < |points| ==> points[k].sequence.Some?
  }

  predicate NoneSequenced(points: seq<WealthPoint>) {
    forall k :: 0 <= k < |points| ==> points[k].sequence.None?
  }

  /** The points in the order of the analysis: as given when sequenced, else by time and identifier. */
  function Ordered(points: seq<WealthPoint>): seq<WealthPoint> {
    if AllSequenced(points) then points else SortByBoth(WealthTime, WealthId, points)
  }

  lemma {:induction false} WealthParsedExactlyWhen(points: seq<WealthPoint>, n: nat)
    requires n <= |points|
    ensures WealthError(points, n).None? <==>
      && (forall i, j :: 0 <= i < j < n ==> points[i].externalId != points[j].externalId)
      && (forall k :: 0 <= k < n ==> points[k].sequence.None? || points[k].sequence.value == k)
      && forall k :: 0 <= k < n ==> points[k].nav > 0.0
  {
    if n > 0 { WealthParsedExactlyWhen(points, n - 1); }
  }

  lemma {:induction false} ErrorStays(points: seq<WealthPoint>, n: nat, m: nat)
    requires n <= m <= |points| && WealthError(points, n).Some?
    ensures WealthError(points, m) == WealthError(points, n)
    decreases m
  {
    if n < m { ErrorStays(points, n, m - 1); }
  }

  /** Sequenced points keep their order; unsequenced ones are put in time order; a mixture is refused. */
  method ParseWealthPoints(points: seq<WealthPoint>) returns (r: ParseResult)
    ensures r.Parsed? <==>
      points != [] && (AllSequenced(points) || NoneSequenced(points)) && WealthError(points, |points|).None?
    ensures r.Parsed? ==>
      r.points == Ordered(points) && |r.points| > 0 && forall k :: 0 <= k < |r.points| ==> r.points[k].nav > 0.0
    ensures r.Unparsed? ==>
      r.reason == if points == [] then NoHistory
                  else if !AllSequenced(points) && !NoneSequenced(points) then InvalidInput
                  else if WealthError(points, |points|).Some? then WealthError(points, |points|).value else NoHistory
  {
    if points == [] { return Unparsed(NoHistory); }
    if !NoneSequenced(points) && !AllSequenced(points) { return Unparsed(InvalidInput); }
    var ids: set<nat> := {};
    for n := 0 to |points|
      invariant WealthError(points, n).None?
      invariant forall x :: x in ids <==> exists j :: 0 <= j < n && points[j].externalId == x
    {
      var p := points[n];
      if p.externalId in ids {
        ErrorStays(points, n + 1, |points|);
        return Unparsed(Repeated);
      }
      ids := ids + {p.externalId};
      if p.sequence.Some? && p.sequence.value != n {
        ErrorStays(points, n + 1, |points|);
        return Unparsed(OutOfOrder);
      }
      if p.nav <= 0.0 {
        ErrorStays(points, n + 1, |points|);
        return Unparsed(NotPositive);
      }
    }
    OrderedPositive(points);
    r := Parsed(Ordered(points));
  }

  lemma OrderedPositive(points: seq<WealthPoint>)
    requires WealthError(points, |points|).None?
    ensures |Ordered(points)| == |points| && forall k :: 0 <= k < |Ordered(points)| ==> Ordered(points)[k].nav > 0.0
  {
    WealthParsedExactlyWhen(points, |points|);
    SortByBothElements(WealthTime, WealthId, points);
    forall k | 0 <= k < |Ordered(points)| ensures Ordered(points)[k].nav > 0.0 {
      assert Ordered(points)[k] in points;
    }
  }

  // ---------------------------------------------------------------- the definition over all pairs

  ghost predicate Positive(ps: seq<WealthPoint>) {
    forall k :: 0 <= k < |ps| ==> ps[k].nav > 0.0
  }

  /** The change from one point to a later one. */
  function Change(ps: seq<WealthPoint>, i: nat, j: nat): real
    requires i < |ps| && j < |ps| && ps[i].nav > 0.0
  {
    ps[j].nav / ps[i].nav - 1.0
  }

  /** The first highest point up to `j`. */
  ghost predicate IsPeak(ps: seq<WealthPoint>, p: nat, j: nat)
    requires j < |ps|
  {
    && p <= j
    && (forall i :: 0 <= i <= j ==> ps[i].nav <= ps[p].nav)
    && forall i :: 0 <= i < p ==> ps[i].nav < ps[p].nav
  }

  /** The greatest fall between any two points in order: the earliest point that ends it, the earliest
      peak before that, and the first later point that reaches the peak again. */
  ghost predicate IsMaxDrawdown(ps: seq<WealthPoint>, p: nat, t: nat, m: MaxDrawdown)
    requires Positive(ps)
  {
    && t < |ps| && IsPeak(ps, p, t)
    && m.drawdown == Change(ps, p, t) && m.peakNav == ps[p].nav && m.peakAt == ps[p].time
    && m.troughNav == ps[t].nav && m.troughAt == ps[t].time
    && m.durationDays == (ps[t].time - ps[p].time) as real / DAY
    && (forall i, j :: 0 <= i <= j < |ps| ==> m.drawdown <= Change(ps, i, j))
    && (forall i, j :: 0 <= i <= j < t ==> m.drawdown < Change(ps, i, j))
    && -1.0 < m.drawdown <= 0.0
    && Recovery(ps, p, t, m)
  }

  ghost predicate Recovery(ps: seq<WealthPoint>, p: nat, t: nat, m: MaxDrawdown)
    requires p < |ps|
  {
    match m.recoveredAt
    case None => m.recoveryDays.None? && forall k :: t < k < |ps| ==> ps[k].nav < ps[p].nav
    case Some(at) =>
      exists k :: t < k < |ps| && ps[k].nav >= ps[p].nav && at == ps[k].time
        && m.recoveryDays == Some((ps[k].time - ps[t].time) as real / DAY)
        && forall i :: t < i < k ==> ps[i].nav < ps[p].nav
  }

  lemma ChangeOrder(ps: seq<WealthPoint>, i: nat, p: nat, j: nat)
    requires Positive(ps) && i < |ps| && p < |ps| && j < |ps| && ps[i].nav <= ps[p].nav
    ensures Change(ps, p, j) <= Change(ps, i, j)
    ensures ps[j].nav <= ps[p].nav ==> -1.0 < Change(ps, p, j) <= 0.0
  {
    var x, y := ps[j].nav / ps[p].nav, ps[j].nav / ps[i].nav;
    assert x * ps[p].nav == ps[j].nav && y * ps[i].nav == ps[j].nav;
    Larger(x, y, ps[p].nav, ps[i].nav);
    if ps[j].nav <= ps[p].nav { AtMostOne(x, ps[p].nav, ps[j].nav); }
  }

  lemma Larger(x: real, y: real, a: real, b: real)
    requires 0.0 < b <= a && x * a == y * b > 0.0
    ensures x <= y
  {
    if x > y { Strict(x, y, a, b); }
  }

  lemma Strict(x: real, y: real, a: real, b: real)
    requires x > y && 0.0 < b <= a && y * b > 0.0
    ensures x * a > y * b
  {
    if y <= 0.0 { NotPositiveProduct(y, b); }
    PositiveProduct(x - y, a);
    if a > b { PositiveProduct(y, a - b); }
    assert x * a == (x - y) * a + y * (a - b) + y * b;
  }

  lemma NotPositiveProduct(x: real, y: real)
    requires x <= 0.0 && y > 0.0
    ensures x * y <= 0.0
  {
  }

  lemma AtMostOne(x: real, a: real, b: real)
    requires a > 0.0 && x * a == b && 0.0 < b <= a
    ensures 0.0 < x <= 1.0
  {
    if x <= 0.0 { NotPositiveProduct(x, a); }
    if x > 1.0 { Strict(x, 1.0, a, a); }
  }

  // ---------------------------------------------------------------- the one pass

  ghost predicate PeaksOf(ps: seq<WealthPoint>, peaks: seq<nat>, n: nat)
    requires n <= |ps|
  {
    |peaks| == n && forall k :: 0 <= k < n ==> IsPeak(ps, peaks[k], k)
  }

  ghost predicate IsSeries(ps: seq<WealthPoint>, peaks: seq<nat>, series: seq<DrawdownPoint>, n: nat)
    requires n <= |ps| && Positive(ps)
  {
    && |series| == n && PeaksOf(ps, peaks, n)
    && forall k :: 0 <= k < n ==>
         series[k] == DrawdownPoint(Change(ps, peaks[k], k), ps[k].nav, ps[k].time, ps[peaks[k]].time, ps[peaks[k]].nav)
  }

  /** Each point against the first highest point so far. */
  method BuildDrawdownSeries(ps: seq<WealthPoint>) returns (series: seq<DrawdownPoint>)
    requires ps != [] && Positive(ps)
    ensures exists peaks :: IsSeries(ps, peaks, series, |ps|)
  {
    var peakNav, peakAt := ps[0].nav, ps[0].time;
    ghost var peak: nat, peaks: seq<nat> := 0, [];
    series := [];
    for n := 0 to |ps|
      invariant IsSeries(ps, peaks, series, n)
      invariant peak < |ps| && peakNav == ps[peak].nav && peakAt == ps[peak].time
      invariant if n == 0 then peak == 0 else IsPeak(ps, peak, n - 1)
    {
      var point := ps[n];
      if point.nav > peakNav {
        peakNav, peakAt := point.nav, point.time;
        peak := n;
      }
      series := series + [DrawdownPoint(point.nav / peakNav - 1.0, point.nav, point.time, peakAt, peakNav)];
      peaks := peaks + [peak];
    }
  }

  /** The first lowest of the series. */
  method FindTrough(series: seq<DrawdownPoint>) returns (t: nat)
    requires series != []
    ensures t < |series|
    ensures forall k :: 0 <= k < |series| ==> series[t].drawdown <= series[k].drawdown
    ensures forall k :: 0 <= k < t ==> series[t].drawdown < series[k].drawdown
  {
    t := 0;
    for n := 0 to |series|
      invariant t < |series| && t <= n
      invariant forall k :: 0 <= k < n ==> series[t].drawdown <= series[k].drawdown
      invariant forall k :: 0 <= k < t ==> series[t].drawdown < series[k].drawdown
    {
      if series[n].drawdown < series[t].drawdown { t := n; }
    }
  }

  /** A lowest point of the series is a lowest change over all pairs. */
  lemma SeriesCoversPairs(ps: seq<WealthPoint>, peaks: seq<nat>, series: seq<DrawdownPoint>, t: nat)
    requires Positive(ps) && IsSeries(ps, peaks, series, |ps|) && t < |ps|
    requires forall k :: 0 <= k < |ps| ==> series[t].drawdown <= series[k].drawdown
    requires forall k :: 0 <= k < t ==> series[t].drawdown < series[k].drawdown
    ensures forall i, j :: 0 <= i <= j < |ps| ==> series[t].drawdown <= Change(ps, i, j)
    ensures forall i, j :: 0 <= i <= j < t ==> series[t].drawdown < Change(ps, i, j)
    ensures -1.0 < series[t].drawdown <= 0.0
  {
    hide Change;
    forall i, j | 0 <= i <= j < |ps|
      ensures series[t].drawdown <= Change(ps, i, j) && (j < t ==> series[t].drawdown < Change(ps, i, j))
    {
      assert IsPeak(ps, peaks[j], j);
      ChangeOrder(ps, i, peaks[j], j);
    }
    assert IsPeak(ps, peaks[t], t);
    ChangeOrder(ps, peaks[t], peaks[t], t);
  }

  /** The maximum drawdown of every list of points the parser accepts. */
  method CalculateMaxDrawdown(wealthPoints: seq<WealthPoint>) returns (r: DrawdownResult)
    ensures r.Computed? <==>
      wealthPoints != [] && (AllSequenced(wealthPoints) || NoneSequenced(wealthPoints))
      && WealthError(wealthPoints, |wealthPoints|).None?
    ensures r.Computed? ==>
      Positive(Ordered(wealthPoints)) && exists p, t :: IsMaxDrawdown(Ordered(wealthPoints), p, t, r.value)
  {
    hide WealthError, Ordered, Change;
    var parsed := ParseWealthPoints(wealthPoints);
    if parsed.Unparsed? { return Impossible(parsed.reason); }
    var ps := parsed.points;
    var series := BuildDrawdownSeries(ps);
    ghost var peaks :| IsSeries(ps, peaks, series, |ps|);
    var t := FindTrough(series);
    SeriesCoversPairs(ps, peaks, series, t);
    ghost var p := peaks[t];
    var trough := series[t];
    var duration := (trough.time - trough.peakAt) as real / DAY;
    for k := t + 1 to |ps|
      invariant forall i :: t < i < k ==> ps[i].nav < trough.peakNav
    {
      if ps[k].nav >= trough.peakNav {
        r := Computed(MaxDrawdown(trough.drawdown, duration, trough.peakAt, trough.peakNav, Some(ps[k].time),
                                  Some((ps[k].time - trough.time) as real / DAY), trough.time, trough.nav));
        assert Recovery(ps, p, t, r.value);
        assert IsMaxDrawdown(ps, p, t, r.value);
        return;
      }
    }
    r := Computed(MaxDrawdown(trough.drawdown, duration, trough.peakAt, trough.peakNav, None, None, trough.time,
                              trough.nav));
    assert IsMaxDrawdown(ps, p, t, r.value);
  }

  // ---------------------------------------------------------------- after a split

  lemma IndexIsAccepted(points: seq<WealthPoint>)
    requires points != [] && forall k :: 0 <= k < |points| ==>
      points[k].nav > 0.0 && points[k].sequence == Some(k) && points[k].externalId == k
    ensures AllSequenced(points) && WealthError(points, |points|).None? && Ordered(points) == points
  {
    WealthParsedExactlyWhen(points, |points|);
  }

  /** Whatever the cash flows, the wealth index of a successful split has a maximum drawdown. */
  method DrawdownOfSplit(navPoints: seq<NavPoint>, cashFlows: seq<CashFlow>)
      returns (points: seq<WealthPoint>, m: MaxDrawdown)
    requires SplitPeriods(navPoints, cashFlows).Split?
    ensures Positive(points) && |points| == |SplitPeriods(navPoints, cashFlows).periods| + 1
    ensures exists p, t :: IsMaxDrawdown(points, p, t, m)
  {
    hide WealthError, Ordered, IsMaxDrawdown, SplitPeriods, Growth;
    var twr;
    points, twr := IndexOfSplit(navPoints, cashFlows);
    IndexIsAccepted(points);
    var r := CalculateMaxDrawdown(points);
    m := r.value;
  }
}
