/** packages/analytics/src/wallet-weight.ts: every selected wallet is scored from its metrics and the
    scores are shared out as weights of 18 decimals. Metrics are exact reals; the 80-digit rounding
    of quotients and products is a parameter of which only monotonicity and a few fixed values are used. */
module WalletWeight {

  import opened Sequences
  import opened Aggregation
  import opened Allocation

  datatype Reason =
    | BadScope
    | InvalidPerformanceProvenance
    | InvalidMetricWindow
    | InvalidCycleCount
    | InvalidMetricDomain
    | DuplicateAddress
    | ZeroCohortWeight
    | InvalidAllocation
    | InvalidWeightSum

  datatype Input = Input(
    member: Member, hasFingerprint: bool, trustRevision: int, metricFrom: int, metricTo: int, cycles: int,
    winRate: real, profitFactor: real, topTradeContribution: real, averageWin: real, averageLoss: real,
    maxLosingStreak: real)

  datatype Entry = Entry(input: Input, rawUnits: nat, units: nat)

  datatype Result = Weights(entries: seq<Entry>) | Refused(reason: Reason)

  const CONFIDENCE_ANCHOR: real := 30.0

  /** 10^36, the scale of a raw weight. */
  const RAW_SCALE: nat := 1_000_000_000_000_000_000_000_000_000_000_000_000

  // ---------------------------------------------------------------- scoring

  /** What is used of rounding to 80 significant digits. */
  ghost predicate Rounding(rnd: real -> real) {
    && (forall x, y :: x <= y ==> rnd(x) <= rnd(y))
    && rnd(0.0) == 0.0 && rnd(1.0) == 1.0 && rnd(2.0) == 2.0
  }

  /** The nearest integer, ties to even. */
  function HalfEven(x: real): int {
    var f := x.Floor;
    var d := x - f as real;
    if d < 0.5 then f else if d > 0.5 then f + 1 else if f % 2 == 0 then f else f + 1
  }

  function ProfitShare(p: real, rnd: real -> real): real
    requires p >= 0.0
  {
    rnd(p / (p + 1.0))
  }

  function Quality(w: real, p: real, rnd: real -> real): real
    requires p >= 0.0
  {
    rnd(rnd(w + ProfitShare(p, rnd)) / 2.0)
  }

  function SampleConfidence(cycles: int, rnd: real -> real): real
    requires cycles > 0
  {
    rnd(cycles as real / (cycles as real + CONFIDENCE_ANCHOR))
  }

  function Score(w: real, p: real, c: real, cycles: int, rnd: real -> real): real
    requires p >= 0.0 && cycles > 0
  {
    Weighted(Quality(w, p, rnd), SampleConfidence(cycles, rnd), 1.0 - c, rnd)
  }

  function Weighted(quality: real, confidence: real, concentration: real, rnd: real -> real): real {
    rnd(rnd(quality * confidence) * concentration)
  }

  predicate DomainValid(r: Input) {
    && 0.0 <= r.winRate <= 1.0 && r.profitFactor >= 0.0 && 0.0 <= r.topTradeContribution <= 1.0
    && r.averageWin > 0.0 && r.averageLoss < 0.0
    && r.maxLosingStreak >= 0.0 && r.maxLosingStreak.Floor as real == r.maxLosingStreak
  }

  function RowError(r: Input): Option<Reason> {
    if !r.hasFingerprint || r.trustRevision < 0 then Some(InvalidPerformanceProvenance)
    else if r.metricFrom > r.metricTo then Some(InvalidMetricWindow)
    else if r.cycles <= 0 then Some(InvalidCycleCount)
    else if !DomainValid(r) then Some(InvalidMetricDomain)
    else None
  }

  function FirstError(rows: seq<Input>): Option<Reason> {
    if rows == [] then None
    else if RowError(rows[0]).Some? then RowError(rows[0])
    else FirstError(rows[1..])
  }

  // ---------------------------------------------------------------- score bounds

  lemma HalfEvenMonotone(x: real, y: real)
    requires x <= y
    ensures HalfEven(x) <= HalfEven(y)
  {
  }

  lemma HalfEvenInteger(n: int)
    ensures HalfEven(n as real) == n
  {
  }

  lemma ShareMonotone(p: real, q: real)
    requires 0.0 <= p <= q
    ensures 0.0 <= p / (p + 1.0) <= q / (q + 1.0) <= 1.0
  {
    Fraction(p, 1.0, q);
  }

  /** x/(x+a) grows with x and stays within 0 and 1. */
  lemma Fraction(p: real, a: real, q: real)
    requires 0.0 <= p <= q && a > 0.0
    ensures 0.0 <= p / (p + a) <= q / (q + a) <= 1.0
  {
    var x, y := p / (p + a), q / (q + a);
    assert x * (p + a) == p && y * (q + a) == q;
    Complement(p, a);
    Complement(q, a);
    assert a / (p + a) >= a / (q + a) by { SmallerDenominator(a, p + a, q + a); }
  }

  lemma Complement(p: real, a: real)
    requires p >= 0.0 && a > 0.0
    ensures p / (p + a) == 1.0 - a / (p + a) && 0.0 < a / (p + a) <= 1.0
  {
    var d := p + a;
    assert p / d + a / d == d / d == 1.0;
  }

  lemma SmallerDenominator(a: real, d: real, e: real)
    requires a > 0.0 && 0.0 < d <= e
    ensures a / d >= a / e
  {
    var x, y := a / d, a / e;
    assert x * d == a && y * e == a;
    if x < y {
      Product(x, y, d, e);
    }
  }

  lemma Product(x: real, y: real, d: real, e: real)
    requires 0.0 <= x <= y && 0.0 <= d <= e
    ensures 0.0 <= x * d <= y * e
    ensures x < y && 0.0 < d ==> x * d < y * e
  {
    assert x * d <= y * d;
    assert y * d <= y * e;
  }

  lemma Round(rnd: real -> real, x: real, y: real)
    requires Rounding(rnd) && x <= y
    ensures rnd(x) <= rnd(y)
    ensures 0.0 <= x && y <= 1.0 ==> 0.0 <= rnd(x) && rnd(y) <= 1.0
    ensures 0.0 <= x && y <= 2.0 ==> 0.0 <= rnd(x) && rnd(y) <= 2.0
  {
    assert 0.0 <= x ==> rnd(0.0) <= rnd(x);
    assert y <= 1.0 ==> rnd(y) <= rnd(1.0);
    assert y <= 2.0 ==> rnd(y) <= rnd(2.0);
  }

  lemma QualityMonotone(w: real, p: real, w': real, p': real, rnd: real -> real)
    requires Rounding(rnd) && 0.0 <= w <= w' <= 1.0 && 0.0 <= p <= p'
    ensures 0.0 <= Quality(w, p, rnd) <= Quality(w', p', rnd) <= 1.0
  {
    hide Rounding;
    ShareMonotone(p, p');
    var s, s' := p / (p + 1.0), p' / (p' + 1.0);
    Round(rnd, s, s');
    Round(rnd, w + rnd(s), w' + rnd(s'));
    Round(rnd, rnd(w + rnd(s)) / 2.0, rnd(w' + rnd(s')) / 2.0);
  }

  lemma ConfidenceMonotone(n: int, n': int, rnd: real -> real)
    requires Rounding(rnd) && 0 < n <= n'
    ensures 0.0 <= SampleConfidence(n, rnd) <= SampleConfidence(n', rnd) <= 1.0
  {
    hide Rounding;
    Fraction(n as real, CONFIDENCE_ANCHOR, n' as real);
    Round(rnd, n as real / (n as real + CONFIDENCE_ANCHOR), n' as real / (n' as real + CONFIDENCE_ANCHOR));
  }

  /** A higher win rate or profit factor, a longer history and a lower concentration never lower the
      score, whatever the rounding; it stays within 0 and 1. */
  lemma ScoreMonotone(w: real, p: real, c: real, n: int, w': real, p': real, c': real, n': int, rnd: real -> real)
    requires Rounding(rnd) && 0.0 <= w <= w' <= 1.0 && 0.0 <= p <= p' && 0.0 <= c' <= c <= 1.0 && 0 < n <= n'
    ensures 0.0 <= Score(w, p, c, n, rnd) <= Score(w', p', c', n', rnd) <= 1.0
  {
    hide Rounding, Quality, SampleConfidence, Weighted;
    QualityMonotone(w, p, w', p', rnd);
    ConfidenceMonotone(n, n', rnd);
    WeightedMonotone(Quality(w, p, rnd), SampleConfidence(n, rnd), 1.0 - c,
                     Quality(w', p', rnd), SampleConfidence(n', rnd), 1.0 - c', rnd);
  }

  lemma WeightedMonotone(q: real, k: real, d: real, q': real, k': real, d': real, rnd: real -> real)
    requires Rounding(rnd) && 0.0 <= q <= q' <= 1.0 && 0.0 <= k <= k' <= 1.0 && 0.0 <= d <= d' <= 1.0
    ensures 0.0 <= Weighted(q, k, d, rnd) <= Weighted(q', k', d', rnd) <= 1.0
  {
    hide Rounding;
    UnitProduct(q, q', k, k');
    Round(rnd, q * k, q' * k');
    UnitProduct(rnd(q * k), rnd(q' * k'), d, d');
    Round(rnd, rnd(q * k) * d, rnd(q' * k') * d');
  }

  lemma UnitProduct(x: real, y: real, d: real, e: real)
    requires 0.0 <= x <= y <= 1.0 && 0.0 <= d <= e <= 1.0
    ensures 0.0 <= x * d <= y * e <= 1.0
  {
    Product(x, y, d, e);
    Product(y, 1.0, e, 1.0);
  }

  function RawUnits(r: Input, rnd: real -> real): (units: nat)
    requires Rounding(rnd) && RowError(r).None?
    ensures units <= RAW_SCALE
  {
    var score := Score(r.winRate, r.profitFactor, r.topTradeContribution, r.cycles, rnd);
    ScoreMonotone(r.winRate, r.profitFactor, r.topTradeContribution, r.cycles,
                  r.winRate, r.profitFactor, r.topTradeContribution, r.cycles, rnd);
    Product(0.0, score, RAW_SCALE as real, RAW_SCALE as real);
    Product(score, 1.0, RAW_SCALE as real, RAW_SCALE as real);
    HalfEvenMonotone(0.0, score * RAW_SCALE as real);
    HalfEvenMonotone(score * RAW_SCALE as real, RAW_SCALE as real);
    HalfEven(score * RAW_SCALE as real)
  }

  /** A wallet that is at least as good in every metric gets at least as large a raw weight. */
  lemma RawMonotone(r: Input, s: Input, rnd: real -> real)
    requires Rounding(rnd) && RowError(r).None? && RowError(s).None?
    requires r.winRate <= s.winRate && r.profitFactor <= s.profitFactor && r.cycles <= s.cycles
    requires r.topTradeContribution >= s.topTradeContribution
    ensures RawUnits(r, rnd) <= RawUnits(s, rnd)
  {
    hide Score, HalfEven;
    ScoreMonotone(r.winRate, r.profitFactor, r.topTradeContribution, r.cycles,
                  s.winRate, s.profitFactor, s.topTradeContribution, s.cycles, rnd);
    var x := Score(r.winRate, r.profitFactor, r.topTradeContribution, r.cycles, rnd);
    var y := Score(s.winRate, s.profitFactor, s.topTradeContribution, s.cycles, rnd);
    Product(x, y, RAW_SCALE as real, RAW_SCALE as real);
    HalfEvenMonotone(x * RAW_SCALE as real, y * RAW_SCALE as real);
  }

  // ---------------------------------------------------------------- the cohort

  function AddressOf(r: Input): int {
    match r.member.address
    case Hex(a) => a
    case NotHex(t) => t
  }

  function Members(rows: seq<Input>): seq<Member> {
    seq(|rows|, i requires 0 <= i < |rows| => rows[i].member)
  }

  ghost predicate Accepted(rows: seq<Input>) {
    forall i :: 0 <= i < |rows| ==> RowError(rows[i]).None?
  }

  lemma {:induction false} FirstErrorMeaning(rows: seq<Input>)
    ensures FirstError(rows).None? <==> Accepted(rows)
    ensures FirstError(rows).Some? ==> exists i :: 0 <= i < |rows| && FirstError(rows) == RowError(rows[i])
  {
    if rows != [] { FirstErrorMeaning(rows[1..]); }
  }

  lemma SortedAccepted(rows: seq<Input>)
    requires Accepted(rows)
    ensures Accepted(SortBy(AddressOf, rows))
  {
    hide SortBy, RowError;
    SortElements(AddressOf, rows);
    var sorted := SortBy(AddressOf, rows);
    forall i | 0 <= i < |sorted| ensures RowError(sorted[i]).None? {
      assert sorted[i] in rows;
    }
  }

  function RawOf(rows: seq<Input>, rnd: real -> real): seq<nat>
    requires Rounding(rnd) && Accepted(rows)
  {
    seq(|rows|, i requires 0 <= i < |rows| => RawUnits(rows[i], rnd))
  }

  function Entries(rows: seq<Input>, raw: seq<nat>, units: seq<nat>): seq<Entry>
    requires |raw| == |rows| == |units|
  {
    seq(|rows|, i requires 0 <= i < |rows| => Entry(rows[i], raw[i], units[i]))
  }

  function CalculateWalletWeights(input: seq<Input>, rnd: real -> real): Result
    requires Rounding(rnd)
  {
    if !ScopeValid(Members(input)) then Refused(BadScope)
    else if FirstError(input).Some? then Refused(FirstError(input).value)
    else
      var rows := SortBy(AddressOf, input);
      if exists i, j :: 0 <= i < j < |rows| && AddressOf(rows[i]) == AddressOf(rows[j]) then Refused(DuplicateAddress)
      else
        FirstErrorMeaning(input);
        SortedAccepted(input);
        var raw := RawOf(rows, rnd);
        if Total(raw, |raw|) == 0 then Refused(ZeroCohortWeight)
        else
          match Allocate(raw, SCALE)
          case None => Refused(InvalidAllocation)
          case Some(units) =>
            if |units| != |rows| || Total(units, |units|) != SCALE then Refused(InvalidWeightSum)
            else Weights(Entries(rows, raw, units))
  }

  method Calculate(input: seq<Input>, rnd: real -> real) returns (r: Result)
    requires Rounding(rnd)
    ensures r == CalculateWalletWeights(input, rnd)
  {
    if !ScopeValid(Members(input)) { return Refused(BadScope); }
    if FirstError(input).Some? { return Refused(FirstError(input).value); }
    var rows := SortBy(AddressOf, input);
    if exists i, j :: 0 <= i < j < |rows| && AddressOf(rows[i]) == AddressOf(rows[j]) {
      return Refused(DuplicateAddress);
    }
    FirstErrorMeaning(input);
    SortedAccepted(input);
    var raw := RawOf(rows, rnd);
    if Total(raw, |raw|) == 0 { return Refused(ZeroCohortWeight); }
    var units := AllocateUnits(raw, SCALE);
    if units.None? { return Refused(InvalidAllocation); }
    if |units.value| != |rows| || Total(units.value, |units.value|) != SCALE { return Refused(InvalidWeightSum); }
    r := Weights(Entries(rows, raw, units.value));
  }

  // ---------------------------------------------------------------- what the weights guarantee

  /** The two allocation failures cannot happen, and the weights are complete, rounded and fair. */
  lemma WeightsGuarantee(input: seq<Input>, rnd: real -> real)
    requires Rounding(rnd)
    ensures var r := CalculateWalletWeights(input, rnd);
      && (r.Refused? ==> r.reason != InvalidAllocation && r.reason != InvalidWeightSum)
      && (r.Weights? ==>
            var sum := Sum(RawOfEntry, r.entries);
            && sum > 0 && Sum(UnitsOfEntry, r.entries) == SCALE
            && (forall e :: e in r.entries ==> Rounded(e.units, e.rawUnits, sum, SCALE))
            && forall i, j :: 0 <= i < |r.entries| && 0 <= j < |r.entries| ==> FairPair(r.entries[i], r.entries[j]))
  {
    hide Allocate, Total, SortBy, FirstError, RawUnits, Rounding, ScopeValid;
    var r := CalculateWalletWeights(input, rnd);
    var rows := SortBy(AddressOf, input);
    FirstErrorMeaning(input);
    forall i | 0 <= i < |input| && RowError(input[i]).Some?
      ensures RowError(input[i]).value != InvalidAllocation && RowError(input[i]).value != InvalidWeightSum
    {
    }
    if Accepted(input) {
      SortedAccepted(input);
      var raw := RawOf(rows, rnd);
      if Total(raw, |raw|) > 0 {
        AllocationIsExact(raw, SCALE);
        if r.Weights? {
          SortedDistinct(input);
          EntriesGuarantee(rows, raw, Allocate(raw, SCALE).value);
        }
      }
    }
  }

  function RawOfEntry(e: Entry): int {
    e.rawUnits
  }

  function UnitsOfEntry(e: Entry): int {
    e.units
  }

  /** The larger raw weight never gets fewer units; equal ones differ by at most one, in favour of the
      lower address. */
  predicate FairPair(e: Entry, f: Entry) {
    && (e.rawUnits > f.rawUnits ==> e.units >= f.units)
    && (e.rawUnits == f.rawUnits && AddressOf(e.input) < AddressOf(f.input) ==> f.units <= e.units <= f.units + 1)
  }

  lemma SortedDistinct(input: seq<Input>)
    ensures var rows := SortBy(AddressOf, input);
      (forall i, j :: 0 <= i < j < |rows| ==> AddressOf(rows[i]) != AddressOf(rows[j])) ==> Increasing(AddressOf, rows)
  {
    var rows := SortBy(AddressOf, input);
    SortElements(AddressOf, input);
    SortRearranges(AddressOf, input);
    if forall i, j :: 0 <= i < j < |rows| ==> AddressOf(rows[i]) != AddressOf(rows[j]) {
      SameCountDistinct(AddressOf, input, rows);
      SortIncreases(AddressOf, input);
    }
  }

  lemma EntriesGuarantee(rows: seq<Input>, raw: seq<nat>, units: seq<nat>)
    requires |rows| == |raw| && Total(raw, |raw|) > 0 && Increasing(AddressOf, rows)
    requires Allocate(raw, SCALE) == Some(units) && |units| == |raw| && Total(units, |units|) == SCALE
    ensures var es := Entries(rows, raw, units); var sum := Sum(RawOfEntry, es);
      && sum > 0 && Sum(UnitsOfEntry, es) == SCALE
      && (forall e :: e in es ==> Rounded(e.units, e.rawUnits, sum, SCALE))
      && forall i, j :: 0 <= i < |es| && 0 <= j < |es| ==> FairPair(es[i], es[j])
  {
    hide Allocate, Total, Rounded;
    var es := Entries(rows, raw, units);
    EntrySums(rows, raw, units, |rows|);
    assert es[..|rows|] == es;
    AllocationIsExact(raw, SCALE);
    forall e | e in es ensures Rounded(e.units, e.rawUnits, Sum(RawOfEntry, es), SCALE) {
      var i :| 0 <= i < |es| && es[i] == e;
    }
    forall i, j | 0 <= i < |es| && 0 <= j < |es| ensures FairPair(es[i], es[j]) {
      AllocationIsFair(raw, SCALE, i, j);
      assert j <= i ==> AddressOf(rows[j]) <= AddressOf(rows[i]);
    }
  }

  lemma {:induction false} EntrySums(rows: seq<Input>, raw: seq<nat>, units: seq<nat>, n: nat)
    requires |rows| == |raw| == |units| && n <= |rows|
    ensures Sum(RawOfEntry, Entries(rows, raw, units)[..n]) == Total(raw, n)
    ensures Sum(UnitsOfEntry, Entries(rows, raw, units)[..n]) == Total(units, n)
  {
    if n > 0 {
      EntrySums(rows, raw, units, n - 1);
      var es := Entries(rows, raw, units);
      assert es[..n] == es[..n - 1] + [es[n - 1]];
      SumAppend(RawOfEntry, es[..n - 1], es[n - 1]);
      SumAppend(UnitsOfEntry, es[..n - 1], es[n - 1]);
    }
  }

  /** The weights do not depend on the order in which the wallets are listed. */
  lemma WeightsIgnoreListing(a: seq<Input>, b: seq<Input>, rnd: real -> real)
    requires Rounding(rnd) && |a| == |b| && forall r :: r in a <==> r in b
    requires CalculateWalletWeights(a, rnd).Weights?
    ensures CalculateWalletWeights(b, rnd) == CalculateWalletWeights(a, rnd)
  {
    hide Allocate, Total, SortBy, FirstError, RawUnits, Rounding, RowError;
    FirstErrorMeaning(a);
    FirstErrorMeaning(b);
    forall i | 0 <= i < |b| ensures RowError(b[i]).None? {
      assert b[i] in a;
    }
    SortedDistinct(a);
    var rows := SortBy(AddressOf, a);
    SortElements(AddressOf, a);
    SortRearranges(AddressOf, a);
    SameCountDistinct(AddressOf, a, rows);
    SameLengthDistinct(AddressOf, a, b);
    SortIgnoresListing(AddressOf, a, b);
    ScopeIgnoresListing(a, b);
  }

  lemma ScopeIgnoresListing(a: seq<Input>, b: seq<Input>)
    requires |a| == |b| && (forall r :: r in a <==> r in b) && ScopeValid(Members(a))
    ensures ScopeValid(Members(b))
  {
    WalletKeys(a);
    SameLengthDistinct(WalletOfInput, a, b);
    var ms, ns := Members(a), Members(b);
    forall i | 0 <= i < |ns|
      ensures ns[i].selectionRunId == ms[0].selectionRunId && ns[i].performanceRunId.Some? && ns[i].address.Hex?
    {
      assert b[i] in a;
      var j :| 0 <= j < |a| && a[j] == b[i];
      assert ms[j] == ns[i];
    }
    forall i, j | 0 <= i < j < |ns| ensures ns[i].walletAddressId != ns[j].walletAddressId {
      assert WalletOfInput(b[i]) != WalletOfInput(b[j]);
    }
  }

  function WalletOfInput(r: Input): int {
    r.member.walletAddressId
  }

  lemma WalletKeys(a: seq<Input>)
    requires ScopeValid(Members(a))
    ensures DistinctKeys(WalletOfInput, a)
  {
    forall i, j | 0 <= i < j < |a| ensures WalletOfInput(a[i]) != WalletOfInput(a[j]) {
      assert Members(a)[i].walletAddressId != Members(a)[j].walletAddressId;
    }
  }

  /** 10^54 and 10^39: the numerators and the sum of raw weights stay far below 80 digits. */
  lemma IntermediatesFit(input: seq<Input>, rnd: real -> real)
    requires Rounding(rnd) && Accepted(input) && |input| <= MAX_MEMBERS
    ensures var raw := RawOf(input, rnd);
      && (forall i :: 0 <= i < |raw| ==>
          raw[i] * SCALE <= 1_000_000_000_000_000_000_000_000_000_000_000_000_000_000_000_000_000_000)
      && Total(raw, |raw|) <= 200_000_000_000_000_000_000_000_000_000_000_000_000
  {
    hide Rounding;
    var raw := RawOf(input, rnd);
    TotalBound(raw, |raw|);
  }

  lemma {:induction false} TotalBound(raw: seq<nat>, n: nat)
    requires n <= |raw| && forall i :: 0 <= i < |raw| ==> raw[i] <= RAW_SCALE
    ensures Total(raw, n) <= n * RAW_SCALE
  {
    if n > 0 { TotalBound(raw, n - 1); }
  }
}
