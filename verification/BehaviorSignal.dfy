/** packages/analytics/src/behavior-signal.ts: the events of an accepted aggregate and the weights of
    its cohort become one bounded signal of a coin and bucket. */
module BehaviorSignal {

  // Decimals are reals; the 80-digit rounding of every operation is a parameter. Hashes are free
  // constructors, so equal digests mean equal contents.

  import opened Sequences
  import opened Aggregation
  import W = WalletWeight

  const SIGNAL_VERSION: string := "signal-v1"
  const WEIGHT_VERSION: string := "wallet-weight-v1"
  const AGGREGATION_VERSION: string := "behavior-aggregation-v1"
  const MIXED_SHARE: real := 0.5
  const BREADTH_ANCHOR: real := 2.0

  datatype Digest =
    | ScopeDigest(members: seq<Member>)
    | SnapshotDigest(snapshot: Bucket)
    | BucketDigest(selectionRunId: Id, scope: Digest, coin: string, start: Stamp)
    | RevisionDigest(bucket: Digest, input: Digest)
    | WeightDigest(selectionRunId: Id, cohort: Digest, rows: seq<W.Input>)
    | SignalDigest(evidence: Evidence)
    | NotADigest(text: nat)

  /** What identifies a signal. */
  datatype Evidence = Evidence(
    aggregationRevisionId: Digest, aggregationInputFingerprint: Digest, aggregationVersion: string,
    behaviorVersion: Id, weightSnapshotId: Digest, weightVersion: string, weightInputFingerprint: Digest,
    selectionRunId: Id, cohortFingerprint: Digest, coin: string, bucketStart: Stamp, bucketEnd: Stamp)

  /** An aggregate with the identities the source derives from it. */
  datatype Receipt = Receipt(
    bucketId: Digest, bucketStart: Stamp, bucketEnd: Stamp, selectionRunId: Id, scopeFingerprint: Digest,
    inputFingerprint: Digest, aggregate: Aggregate)

  datatype WeightReceipt = WeightReceipt(
    id: Digest, selectionRunId: Id, cohortFingerprint: Digest, inputFingerprint: Digest,
    rows: seq<W.Input>, entries: seq<W.Entry>)

  datatype Problem =
    | AggregationThrows
    | AggregationReceiptMismatch
    | AggregationBlocked
    | WeightThrows(reason: W.Reason)
    | WeightReceiptMismatch
    | CohortMismatch

  datatype Contribution = Contribution(
    walletAddressId: Id, performanceRunId: Option<Id>, normalizedWeight: real, buyShare: real, sellShare: real,
    buyContribution: real, sellContribution: real, buyEventCount: nat, sellEventCount: nat,
    buyNotional: int, sellNotional: int)

  datatype SignalStatus = SignalValid | NoSignal

  datatype Signal = Signal(
    id: Digest, evidence: Evidence, status: SignalStatus, buyStrength: real, sellStrength: real, netSignal: real,
    participatingWalletCount: nat, mass: real, buyOnly: nat, sellOnly: nat, mixed: nat,
    agreement: real, breadth: real, confidence: real, contributions: seq<Contribution>)

  datatype SignalResult = Computed(signal: Signal) | Failed(problem: Problem)

  // ---------------------------------------------------------------- numbers

  /** `n` units of 10^-19, the finest a contribution gets. */
  function Nineteenth(n: int): real {
    n as real / 10_000_000_000_000_000_000.0
  }

  /** 10^80. */
  const PRECISION: int :=
    100_000_000_000_000_000_000_000_000_000_000_000_000_000_000_000_000_000_000_000_000_000_000_000_000_000_000

  /** Rounding to 80 significant digits: monotone, and exact on whatever has no more digits. */
  ghost predicate Rounding80(rnd: real -> real) {
    && (forall x, y :: x <= y ==> rnd(x) <= rnd(y))
    && forall n :: -PRECISION < n < PRECISION ==> rnd(Nineteenth(n)) == Nineteenth(n)
  }

  /** To 18 decimals, half to even. */
  function Round18(x: real): real {
    W.HalfEven(x * 1_000_000_000_000_000_000.0) as real / 1_000_000_000_000_000_000.0
  }

  function Times(x: real, y: real, rnd: real -> real): real {
    rnd(x * y)
  }

  // ---------------------------------------------------------------- receipts

  function ReceiptOf(a: Aggregate): Receipt
    requires a.snapshot.members != [] && BucketStart(a.snapshot.start).Some?
  {
    var s := a.snapshot;
    var scope, run := ScopeDigest(s.members), s.members[0].selectionRunId;
    Receipt(BucketDigest(run, scope, s.coin, s.start), s.start, At(BucketStart(s.start).value + BUCKET_MS),
            run, scope, SnapshotDigest(s), a)
  }

  lemma AggregateKey(b: Bucket, hash: Hash)
    requires AggregateBucket(b, hash).Some?
    ensures var s := AggregateBucket(b, hash).value.snapshot;
      && s.coin == b.coin && s.start == b.start && BucketStart(s.start).Some?
      && s.start == At(BucketStart(s.start).value)
      && 0 < |s.coin| <= 100 && |s.members| == |b.members| && 0 < |s.members| <= MAX_MEMBERS
  {
    hide Collect, SortBy, TotalsOf, BucketStart;
    SortElements(WalletOf, b.members);
  }

  function WeightReceiptOf(rows: seq<W.Input>, entries: seq<W.Entry>): WeightReceipt
    requires rows != []
  {
    var cohort, run := ScopeDigest(SortBy(WalletOf, W.Members(rows))), rows[0].member.selectionRunId;
    var sorted := SortBy(W.AddressOf, rows);
    var id := WeightDigest(run, cohort, sorted);
    WeightReceipt(id, run, cohort, id, sorted, entries)
  }

  lemma WeightedRows(rows: seq<W.Input>, rnd: real -> real)
    requires W.Rounding(rnd) && W.CalculateWalletWeights(rows, rnd).Weights?
    ensures rows != [] && |rows| <= MAX_MEMBERS
  {
  }

  lemma RoundingIsEnough(rnd: real -> real)
    requires Rounding80(rnd)
    ensures W.Rounding(rnd)
  {
    assert Nineteenth(0) == 0.0 && Nineteenth(10_000_000_000_000_000_000) == 1.0
        && Nineteenth(20_000_000_000_000_000_000) == 2.0;
  }

  // ---------------------------------------------------------------- contributions

  function TradedBy(wallet: Id): Event -> bool {
    (e: Event) => e.walletAddressId == wallet
  }

  predicate IsBuyOf(direction: string, eventType: string) {
    (direction == "LONG") == (eventType in ["POSITION_OPEN", "POSITION_INCREASE"])
  }

  predicate IsBuy(e: Event) {
    IsBuyOf(e.direction, e.eventType)
  }

  predicate IsSell(e: Event) {
    !IsBuy(e)
  }

  function Share(own: nat, other: nat): real {
    if own == 0 then 0.0 else if other == 0 then 1.0 else MIXED_SHARE
  }

  /** A weight of 18 decimals. */
  function WeightValue(units: nat): real {
    Nineteenth(10 * units)
  }

  function SideValue(units: nat, share: real, rnd: real -> real): real {
    Times(WeightValue(units), share, rnd)
  }

  function ContributionOf(entry: W.Entry, events: seq<Event>, rnd: real -> real): Contribution {
    var own := Filter(TradedBy(entry.input.member.walletAddressId), events);
    var buy, sell := Filter(IsBuy, own), Filter(IsSell, own);
    var weight, buyShare, sellShare := WeightValue(entry.units), Share(|buy|, |sell|), Share(|sell|, |buy|);
    Contribution(entry.input.member.walletAddressId, entry.input.member.performanceRunId, weight, buyShare, sellShare,
                 SideValue(entry.units, buyShare, rnd), SideValue(entry.units, sellShare, rnd), |buy|, |sell|,
                 Sum(UnitsOf, buy), Sum(UnitsOf, sell))
  }

  function Contributions(entries: seq<W.Entry>, events: seq<Event>, rnd: real -> real): (cs: seq<Contribution>) {
    seq(|entries|, i requires 0 <= i < |entries| => ContributionOf(entries[i], events, rnd))
  }

  predicate Participates(c: Contribution) {
    c.buyEventCount + c.sellEventCount > 0
  }

  function BuyOf(c: Contribution): real {
    c.buyContribution
  }

  function SellOf(c: Contribution): real {
    c.sellContribution
  }

  /** The rounded sum of the first `n` figures. */
  function Folded(f: Contribution -> real, cs: seq<Contribution>, n: nat, rnd: real -> real): real
    requires n <= |cs|
  {
    if n == 0 then 0.0 else rnd(Folded(f, cs, n - 1, rnd) + f(cs[n - 1]))
  }

  // ---------------------------------------------------------------- the signal

  function Agreement(buy: real, sell: real, mass: real, rnd: real -> real): real {
    if mass == 0.0 then 0.0 else rnd((if buy >= sell then buy else sell) / mass)
  }

  function Breadth(participants: nat, rnd: real -> real): real {
    rnd(participants as real / (participants as real + BREADTH_ANCHOR))
  }

  function SignalOf(evidence: Evidence, cs: seq<Contribution>, rnd: real -> real): Signal {
    var participants := Filter(Participates, cs);
    var buy := Folded(BuyOf, cs, |cs|, rnd);
    var sell := Folded(SellOf, cs, |cs|, rnd);
    var mass := rnd(buy + sell);
    var agreement, breadth := Agreement(buy, sell, mass, rnd), Breadth(|participants|, rnd);
    Signal(SignalDigest(evidence), evidence, if mass == 0.0 then NoSignal else SignalValid,
           buy, sell, rnd(buy - sell), |participants|, mass,
           |Filter((c: Contribution) => c.buyShare == 1.0, participants)|,
           |Filter((c: Contribution) => c.sellShare == 1.0, participants)|,
           |Filter((c: Contribution) => c.buyShare == MIXED_SHARE, participants)|,
           Round18(agreement), Round18(breadth), Round18(Times(Times(mass, agreement, rnd), breadth, rnd)), cs)
  }

  function EvidenceOf(a: Receipt, w: WeightReceipt): Evidence {
    Evidence(RevisionDigest(a.bucketId, a.inputFingerprint), a.inputFingerprint, AGGREGATION_VERSION,
             BEHAVIOR_VERSION, w.id, WEIGHT_VERSION, w.inputFingerprint, w.selectionRunId, w.cohortFingerprint,
             a.aggregate.snapshot.coin, a.bucketStart, a.bucketEnd)
  }

  function AggregateProblem(a: Receipt, hash: Hash): Option<Problem> {
    var checked := AggregateBucket(a.aggregate.snapshot, hash);
    if checked.None? then Some(AggregationThrows)
    else
      AggregateKey(a.aggregate.snapshot, hash);
      if ReceiptOf(checked.value) != a then Some(AggregationReceiptMismatch)
      else if a.aggregate.status == Blocked then Some(AggregationBlocked)
      else None
  }

  function WeightProblem(w: WeightReceipt, rnd: real -> real): Option<Problem>
    requires W.Rounding(rnd)
  {
    match W.CalculateWalletWeights(w.rows, rnd)
    case Refused(reason) => Some(WeightThrows(reason))
    case Weights(entries) =>
      WeightedRows(w.rows, rnd);
      if WeightReceiptOf(w.rows, entries) != w then Some(WeightReceiptMismatch) else None
  }

  /** The reason the receipts are refused, if they are. */
  function ReceiptProblem(a: Receipt, w: WeightReceipt, hash: Hash, rnd: real -> real): Option<Problem>
    requires W.Rounding(rnd)
  {
    var aggregate, weight := AggregateProblem(a, hash), WeightProblem(w, rnd);
    if aggregate.Some? then aggregate
    else if weight.Some? then weight
    else if a.selectionRunId != w.selectionRunId || a.scopeFingerprint != w.cohortFingerprint then Some(CohortMismatch)
    else None
  }

  function CalculateBehaviorSignal(a: Receipt, w: WeightReceipt, hash: Hash, rnd: real -> real): SignalResult
    requires Rounding80(rnd)
  {
    RoundingIsEnough(rnd);
    var problem := ReceiptProblem(a, w, hash, rnd);
    if problem.Some? then Failed(problem.value)
    else Computed(SignalOf(EvidenceOf(a, w), Contributions(w.entries, a.aggregate.snapshot.events, rnd), rnd))
  }
}
