/** packages/analytics/src/direction-change.ts: two signals of adjacent buckets are re-validated from
    their texts and compared. */
module DirectionChange {

  import opened Sequences
  import opened Aggregation
  import opened BehaviorSignal

  /** A decimal text: one in canonical form and its value, or anything else. */
  datatype Figure = Canonical(value: real) | Irregular(text: nat)

  datatype DirectionSignal = DirectionSignal(
    id: Digest, inputFingerprint: Digest, coin: string, bucketStart: Stamp, bucketEnd: Stamp,
    signalVersion: string, status: SignalStatus, selectionRunId: Id, cohortFingerprint: Digest,
    weightSnapshotId: Digest, weightInputFingerprint: Digest, weightVersion: string,
    aggregationRevisionId: Digest, aggregationInputFingerprint: Digest, aggregationVersion: string,
    behaviorVersion: Id, buyStrength: Figure, sellStrength: Figure, netSignal: Figure, confidence: Figure,
    participatingWalletCount: int, mass: Figure)

  datatype Reason =
    | SignalNotValid
    | UnsupportedVersion
    | InvalidProvenance
    | UnreadableTimestamp
    | InvalidBucket
    | InvalidDecimal
    | InconsistentSignal
    | Incompatible(key: string)
    | NonAdjacentBuckets

  datatype EventType =
    | BuyAccelerating
    | BuyWeakening
    | SellAccelerating
    | SellWeakening
    | BullishReversal
    | BearishReversal
    | NoChange

  datatype Explanation = UnchangedNet | EmergedBuy | EmergedSell | ExactNetTransition

  datatype Change = Change(
    coin: string, previousSignalId: Digest, currentSignalId: Digest, previousBucket: Stamp, currentBucket: Stamp,
    delta: real, eventType: EventType, reason: Explanation, confidenceDelta: real)

  datatype ChangeResult = Compared(change: Change) | Rejected(reason: Reason)

  // ---------------------------------------------------------------- validation

  predicate AtMost19Places(x: real) {
    (x * 10_000_000_000_000_000_000.0).Floor as real == x * 10_000_000_000_000_000_000.0
  }

  predicate AtMost18Places(x: real) {
    (x * 1_000_000_000_000_000_000.0).Floor as real == x * 1_000_000_000_000_000_000.0
  }

  predicate IsStrength(f: Figure) {
    f.Canonical? && AtMost19Places(f.value) && 0.0 <= f.value <= 1.0
  }

  predicate IsNet(f: Figure) {
    f.Canonical? && AtMost19Places(f.value) && -1.0 <= f.value <= 1.0
  }

  predicate IsConfidence(f: Figure) {
    f.Canonical? && AtMost18Places(f.value) && 0.0 <= f.value <= 1.0
  }

  predicate SupportedVersions(s: DirectionSignal) {
    && s.signalVersion == SIGNAL_VERSION && s.weightVersion == WEIGHT_VERSION
    && s.aggregationVersion == AGGREGATION_VERSION && s.behaviorVersion == BEHAVIOR_VERSION
  }

  predicate ProvenanceValid(s: DirectionSignal) {
    && !s.id.NotADigest? && !s.inputFingerprint.NotADigest? && !s.cohortFingerprint.NotADigest?
    && !s.weightSnapshotId.NotADigest? && !s.weightInputFingerprint.NotADigest?
    && !s.aggregationRevisionId.NotADigest? && !s.aggregationInputFingerprint.NotADigest?
    && s.id == s.inputFingerprint && s.weightSnapshotId == s.weightInputFingerprint
    && 0 < |s.coin| <= 100
  }

  predicate Consistent(s: DirectionSignal, rnd: real -> real)
    requires s.buyStrength.Canonical? && s.sellStrength.Canonical? && s.netSignal.Canonical? && s.mass.Canonical?
  {
    && rnd(s.buyStrength.value - s.sellStrength.value) == s.netSignal.value
    && rnd(s.buyStrength.value + s.sellStrength.value) == s.mass.value
    && s.mass.value != 0.0
    && 1 <= s.participatingWalletCount <= 200
  }

  function Validate(s: DirectionSignal, rnd: real -> real): Option<Reason> {
    if s.status != SignalValid then Some(SignalNotValid)
    else if !SupportedVersions(s) then Some(UnsupportedVersion)
    else if !ProvenanceValid(s) then Some(InvalidProvenance)
    else if BucketStart(s.bucketStart).None? then Some(UnreadableTimestamp)
    else if At(BucketStart(s.bucketStart).value) != s.bucketStart
        || At(s.bucketStart.ms + BUCKET_MS) != s.bucketEnd then
      Some(InvalidBucket)
    else if !IsStrength(s.buyStrength) || !IsStrength(s.sellStrength) || !IsNet(s.netSignal) || !IsStrength(s.mass)
            || !IsConfidence(s.confidence) then Some(Reason.InvalidDecimal)
    else if !Consistent(s, rnd) then Some(InconsistentSignal)
    else None
  }

  // ---------------------------------------------------------------- comparison

  /** The first field on which the signals are not on the same basis. */
  function Difference(p: DirectionSignal, c: DirectionSignal): Option<string> {
    if p.coin != c.coin then Some("coin")
    else if p.signalVersion != c.signalVersion then Some("signalVersion")
    else if p.selectionRunId != c.selectionRunId then Some("selectionRunId")
    else if p.cohortFingerprint != c.cohortFingerprint then Some("cohortFingerprint")
    else if p.weightSnapshotId != c.weightSnapshotId then Some("weightSnapshotId")
    else if p.weightInputFingerprint != c.weightInputFingerprint then Some("weightInputFingerprint")
    else if p.weightVersion != c.weightVersion then Some("weightVersion")
    else if p.aggregationVersion != c.aggregationVersion then Some("aggregationVersion")
    else if p.behaviorVersion != c.behaviorVersion then Some("behaviorVersion")
    else None
  }

  function EventTypeOf(a: real, b: real): EventType {
    if a < 0.0 && b > 0.0 then BullishReversal
    else if a > 0.0 && b < 0.0 then BearishReversal
    else if a > 0.0 && b > a then BuyAccelerating
    else if a > 0.0 && b < a then BuyWeakening
    else if a < 0.0 && b < a then SellAccelerating
    else if a < 0.0 && b > a then SellWeakening
    else NoChange
  }

  function ReasonOf(a: real, b: real): Explanation {
    if EventTypeOf(a, b) != NoChange then ExactNetTransition
    else if a == 0.0 && b > 0.0 then EmergedBuy
    else if a == 0.0 && b < 0.0 then EmergedSell
    else UnchangedNet
  }

  function CalculateDirectionChange(p: DirectionSignal, c: DirectionSignal, rnd: real -> real): ChangeResult {
    if Validate(p, rnd).Some? then Rejected(Validate(p, rnd).value)
    else if Validate(c, rnd).Some? then Rejected(Validate(c, rnd).value)
    else if Difference(p, c).Some? then Rejected(Incompatible(Difference(p, c).value))
    else if p.bucketEnd != c.bucketStart || p.id == c.id then Rejected(NonAdjacentBuckets)
    else
      var a, b := p.netSignal.value, c.netSignal.value;
      Compared(Change(c.coin, p.id, c.id, p.bucketStart, c.bucketStart, rnd(b - a), EventTypeOf(a, b), ReasonOf(a, b),
                      rnd(c.confidence.value - p.confidence.value)))
  }

  /** What the next stage reads of a signal. */
  function Project(s: Signal): DirectionSignal {
    var e := s.evidence;
    DirectionSignal(
      s.id, s.id, e.coin, e.bucketStart, e.bucketEnd, SIGNAL_VERSION, s.status, e.selectionRunId, e.cohortFingerprint,
      e.weightSnapshotId, e.weightInputFingerprint, e.weightVersion, e.aggregationRevisionId,
      e.aggregationInputFingerprint, e.aggregationVersion, e.behaviorVersion, Canonical(s.buyStrength),
      Canonical(s.sellStrength), Canonical(s.netSignal), Canonical(s.confidence), s.participatingWalletCount,
      Canonical(s.mass))
  }
}
