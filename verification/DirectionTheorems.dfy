/** From receipts to a comparison, across packages/analytics/src/behavior-signal.ts and
    packages/analytics/src/direction-change.ts: every event is attributed to one wallet, a VALID signal
    always passes the validation of the next stage, two of them are comparable exactly when they share a
    basis, and the legs of the normaliser are classed as their fills. */
module DirectionTheorems {

  import opened Sequences
  import opened Aggregation
  import opened BehaviorSignal
  import opened SignalTheorems
  import W = WalletWeight
  import A = Allocation
  import T = AggregationTheorems
  import D = DirectionChange
  import CS = CausalSearch
  import DC = Decimals
  import N = BehaviorNormalization
  import NT = NormalizationTheorems

  // ---------------------------------------------------------------- every event counts once

  function OwnCount(events: seq<Event>): W.Entry -> int {
    e => |Own(e, events)|
  }

  function OwnNotional(events: seq<Event>): W.Entry -> int {
    e => Sum(UnitsOf, Own(e, events))
  }

  ghost predicate Attributable(entries: seq<W.Entry>, e: Event) {
    exists i :: 0 <= i < |entries| && WalletOfEntry(entries[i]) == e.walletAddressId
  }

  lemma {:induction false} EventsOver(events: seq<Event>, entries: seq<W.Entry>)
    requires DistinctWallets(entries) && forall e :: e in events ==> Attributable(entries, e)
    ensures Sum(OwnCount(events), entries) == |events|
    ensures Sum(OwnNotional(events), entries) == Sum(UnitsOf, events)
  {
    hide Sum, UnitsOf, Own, WalletOfEntry;
    if events == [] {
      NoEvents(entries);
      T.EmptySum();
    } else {
      var n := |events| - 1;
      var front, e := events[..n], events[n];
      assert forall x :: x in front ==> x in events;
      EventsOver(front, entries);
      SumAppend(UnitsOf, front, e);
      assert events == front + [e] && e in events;
      var own :| 0 <= own < |entries| && WalletOfEntry(entries[own]) == e.walletAddressId;
      forall k | 0 <= k < |entries|
        ensures OwnCount(events)(entries[k]) == OwnCount(front)(entries[k])
          + if entries[k] == entries[own] then 1 else 0
        ensures OwnNotional(events)(entries[k]) == OwnNotional(front)(entries[k])
          + if entries[k] == entries[own] then UnitsOf(e) else 0
      {
        OwnGrows(events, entries[k]);
        assert k < own ==> WalletOfEntry(entries[k]) != WalletOfEntry(entries[own]);
        assert own < k ==> WalletOfEntry(entries[own]) != WalletOfEntry(entries[k]);
      }
      SumPoint(OwnCount(front), OwnCount(events), entries[own], 1, entries);
      SumPoint(OwnNotional(front), OwnNotional(events), entries[own], UnitsOf(e), entries);
    }
  }

  lemma OwnGrows(events: seq<Event>, entry: W.Entry)
    requires events != []
    ensures var n := |events| - 1; var own := events[n].walletAddressId == WalletOfEntry(entry);
      && |Own(entry, events)| == |Own(entry, events[..n])| + (if own then 1 else 0)
      && Sum(UnitsOf, Own(entry, events)) == Sum(UnitsOf, Own(entry, events[..n]))
          + if own then UnitsOf(events[n]) else 0
  {
    hide UnitsOf;
    var n := |events| - 1;
    SumAppend(UnitsOf, Own(entry, events[..n]), events[n]);
    assert Own(entry, events[..n]) + [] == Own(entry, events[..n]);
  }

  lemma {:induction false} NoEvents(entries: seq<W.Entry>)
    ensures Sum(OwnCount([]), entries) == 0 && Sum(OwnNotional([]), entries) == 0
  {
    if entries != [] { NoEvents(entries[..|entries| - 1]); }
  }

  function EventsSeen(c: Contribution): int {
    c.buyEventCount + c.sellEventCount
  }

  function NotionalSeen(c: Contribution): int {
    c.buyNotional + c.sellNotional
  }

  lemma {:induction false} SumMapped(f: Contribution -> int, g: W.Entry -> int, cs: seq<Contribution>,
                                     entries: seq<W.Entry>, n: nat)
    requires |cs| == |entries| && n <= |cs| && forall i :: 0 <= i < |cs| ==> f(cs[i]) == g(entries[i])
    ensures Sum(f, cs[..n]) == Sum(g, entries[..n])
  {
    if n > 0 {
      SumMapped(f, g, cs, entries, n - 1);
      assert cs[..n] == cs[..n - 1] + [cs[n - 1]] && entries[..n] == entries[..n - 1] + [entries[n - 1]];
      SumAppend(f, cs[..n - 1], cs[n - 1]);
      SumAppend(g, entries[..n - 1], entries[n - 1]);
    }
  }

  lemma EventsHaveWallets(a: Receipt, w: WeightReceipt, hash: Hash, rnd: real -> real, e: Event)
    requires W.Rounding(rnd) && ReceiptProblem(a, w, hash, rnd).None? && e in a.aggregate.snapshot.events
    ensures Attributable(w.entries, e)
  {
    hide W.Rounding, AggregateBucket, W.CalculateWalletWeights, SortBy, BucketStart, EventIssues, InScope, KeyValid;
    AcceptedAggregate(a, hash);
    AcceptedWeights(w, rnd);
    AcceptedCohort(a, w, hash, rnd);
    CleanEvents(a.aggregate.snapshot, hash, e);
    EntriesOfRows(w.rows, w.entries, rnd);
  }

  lemma CleanEvents(s: Bucket, hash: Hash, e: Event)
    requires AggregateBucket(s, hash).Some? && AggregateBucket(s, hash).value.status != Blocked && e in s.events
    ensures InScope(s.members, e.walletAddressId)
  {
    hide EventIssues, InScope, KeyValid, Collect, SortBy, TotalsOf;
    assert KeyValid(s);
    T.BlockedExactlyWhen(s, hash);
    var i :| 0 <= i < |s.events| && s.events[i] == e;
    assert EventIssues(s, e, hash) == {};
    T.NoIssues(s, e, hash);
  }

  /** The contributions account for every event of the aggregate and for all of its notional. */
  lemma EventsAreConserved(a: Receipt, w: WeightReceipt, hash: Hash, rnd: real -> real)
    requires Rounding80(rnd) && CalculateBehaviorSignal(a, w, hash, rnd).Computed?
    ensures var s, events := CalculateBehaviorSignal(a, w, hash, rnd).signal, a.aggregate.snapshot.events;
      && Sum(EventsSeen, s.contributions) == |events|
      && Sum(NotionalSeen, s.contributions) == Sum(UnitsOf, events)
  {
    hide Rounding80, ReceiptProblem, Sum, ContributionOf, W.Rounding, Filter;
    RoundingIsEnough(rnd);
    var events := a.aggregate.snapshot.events;
    var cs := Contributions(w.entries, events, rnd);
    AcceptedParts(a, w, hash, rnd);
    forall e | e in events ensures Attributable(w.entries, e) {
      EventsHaveWallets(a, w, hash, rnd, e);
    }
    EventsOver(events, w.entries);
    forall i | 0 <= i < |cs|
      ensures EventsSeen(cs[i]) == OwnCount(events)(w.entries[i])
        && NotionalSeen(cs[i]) == OwnNotional(events)(w.entries[i])
    {
      UnitsBelowScale(w.entries, i);
      OneContribution(w.entries[i], events, rnd);
    }
    SumMapped(EventsSeen, OwnCount(events), cs, w.entries, |cs|);
    SumMapped(NotionalSeen, OwnNotional(events), cs, w.entries, |cs|);
    assert cs[..|cs|] == cs && w.entries[..|cs|] == w.entries;
  }

  lemma AcceptedParts(a: Receipt, w: WeightReceipt, hash: Hash, rnd: real -> real)
    requires W.Rounding(rnd) && ReceiptProblem(a, w, hash, rnd).None?
    ensures WeightsAddUp(w.entries) && DistinctWallets(w.entries)
  {
    hide W.Rounding, AggregateProblem, W.CalculateWalletWeights, WeightsAddUp, DistinctWallets;
    AcceptedWeights(w, rnd);
  }

  // ---------------------------------------------------------------- what a signal says

  ghost predicate SomeWeightTraded(entries: seq<W.Entry>, events: seq<Event>) {
    exists i :: 0 <= i < |entries| && entries[i].units > 0 && Own(entries[i], events) != []
  }

  lemma {:induction false} PositiveSum<T>(f: T -> int, s: seq<T>)
    requires forall i :: 0 <= i < |s| ==> f(s[i]) >= 0
    ensures Sum(f, s) >= 0 && (Sum(f, s) > 0 <==> exists i :: 0 <= i < |s| && f(s[i]) > 0)
  {
    if s != [] {
      var n := |s| - 1;
      PositiveSum(f, s[..n]);
      if i :| 0 <= i < n && f(s[..n][i]) > 0 { assert f(s[i]) > 0; }
      if i :| 0 <= i < |s| && f(s[i]) > 0 { assert i < n ==> f(s[..n][i]) > 0; }
    }
  }

  /** A signal is VALID exactly when a wallet of positive weight traded in the bucket. Its strengths are
      exact and add up to the weight of the wallets that traded, at most 1; each such wallet puts its
      weight on one side or half on each; confidence stays below 1. */
  lemma SignalGuarantee(a: Receipt, w: WeightReceipt, hash: Hash, rnd: real -> real)
    requires Rounding80(rnd) && CalculateBehaviorSignal(a, w, hash, rnd).Computed?
    ensures var s, events := CalculateBehaviorSignal(a, w, hash, rnd).signal, a.aggregate.snapshot.events;
      var m := Sum(ActiveUnits(events), w.entries);
      && (s.status == SignalValid <==> SomeWeightTraded(w.entries, events))
      && s.buyStrength + s.sellStrength == s.mass == Nineteenth(10 * m) <= 1.0
      && s.buyStrength - s.sellStrength == s.netSignal && s.buyStrength >= 0.0 && s.sellStrength >= 0.0
      && s.confidence <= 0.995
      && (s.status == SignalValid ==> s.participatingWalletCount >= 1) && s.participatingWalletCount <= MAX_MEMBERS
      && s.participatingWalletCount == s.buyOnly + s.sellOnly + s.mixed
      && forall i :: 0 <= i < |w.entries| ==> FullContribution(s.contributions[i], w.entries[i], events)
  {
    hide Rounding80, ReceiptProblem, Sum, Filter, ContributionOf, SignalOf, Nineteenth, W.Rounding, ActiveUnits,
         FullContribution, SomeWeightTraded;
    RoundingIsEnough(rnd);
    AcceptedParts(a, w, hash, rnd);
    var events := a.aggregate.snapshot.events;
    NumbersOf(w.entries, events, EvidenceOf(a, w), rnd);
    SignalKeepsContributions(EvidenceOf(a, w), Contributions(w.entries, events, rnd), rnd);
    forall i | 0 <= i < |w.entries|
      ensures FullContribution(Contributions(w.entries, events, rnd)[i], w.entries[i], events)
    {
      UnitsBelowScale(w.entries, i);
      ContributionIsFull(w.entries[i], events, rnd);
    }
    CountsOf(w.entries, events, EvidenceOf(a, w), rnd);
  }

  lemma SignalKeepsContributions(evidence: Evidence, cs: seq<Contribution>, rnd: real -> real)
    ensures var s := SignalOf(evidence, cs, rnd);
      s.contributions == cs && s.evidence == evidence && s.id == SignalDigest(evidence)
  {
    hide Filter, Folded, Agreement, Breadth, Times, Round18;
  }

  /** A wallet that traded contributes exactly its weight, one that did not contributes nothing. */
  predicate FullContribution(c: Contribution, e: W.Entry, events: seq<Event>) {
    && c.walletAddressId == WalletOfEntry(e) && c.normalizedWeight == WeightValue(e.units)
    && c.buyContribution + c.sellContribution == (if Own(e, events) != [] then c.normalizedWeight else 0.0)
    && (c.buyContribution == 0.0 || c.sellContribution == 0.0 || c.buyContribution == c.sellContribution)
  }

  lemma ContributionIsFull(e: W.Entry, events: seq<Event>, rnd: real -> real)
    requires Rounding80(rnd) && e.units <= A.SCALE
    ensures FullContribution(ContributionOf(e, events, rnd), e, events)
  {
    hide Rounding80, Filter, Sum, Nineteenth, SideValue, Share;
    OneContribution(e, events, rnd);
    NineteenthAdds(BuyUnits(events)(e), SellUnits(events)(e));
  }

  lemma NumbersOf(entries: seq<W.Entry>, events: seq<Event>, evidence: Evidence, rnd: real -> real)
    requires Rounding80(rnd) && WeightsAddUp(entries)
    ensures var s := SignalOf(evidence, Contributions(entries, events, rnd), rnd);
      var m := Sum(ActiveUnits(events), entries);
      && s.buyStrength + s.sellStrength == s.mass == Nineteenth(10 * m) && 0.0 <= s.mass <= 1.0
      && s.buyStrength - s.sellStrength == s.netSignal && s.buyStrength >= 0.0 && s.sellStrength >= 0.0
      && (s.status == SignalValid <==> m > 0) && (m > 0 <==> SomeWeightTraded(entries, events))
      && D.IsStrength(D.Canonical(s.buyStrength)) && D.IsStrength(D.Canonical(s.sellStrength))
      && D.IsStrength(D.Canonical(s.mass)) && D.IsNet(D.Canonical(s.netSignal))
      && D.IsConfidence(D.Canonical(s.confidence)) && s.confidence <= 0.995
  {
    hide Rounding80, Sum, Filter, ContributionOf, SignalOf, Nineteenth, Folded, D.AtMost18Places, D.AtMost19Places,
         BuyUnits, SellUnits;
    StrengthsAreExact(entries, events, evidence, rnd);
    StrengthFolds(entries, events, rnd);
    var b, d, m := Sum(BuyUnits(events), entries), Sum(SellUnits(events), entries), Sum(ActiveUnits(events), entries);
    SignalIsBounded(evidence, Contributions(entries, events, rnd), rnd, b, d);
    NineteenthAdds(b, d);
    NineteenthAdds(b + d, 10 * A.SCALE);
    NineteenthAdds(b, 10 * A.SCALE);
    NineteenthAdds(d, 10 * A.SCALE);
    NineteenthAdds(b, 0);
    NineteenthAdds(d, 0);
    forall n: int ensures D.AtMost19Places(Nineteenth(n)) { NineteenPlaces(n); }
    PositiveSum(ActiveUnits(events), entries);
  }

  lemma NineteenPlaces(n: int)
    ensures D.AtMost19Places(Nineteenth(n))
  {
    assert Nineteenth(n) * 10_000_000_000_000_000_000.0 == n as real;
  }

  /** The participants are those that traded; each is counted as buying, selling or both. */
  lemma CountsOf(entries: seq<W.Entry>, events: seq<Event>, evidence: Evidence, rnd: real -> real)
    requires Rounding80(rnd) && WeightsAddUp(entries)
    ensures var s := SignalOf(evidence, Contributions(entries, events, rnd), rnd);
      && (SomeWeightTraded(entries, events) ==> s.participatingWalletCount >= 1)
      && s.participatingWalletCount <= |entries|
      && s.participatingWalletCount == s.buyOnly + s.sellOnly + s.mixed
  {
    hide Rounding80, Sum, Filter, ContributionOf, Folded, Agreement, Breadth, Times, Round18, Own;
    var cs := Contributions(entries, events, rnd);
    var participants := Filter(Participates, cs);
    FilterMembers(Participates, cs);
    if SomeWeightTraded(entries, events) {
      var i :| 0 <= i < |entries| && entries[i].units > 0 && Own(entries[i], events) != [];
      UnitsBelowScale(entries, i);
      OneContribution(entries[i], events, rnd);
      assert cs[i] in cs;
    }
    forall c | c in participants ensures OneSide(c) {
      var i :| 0 <= i < |cs| && cs[i] == c;
      SharesOf(entries[i], events, rnd);
    }
    ThreeWays(participants);
  }

  predicate OneSide(c: Contribution) {
    (c.buyShare == 1.0 && c.sellShare == 0.0) || (c.buyShare == 0.0 && c.sellShare == 1.0)
        || c.buyShare == c.sellShare == MIXED_SHARE
  }

  lemma SharesOf(e: W.Entry, events: seq<Event>, rnd: real -> real)
    ensures var c := ContributionOf(e, events, rnd); Participates(c) ==> OneSide(c)
  {
    hide Filter, Sum, SideValue, WeightValue;
  }

  lemma {:induction false} ThreeWays(cs: seq<Contribution>)
    requires forall c :: c in cs ==> OneSide(c)
    ensures |cs| == |Filter((c: Contribution) => c.buyShare == 1.0, cs)|
      + |Filter((c: Contribution) => c.sellShare == 1.0, cs)|
                    + |Filter((c: Contribution) => c.buyShare == MIXED_SHARE, cs)|
  {
    if cs != [] {
      assert cs[|cs| - 1] in cs && forall c :: c in cs[..|cs| - 1] ==> c in cs;
      ThreeWays(cs[..|cs| - 1]);
    }
  }

  // ---------------------------------------------------------------- the next stage

  /** The evidence of a computed signal, as far as the validator looks. */
  lemma EvidenceIsSound(a: Receipt, w: WeightReceipt, hash: Hash, rnd: real -> real)
    requires W.Rounding(rnd) && ReceiptProblem(a, w, hash, rnd).None?
    ensures var e, s := EvidenceOf(a, w), a.aggregate.snapshot;
      && e.coin == s.coin && 0 < |e.coin| <= 100 && e.bucketStart == s.start && e.bucketStart.At?
      && BucketStart(e.bucketStart) == Some(e.bucketStart.ms) && e.bucketEnd == At(e.bucketStart.ms + BUCKET_MS)
      && e.cohortFingerprint.ScopeDigest? && e.aggregationInputFingerprint.SnapshotDigest?
      && e.weightSnapshotId == e.weightInputFingerprint == WeightDigest(e.selectionRunId, e.cohortFingerprint, w.rows)
  {
    hide W.Rounding, AggregateBucket, WeightProblem, W.CalculateWalletWeights, SortBy, WeightsAddUp, DistinctWallets,
         BucketStart;
    AcceptedAggregate(a, hash);
    AcceptedWeights(w, rnd);
    assert w.id == WeightDigest(w.selectionRunId, w.cohortFingerprint, w.rows);
  }

  /** The direction-change validator accepts a computed signal exactly when it is VALID. */
  lemma ValidSignalPasses(a: Receipt, w: WeightReceipt, hash: Hash, rnd: real -> real)
    requires Rounding80(rnd) && CalculateBehaviorSignal(a, w, hash, rnd).Computed?
    ensures var s := CalculateBehaviorSignal(a, w, hash, rnd).signal;
      D.Validate(D.Project(s), rnd).None? <==> s.status == SignalValid
  {
    hide Rounding80, ReceiptProblem, Sum, Filter, ContributionOf, SignalOf, Nineteenth, W.Rounding, ActiveUnits,
         SomeWeightTraded, D.IsStrength, D.IsNet, D.IsConfidence, BucketStart, EvidenceOf, WeightsAddUp,
         DistinctWallets;
    RoundingIsEnough(rnd);
    AcceptedParts(a, w, hash, rnd);
    var events, evidence := a.aggregate.snapshot.events, EvidenceOf(a, w);
    var s := SignalOf(evidence, Contributions(w.entries, events, rnd), rnd);
    NumbersOf(w.entries, events, evidence, rnd);
    CountsOf(w.entries, events, evidence, rnd);
    SignalKeepsContributions(evidence, Contributions(w.entries, events, rnd), rnd);
    EvidenceIsSound(a, w, hash, rnd);
    EntriesBounded(w.entries);
    var m := Sum(ActiveUnits(events), w.entries);
    NineteenthAdds(10 * m, 0);
    SumsRound(s.buyStrength, s.sellStrength, s.netSignal, s.mass, w.entries, events, evidence, rnd);
    VersionsSupported(a, w, evidence);
  }

  lemma VersionsSupported(a: Receipt, w: WeightReceipt, evidence: Evidence)
    requires evidence == EvidenceOf(a, w)
    ensures evidence.aggregationVersion == AGGREGATION_VERSION && evidence.weightVersion == WEIGHT_VERSION
    ensures evidence.behaviorVersion == BEHAVIOR_VERSION && evidence.aggregationRevisionId.RevisionDigest?
  {
  }

  lemma EntriesBounded(entries: seq<W.Entry>)
    requires WeightsAddUp(entries)
    ensures |entries| <= 200
  {
  }

  lemma SumsRound(buy: real, sell: real, net: real, mass: real, entries: seq<W.Entry>, events: seq<Event>,
                  evidence: Evidence, rnd: real -> real)
    requires Rounding80(rnd) && WeightsAddUp(entries)
    requires var s := SignalOf(evidence, Contributions(entries, events, rnd), rnd);
      buy == s.buyStrength && sell == s.sellStrength && net == s.netSignal && mass == s.mass
    ensures rnd(buy - sell) == net && rnd(buy + sell) == mass
  {
    hide Rounding80, Sum, Filter, ContributionOf, Folded, Agreement, Breadth, Times, Round18, WeightsAddUp;
  }

  /** Two VALID signals are comparable exactly when they are of one coin, rest on the same weights and
      belong to adjacent buckets; the delta is then the exact difference of the nets. */
  lemma ComparableExactlyWhen(a: Receipt, w: WeightReceipt, b: Receipt, v: WeightReceipt, hash: Hash, rnd: real -> real)
    requires Rounding80(rnd)
    requires CalculateBehaviorSignal(a, w, hash, rnd).Computed? && CalculateBehaviorSignal(b, v, hash, rnd).Computed?
    requires CalculateBehaviorSignal(a, w, hash, rnd).signal.status == SignalValid
    requires CalculateBehaviorSignal(b, v, hash, rnd).signal.status == SignalValid
    ensures var p, c := CalculateBehaviorSignal(a, w, hash, rnd).signal,
      CalculateBehaviorSignal(b, v, hash, rnd).signal;
      var r := D.CalculateDirectionChange(D.Project(p), D.Project(c), rnd);
      && (r.Compared? <==>
            && a.aggregate.snapshot.coin == b.aggregate.snapshot.coin && w == v
            && b.aggregate.snapshot.start.At?
            && a.aggregate.snapshot.start == At(b.aggregate.snapshot.start.ms - BUCKET_MS))
      && (r.Compared? ==> r.change.delta == c.netSignal - p.netSignal)
  {
    hide Rounding80, ReceiptProblem, Sum, Filter, ContributionOf, SignalOf, Nineteenth, W.Rounding, BucketStart,
         EvidenceOf, D.Validate, WeightProblem, AggregateProblem;
    RoundingIsEnough(rnd);
    ValidSignalPasses(a, w, hash, rnd);
    ValidSignalPasses(b, v, hash, rnd);
    EvidenceIsSound(a, w, hash, rnd);
    EvidenceIsSound(b, v, hash, rnd);
    VersionsSupported(a, w, EvidenceOf(a, w));
    VersionsSupported(b, v, EvidenceOf(b, v));
    SignalKeepsContributions(EvidenceOf(a, w), Contributions(w.entries, a.aggregate.snapshot.events, rnd), rnd);
    SignalKeepsContributions(EvidenceOf(b, v), Contributions(v.entries, b.aggregate.snapshot.events, rnd), rnd);
    SameWeights(a, w, b, v, hash, rnd);
    NetsDiffer(a, w, b, v, hash, rnd);
  }

  /** Weights with the same identity are the same receipt. */
  lemma SameWeights(a: Receipt, w: WeightReceipt, b: Receipt, v: WeightReceipt, hash: Hash, rnd: real -> real)
    requires W.Rounding(rnd) && ReceiptProblem(a, w, hash, rnd).None? && ReceiptProblem(b, v, hash, rnd).None?
    ensures EvidenceOf(a, w).weightSnapshotId == EvidenceOf(b, v).weightSnapshotId <==> w == v
    ensures w == v ==> EvidenceOf(a, w).selectionRunId == EvidenceOf(b, v).selectionRunId
                       && EvidenceOf(a, w).cohortFingerprint == EvidenceOf(b, v).cohortFingerprint
  {
    hide W.Rounding, AggregateProblem, WeightProblem, W.CalculateWalletWeights, SortBy, WeightsAddUp, DistinctWallets;
    AcceptedWeights(w, rnd);
    AcceptedWeights(v, rnd);
    assert w.id == WeightDigest(w.selectionRunId, w.cohortFingerprint, w.rows);
    assert v.id == WeightDigest(v.selectionRunId, v.cohortFingerprint, v.rows);
  }

  lemma NetsDiffer(a: Receipt, w: WeightReceipt, b: Receipt, v: WeightReceipt, hash: Hash, rnd: real -> real)
    requires Rounding80(rnd)
    requires CalculateBehaviorSignal(a, w, hash, rnd).Computed? && CalculateBehaviorSignal(b, v, hash, rnd).Computed?
    ensures var p, c := CalculateBehaviorSignal(a, w, hash, rnd).signal,
      CalculateBehaviorSignal(b, v, hash, rnd).signal;
      rnd(c.netSignal - p.netSignal) == c.netSignal - p.netSignal
  {
    hide Rounding80, ReceiptProblem, Sum, Filter, ContributionOf, SignalOf, Nineteenth, W.Rounding, EvidenceOf,
         BuyUnits, SellUnits, ActiveUnits;
    RoundingIsEnough(rnd);
    AcceptedParts(a, w, hash, rnd);
    AcceptedParts(b, v, hash, rnd);
    StrengthsAreExact(w.entries, a.aggregate.snapshot.events, EvidenceOf(a, w), rnd);
    StrengthsAreExact(v.entries, b.aggregate.snapshot.events, EvidenceOf(b, v), rnd);
    var x := Sum(BuyUnits(a.aggregate.snapshot.events), w.entries)
        - Sum(SellUnits(a.aggregate.snapshot.events), w.entries);
    var y := Sum(BuyUnits(b.aggregate.snapshot.events), v.entries)
        - Sum(SellUnits(b.aggregate.snapshot.events), v.entries);
    NineteenthAdds(y, x);
    RoundExact(rnd, y - x);
  }

  function AggregateReceipt(bucket: Bucket, hash: Hash): Receipt
    requires AggregateBucket(bucket, hash).Some?
  {
    AggregateKey(bucket, hash);
    ReceiptOf(AggregateBucket(bucket, hash).value)
  }

  function RowsReceipt(rows: seq<W.Input>, rnd: real -> real): WeightReceipt
    requires W.Rounding(rnd) && W.CalculateWalletWeights(rows, rnd).Weights?
  {
    WeightedRows(rows, rnd);
    WeightReceiptOf(rows, W.CalculateWalletWeights(rows, rnd).entries)
  }

  /** The receipts that the two stages issue for one cohort are accepted. */
  lemma IssuedReceiptsAccepted(bucket: Bucket, rows: seq<W.Input>, hash: Hash, rnd: real -> real)
    requires Rounding80(rnd) && W.Rounding(rnd)
    requires AggregateBucket(bucket, hash).Some? && AggregateBucket(bucket, hash).value.status != Blocked
    requires W.CalculateWalletWeights(rows, rnd).Weights?
    requires SortBy(WalletOf, bucket.members) == SortBy(WalletOf, W.Members(rows))
    ensures CalculateBehaviorSignal(AggregateReceipt(bucket, hash), RowsReceipt(rows, rnd), hash, rnd).Computed?
  {
    hide Rounding80, AggregateBucket, W.CalculateWalletWeights, SortBy, BucketStart, W.Rounding, SignalOf,
         Contributions;
    AggregateKey(bucket, hash);
    WeightedRows(rows, rnd);
    var entries := W.CalculateWalletWeights(rows, rnd).entries;
    T.FixedPoint(bucket, hash);
    SortedRowsWeighTheSame(rows, rnd);
    SnapshotMembers(bucket, hash);
    SameRun(bucket, rows, rnd);
  }

  lemma SnapshotMembers(bucket: Bucket, hash: Hash)
    requires AggregateBucket(bucket, hash).Some?
    ensures AggregateBucket(bucket, hash).value.snapshot.members == SortBy(WalletOf, bucket.members)
    ensures ScopeValid(bucket.members)
  {
    hide Collect, SortBy, TotalsOf, BucketStart;
  }

  lemma SortedRowsWeighTheSame(rows: seq<W.Input>, rnd: real -> real)
    requires W.Rounding(rnd) && W.CalculateWalletWeights(rows, rnd).Weights?
    ensures var sorted := SortBy(W.AddressOf, rows);
      && W.CalculateWalletWeights(sorted, rnd) == W.CalculateWalletWeights(rows, rnd)
      && SortBy(W.AddressOf, sorted) == sorted
      && SortBy(WalletOf, W.Members(sorted)) == SortBy(WalletOf, W.Members(rows))
      && sorted != [] && rows != [] && sorted[0].member.selectionRunId == rows[0].member.selectionRunId
  {
    hide SortBy, W.Rounding, A.Allocate, W.RawUnits, W.RowError;
    var sorted := SortBy(W.AddressOf, rows);
    WeightedRows(rows, rnd);
    SortElements(W.AddressOf, rows);
    W.WeightsIgnoreListing(rows, sorted, rnd);
    W.SortedDistinct(rows);
    SortIdempotent(W.AddressOf, sorted);
    MembersOfSame(rows, sorted);
  }

  lemma MembersOfSame(rows: seq<W.Input>, sorted: seq<W.Input>)
    requires ScopeValid(W.Members(rows)) && |rows| == |sorted| && forall r :: r in sorted <==> r in rows
    ensures SortBy(WalletOf, W.Members(sorted)) == SortBy(WalletOf, W.Members(rows))
    ensures sorted != [] && sorted[0].member.selectionRunId == rows[0].member.selectionRunId
  {
    hide SortBy;
    var ms, ns := W.Members(rows), W.Members(sorted);
    forall m ensures m in ms <==> m in ns {
      if i :| 0 <= i < |ms| && ms[i] == m {
        assert rows[i] in sorted;
        var j :| 0 <= j < |sorted| && sorted[j] == rows[i];
        assert ns[j] == m;
      }
      if i :| 0 <= i < |ns| && ns[i] == m {
        assert sorted[i] in rows;
        var j :| 0 <= j < |rows| && rows[j] == sorted[i];
        assert ms[j] == m;
      }
    }
    T.MembersIgnoreListing(ms, ns);
    assert sorted[0] in rows;
    var j :| 0 <= j < |rows| && rows[j] == sorted[0];
    assert ms[j].selectionRunId == ms[0].selectionRunId;
  }

  lemma SameRun(bucket: Bucket, rows: seq<W.Input>, rnd: real -> real)
    requires W.Rounding(rnd) && W.CalculateWalletWeights(rows, rnd).Weights? && ScopeValid(bucket.members)
    requires SortBy(WalletOf, bucket.members) == SortBy(WalletOf, W.Members(rows))
    ensures rows != [] && SortBy(WalletOf, bucket.members) != []
    ensures SortBy(WalletOf, bucket.members)[0].selectionRunId == rows[0].member.selectionRunId
  {
    hide SortBy, W.Rounding;
    WeightedRows(rows, rnd);
    var ms := W.Members(rows);
    SortElements(WalletOf, ms);
    var m := SortBy(WalletOf, ms)[0];
    assert m in SortBy(WalletOf, ms) && m in ms;
  }

  function Mirrored(t: D.EventType): D.EventType {
    match t
    case BullishReversal => D.BearishReversal
    case BearishReversal => D.BullishReversal
    case BuyAccelerating => D.SellAccelerating
    case BuyWeakening => D.SellWeakening
    case SellAccelerating => D.BuyAccelerating
    case SellWeakening => D.BuyWeakening
    case NoChange => D.NoChange
  }

  function Undone(t: D.EventType): D.EventType {
    match t
    case BullishReversal => D.BearishReversal
    case BearishReversal => D.BullishReversal
    case BuyAccelerating => D.BuyWeakening
    case BuyWeakening => D.BuyAccelerating
    case SellAccelerating => D.SellWeakening
    case SellWeakening => D.SellAccelerating
    case NoChange => D.NoChange
  }

  /** Buying and selling are classified alike, and a change run backwards is classified as its undoing;
      nothing is reported exactly when the previous net is zero or stays as it is. */
  lemma ClassificationIsSymmetric(a: real, b: real)
    ensures D.EventTypeOf(0.0 - a, 0.0 - b) == Mirrored(D.EventTypeOf(a, b))
    ensures a != 0.0 && b != 0.0 ==> D.EventTypeOf(b, a) == Undone(D.EventTypeOf(a, b))
    ensures D.EventTypeOf(a, b) == D.NoChange <==> a == 0.0 || a == b
    ensures D.ReasonOf(a, b) == D.UnchangedNet <==> a == b
  {
  }

  // ---------------------------------------------------------------- legs and their class

  function DirectionText(d: N.Direction): string {
    if d == N.Long then "LONG" else "SHORT"
  }

  function TypeText(t: N.EventType): string {
    match t
    case Open => "POSITION_OPEN"
    case Increase => "POSITION_INCREASE"
    case Reduce => "POSITION_REDUCE"
    case Close => "POSITION_CLOSE"
  }

  predicate ClassedBuy(e: N.Event) {
    IsBuyOf(DirectionText(e.direction), TypeText(e.eventType))
  }

  lemma TextsDiffer(e: N.Event)
    ensures ClassedBuy(e) <==> (e.direction == N.Long) == (e.eventType == N.Open || e.eventType == N.Increase)
  {
    assert "SHORT"[0] != "LONG"[0];
    assert "POSITION_REDUCE"[9] == 'R' && "POSITION_CLOSE"[9] == 'C' && "POSITION_OPEN"[9] == 'O'
        && "POSITION_INCREASE"[9] == 'I';
  }

  /** Whatever the aggregation reads of a leg, it is one of the eight semantics. */
  lemma LegsHaveSemantics(e: N.Event, x: Event)
    requires x.direction == DirectionText(e.direction) && x.eventType == TypeText(e.eventType)
    ensures SemanticFor(x).Some?
  {
    T.SemanticMeaning(x);
    assert DirectionText(e.direction) in T.DIRECTIONS by {
      assert T.DIRECTIONS[0] == "LONG" && T.DIRECTIONS[1] == "SHORT";
    }
    assert T.ACTIONS[0] == "OPEN" && T.ACTIONS[1] == "INCREASE" && T.ACTIONS[2] == "REDUCE" && T.ACTIONS[3] == "CLOSE";
    var a := if e.eventType == N.Open then T.ACTIONS[0] else if e.eventType == N.Increase then T.ACTIONS[1]
             else if e.eventType == N.Reduce then T.ACTIONS[2] else T.ACTIONS[3];
    assert a in T.ACTIONS && TypeText(e.eventType) == PREFIX + a;
  }

  /** A leg is classed as buying exactly when the position rises, whatever was rounded. */
  lemma LegRises(f: N.Fill, before: int, after: int, e: N.Event)
    requires N.EventsForTransition(f, before, after).Some? && e in N.EventsForTransition(f, before, after).value
    ensures ClassedBuy(e) <==> e.beforePosition < e.afterPosition
    ensures ClassedBuy(e) <==> before < after
    ensures e.sourceEventId == f.sourceEventId
  {
    hide DC.Round20;
    TextsDiffer(e);
  }

  /** An event of a chain is a leg of one of its edges. */
  lemma {:induction false} EventOfEdge(boundary: int, w: seq<CS.Edge<N.Fill>>, n: nat, e: N.Event) returns (k: nat)
    requires CS.Chained(boundary, w) && n <= |w| && N.LegsAlong(boundary, w, n).Some?
      && e in N.LegsAlong(boundary, w, n).value
    ensures k < n && (ClassedBuy(e) <==> w[k].before < w[k].after) && e.sourceEventId == w[k].fill.sourceEventId
  {
    hide N.EventsForTransition, ClassedBuy;
    if e in N.LegsAlong(boundary, w, n - 1).value {
      k := EventOfEdge(boundary, w, n - 1, e);
    } else {
      k := n - 1;
      LegRises(w[k].fill, w[k].before, w[k].after, e);
    }
  }

  /** The fill whose edge an event of an accepted group is a leg of. */
  lemma EventOfFill(boundary: int, fills: seq<N.Fill>, w: seq<CS.Edge<N.Fill>>, e: N.Event) returns (g: N.Fill)
    requires CS.IsOrder(NT.KeptEdges(fills), boundary, w) && NT.Covers(NT.KeptEdges(fills), fills, |fills|)
    requires N.LegsAlong(boundary, w, |w|).Some? && e in N.LegsAlong(boundary, w, |w|).value
    ensures g in fills && e.sourceEventId == g.sourceEventId && N.EdgeOf(g) in NT.KeptEdges(fills)
    ensures ClassedBuy(e) <==> N.EdgeOf(g).before < N.EdgeOf(g).after
  {
    hide NT.KeptEdges, ClassedBuy, N.EdgeOf, N.LegsAlong;
    var es := NT.KeptEdges(fills);
    var k := EventOfEdge(boundary, w, |w|, e);
    assert w[k] in es;
    var j :| 0 <= j < |es| && es[j] == w[k];
    assert NT.FromFill(es[j], fills, |fills|);
    var i :| 0 <= i < |fills| && w[k] == N.EdgeOf(fills[i]);
    g := fills[i];
    NT.EdgeFill(g);
  }

  /** The exact new position lies on the fill's side of the middle between the two values of 20 digits
      around the start position. */
  predicate PassesMiddle(f: N.Fill) {
    var start, sum := f.startPosition, f.startPosition + N.SignedDelta(f);
    var s, x := DC.Abs(start), if start >= 0 then sum else -sum;
    2 * (x - DC.Floor20(s)) >= DC.Spacing(s) <==> (f.side == N.Buy) == (start >= 0)
  }

  lemma EdgeDirection(f: N.Fill)
    requires NT.Moves(N.EdgeOf(f))
    ensures (N.EdgeOf(f).before < N.EdgeOf(f).after <==> f.side == N.Buy) <==> PassesMiddle(f)
  {
    hide DC.Round20, DC.Floor20, DC.Spacing;
    var start, sum := f.startPosition, f.startPosition + N.SignedDelta(f);
    DC.RoundsAbove(DC.Abs(start), if start >= 0 then sum else -sum);
    DC.RoundSymmetric(sum);
  }

  /** A fill that starts at a recorded position passes the middle. */
  lemma RecordedStartPasses(f: N.Fill)
    requires DC.Fits20(f.startPosition) && f.quantity >= 0 && NT.Moves(N.EdgeOf(f))
    ensures PassesMiddle(f)
  {
    hide DC.Round20, DC.Fits20, PassesMiddle;
    DC.RoundKeepsSide(f.startPosition + N.SignedDelta(f), f.startPosition);
    EdgeDirection(f);
  }

  /** A leg of an accepted fill is classed as its fill exactly when the fill passes the middle, and it
      always does from a start position of at most 20 digits, rounded addition or not. */
  lemma LegsFollowTheirFill(boundary: int, fills: seq<N.Fill>, market: N.Market, e: N.Event, f: N.Fill)
    requires N.Normalize(Some(boundary), fills, market).Normalized?
    requires e in N.Normalize(Some(boundary), fills, market).events
    requires f in fills && f.sourceEventId == e.sourceEventId
    ensures (ClassedBuy(e) <==> f.side == N.Buy) <==> PassesMiddle(f)
    ensures DC.Fits20(f.startPosition) ==> PassesMiddle(f)
  {
    hide N.Normalize, CS.TreeSize, CS.OneOrder, NT.Consistent, NT.Exact, ClassedBuy, N.EdgeOf, NT.Telescopes,
         NT.Moves, CS.IsOrder, NT.KeptEdges, N.LegsAlong, NT.Covers, PassesMiddle, DC.Fits20;
    var es := NT.KeptEdges(fills);
    NT.AcceptedExactlyWhen(boundary, fills, market);
    NT.AcceptedConserves(boundary, fills, market);
    GroupEdges(fills);
    var w :| CS.IsOrder(es, boundary, w) && N.Normalize(Some(boundary), fills, market) == N.Ordered(boundary, w);
    var g := EventOfFill(boundary, fills, w, e);
    SameEdge(fills, g, f);
    EdgeDirection(f);
    NT.QuantityNonNegative(fills, f);
    if DC.Fits20(f.startPosition) { RecordedStartPasses(f); }
  }

  lemma GroupEdges(fills: seq<N.Fill>)
    requires NT.Consistent(fills, |fills|)
    ensures NT.Covers(NT.KeptEdges(fills), fills, |fills|)
  {
    hide NT.Consistent, NT.Covers;
    NT.CollectMeaning(fills, |fills|);
  }

  /** Accepted deliveries of one source event make the same position change. */
  lemma SameEdge(fills: seq<N.Fill>, g: N.Fill, f: N.Fill)
    requires NT.Consistent(fills, |fills|) && f in fills && g in fills && f.sourceEventId == g.sourceEventId
    ensures N.EdgeOf(g).before == N.EdgeOf(f).before && N.EdgeOf(g).after == N.EdgeOf(f).after
    ensures NT.Moves(N.EdgeOf(g)) <==> NT.Moves(N.EdgeOf(f))
  {
    hide DC.Round20;
    var i :| 0 <= i < |fills| && fills[i] == g;
    var j :| 0 <= j < |fills| && fills[j] == f;
    assert i < j ==> NT.Agree(fills[i], fills[j]);
    assert j < i ==> NT.Agree(fills[j], fills[i]);
  }

  /** A start position of more than 20 digits: one unit bought from 10^20 + 3 is recorded at 10^20, below
      its start, and its leg is classed as selling. */
  lemma RoundingTurnsABuy() returns (f: N.Fill)
    ensures f.side == N.Buy && f.startPosition == DC.LIMIT + 3 && f.quantity == 1
    ensures var r := N.Normalize(Some(f.startPosition), [f], N.Market("USDC", true));
      r.Normalized? && r.afterPosition == DC.LIMIT && |r.events| == 1 && !ClassedBuy(r.events[0])
  {
    hide CS.TreeSize, CS.OneOrder, NT.Consistent, ClassedBuy, NT.Exact, N.Normalize;
    f := N.Fill(1, None, 0, N.Buy, 1, 1, DC.LIMIT + 3, 0);
    assert DC.Excess(DC.LIMIT + 4) == 1 by { assert DC.Excess((DC.LIMIT + 4) / 10) == 0; }
    assert DC.Pow10(1) == 10 by { assert DC.Pow10(0) == 1; }
    assert DC.Round20(DC.LIMIT + 4) == DC.LIMIT;
    assert N.QuoteSupported(N.Market("USDC", true)) by { NT.UpperUsdc(); }
    NT.SingleFill(f.startPosition, f, N.Market("USDC", true));
    var e := N.EdgeOf(f);
    assert N.LegsAlong(f.startPosition, [e], 0) == Some([]);
    var legs := N.EventsForTransition(f, e.before, e.after).value;
    assert [] + legs == legs;
    LegRises(f, e.before, e.after, legs[0]);
  }
}
