/** packages/analytics/src/position-cycles.ts: `buildPositionCycles` from end to end, and what it
    guarantees of every coin and of all funding. */
module PositionCycles {

  import opened Sequences
  import opened CycleSpec
  import opened CycleTheorems
  import opened CycleBuilder
  import opened CycleReconstruction

  // ---------------------------------------------------------------- all coins at once

  /** The run of a coin within the fills of all coins. */
  function RunOf(fills: seq<Fill>, n: nat, c: Coin): (r: CoinRun)
    requires n <= |fills| && forall k :: 0 <= k < n ==> Positive(fills[k])
    ensures Sound(r)
  {
    if n == 0 then FRESH
    else if fills[n - 1].coin == c then Step(RunOf(fills, n - 1, c), fills[n - 1])
    else RunOf(fills, n - 1, c)
  }

  /** Coins do not affect each other. */
  lemma {:induction false} RunOfOwnFills(fills: seq<Fill>, n: nat, c: Coin)
    requires n <= |fills| && forall k :: 0 <= k < n ==> Positive(fills[k])
    ensures var own := CoinFills(fills, n, c);
      (forall k :: 0 <= k < |own| ==> Positive(own[k])) && RunOf(fills, n, c) == RunCoin(own, |own|)
  {
    hide Step;
    if n > 0 {
      RunOfOwnFills(fills, n - 1, c);
      CoinFillsStep(fills, n, c);
      var before := CoinFills(fills, n - 1, c);
      if fills[n - 1].coin == c {
        RunExtends(before, fills[n - 1], |before|);
      } else {
        assert before + [] == before;
      }
    }
  }

  lemma {:induction false} RunExtends(fills: seq<Fill>, f: Fill, n: nat)
    requires n <= |fills| && (forall k :: 0 <= k < |fills| ==> Positive(fills[k])) && Positive(f)
    ensures RunCoin(fills + [f], n) == RunCoin(fills, n)
    ensures n == |fills| ==> RunCoin(fills + [f], n + 1) == Step(RunCoin(fills, n), f)
  {
    hide Step;
    if n > 0 { RunExtends(fills, f, n - 1); }
  }

  function Runs(fills: seq<Fill>, n: nat): Coin -> CoinRun
    requires n <= |fills| && forall k :: 0 <= k < n ==> Positive(fills[k])
  {
    (c: Coin) => RunOf(fills, n, c)
  }

  /** The interleaved loop over all fills builds, for every coin, the run of its own fills. */
  method Reconstruct(trusted: seq<Fill>) returns (cycles: seq<InternalCycle>)
    requires forall k :: 0 <= k < |trusted| ==> Positive(trusted[k])
    ensures fresh(cycles) && Distinct(cycles)
    ensures forall c :: ForCoin(Values(cycles), c) == Cycles(RunOf(trusted, |trusted|, c))
  {
    hide Step, ForCoin, Linked, Holds, RunOf;
    cycles := [];
    var states: map<Coin, CoinState> := map[];
    var discontinued: set<Coin> := {};
    NothingYet(states, cycles, discontinued, trusted);
    for n := 0 to |trusted|
      invariant forall x :: x in cycles ==> fresh(x)
      invariant fresh(states.Values)
      invariant forall s :: s in states.Values && s.cycle != null ==> fresh(s.cycle)
      invariant Represents(states, cycles, discontinued, Runs(trusted, n))
    {
      states, cycles, discontinued := ProcessFill(states, cycles, discontinued, trusted[n], Runs(trusted, n));
      NextRuns(states, cycles, discontinued, trusted, n);
    }
    RunsRepresented(states, cycles, discontinued, Runs(trusted, |trusted|));
    assert forall k :: 0 <= k < |cycles| ==> cycles[k] in cycles;
  }

  lemma RunsRepresented(states: map<Coin, CoinState>, cycles: seq<InternalCycle>, discontinued: set<Coin>,
                        runs: Coin -> CoinRun)
    requires Represents(states, cycles, discontinued, runs)
    ensures Distinct(cycles) && forall c :: ForCoin(Values(cycles), c) == Cycles(runs(c))
  {
    forall c ensures ForCoin(Values(cycles), c) == Cycles(runs(c)) {
      assert Holds(states, cycles, discontinued, c, runs(c));
    }
  }

  lemma NextRuns(states: map<Coin, CoinState>, cycles: seq<InternalCycle>, discontinued: set<Coin>, fills: seq<Fill>,
                 n: nat)
    requires n < |fills| && (forall k :: 0 <= k <= n ==> Positive(fills[k])) && Linked(states, cycles, discontinued)
    requires var runs := Runs(fills, n);
      forall c :: Holds(states, cycles, discontinued, c,
                        if c == fills[n].coin then Step(runs(c), fills[n]) else runs(c))
    ensures Represents(states, cycles, discontinued, Runs(fills, n + 1))
  {
    hide Holds, Linked, Step;
    var runs, next := Runs(fills, n), Runs(fills, n + 1);
    forall c ensures Holds(states, cycles, discontinued, c, next(c)) {
      assert next(c) == if c == fills[n].coin then Step(runs(c), fills[n]) else runs(c);
    }
  }

  lemma NothingYet(states: map<Coin, CoinState>, cycles: seq<InternalCycle>, discontinued: set<Coin>, fills: seq<Fill>)
    requires states == map[] && cycles == [] && discontinued == {}
    requires forall k :: 0 <= k < |fills| ==> Positive(fills[k])
    ensures Represents(states, cycles, discontinued, Runs(fills, 0))
  {
    assert Values(cycles) == [];
  }

  // ---------------------------------------------------------------- funding

  function Sorted(funding: seq<Funding>): seq<Funding> {
    SortByBoth(FundingTime, FundingId, funding)
  }

  function GoesTo(vs: seq<Cycle>, k: nat): Funding -> bool {
    (item: Funding) => Allocate(vs, item) == To(k)
  }

  /** The items among the first `n` that a cycle receives. */
  function Received(vs: seq<Cycle>, k: nat, items: seq<Funding>, n: nat): seq<Funding>
    requires n <= |items|
  {
    Filter(GoesTo(vs, k), items[..n])
  }

  /** The items among the first `n` that no cycle receives, and why. */
  function Unplaced(vs: seq<Cycle>, items: seq<Funding>, n: nat): seq<Unallocated>
    requires n <= |items|
  {
    if n == 0 then []
    else
      var verdict := Allocate(vs, items[n - 1]);
      Unplaced(vs, items, n - 1) + if verdict.To? then [] else [Unallocated(items[n - 1], verdict)]
  }

  predicate SameButFunding(c: Cycle, d: Cycle) {
    c == d.(funding := c.funding)
  }

  lemma {:induction false} CandidatesIgnoreFunding(vs: seq<Cycle>, ws: seq<Cycle>, n: nat, item: Funding)
    requires |vs| == |ws| && n <= |vs| && forall k :: 0 <= k < |vs| ==> SameButFunding(vs[k], ws[k])
    ensures Candidates(vs, n, item) == Candidates(ws, n, item)
  {
    if n > 0 {
      CandidatesIgnoreFunding(vs, ws, n - 1, item);
      assert SameButFunding(vs[n - 1], ws[n - 1]);
    }
  }

  lemma AllocateIgnoresFunding(vs: seq<Cycle>, ws: seq<Cycle>, item: Funding)
    requires |vs| == |ws| && forall k :: 0 <= k < |vs| ==> SameButFunding(vs[k], ws[k])
    ensures Allocate(vs, item) == Allocate(ws, item)
  {
    CandidatesIgnoreFunding(vs, ws, |vs|, item);
    forall k | 0 <= k < |vs| ensures AtBoundary(vs[k], item) == AtBoundary(ws[k], item) {
      assert SameButFunding(vs[k], ws[k]);
    }
  }

  method ActiveCycles(cycles: seq<InternalCycle>, item: Funding) returns (active: seq<nat>)
    ensures active == Candidates(Values(cycles), |cycles|, item)
  {
    hide Covers;
    active := [];
    ghost var vs := Values(cycles);
    for k := 0 to |cycles|
      invariant active == Candidates(vs, k, item)
    {
      assert vs[k] == cycles[k].Value();
      if Covers(cycles[k].Value(), item) { active := active + [k]; }
    }
  }

  /** The cycle an item belongs to, looked up among the objects. */
  method Classify(cycles: seq<InternalCycle>, item: Funding) returns (verdict: Allocation)
    ensures verdict == Allocate(Values(cycles), item)
  {
    hide Candidates, AtBoundary;
    ghost var vs := Values(cycles);
    for k := 0 to |cycles|
      invariant forall j :: 0 <= j < k ==> !AtBoundary(vs[j], item)
    {
      assert vs[k] == cycles[k].Value();
      if AtBoundary(cycles[k].Value(), item) { return BoundaryAmbiguous; }
    }
    var active := ActiveCycles(cycles, item);
    verdict := if |active| == 1 then To(active[0]) else if active == [] then NoTrustedCycle else MultipleCandidates;
  }

  method CheckFundingIds(funding: seq<Funding>) returns (repeated: bool)
    ensures repeated <==> !DistinctKeys(FundingId, funding)
  {
    var ids: set<nat> := {};
    for n := 0 to |funding|
      invariant forall i, j :: 0 <= i < j < n ==> FundingId(funding[i]) != FundingId(funding[j])
      invariant forall x :: x in ids <==> exists j :: 0 <= j < n && funding[j].externalId == x
    {
      if funding[n].externalId in ids {
        var j :| 0 <= j < n && funding[j].externalId == funding[n].externalId;
        assert FundingId(funding[j]) == FundingId(funding[n]);
        return true;
      }
      ids := ids + {funding[n].externalId};
    }
    repeated := false;
  }

  /** A cycle with the funding it has received from the first `n` items. */
  function Funded(vs: seq<Cycle>, k: nat, items: seq<Funding>, n: nat): Cycle
    requires k < |vs| && n <= |items|
  {
    vs[k].(funding := vs[k].funding + Received(vs, k, items, n))
  }

  lemma FundedStep(vs: seq<Cycle>, k: nat, items: seq<Funding>, n: nat)
    requires k < |vs| && n < |items|
    ensures Funded(vs, k, items, n + 1)
      == Funded(vs, k, items, n).(funding := Funded(vs, k, items, n).funding
                                  + if Allocate(vs, items[n]) == To(k) then [items[n]] else [])
  {
    FilterPrefix(GoesTo(vs, k), items, n + 1);
  }

  lemma FundedStart(vs: seq<Cycle>, k: nat, items: seq<Funding>)
    requires k < |vs|
    ensures Funded(vs, k, items, 0) == vs[k]
  {
  }

  ghost predicate FundedSoFar(cycles: seq<InternalCycle>, vs: seq<Cycle>, items: seq<Funding>, n: nat)
    requires n <= |items| && |cycles| == |vs|
    reads cycles
  {
    forall k :: 0 <= k < |cycles| ==> cycles[k].Value() == Funded(vs, k, items, n)
  }

  /** One item of funding: pushed onto the one cycle that covers it, or reported. */
  method PlaceItem(cycles: seq<InternalCycle>, ghost vs: seq<Cycle>, items: seq<Funding>, n: nat,
                   unallocated: seq<Unallocated>)
    returns (unallocated': seq<Unallocated>)
    requires Distinct(cycles) && |cycles| == |vs| && n < |items|
    requires FundedSoFar(cycles, vs, items, n) && unallocated == Unplaced(vs, items, n)
    modifies cycles
    ensures FundedSoFar(cycles, vs, items, n + 1) && unallocated' == Unplaced(vs, items, n + 1)
  {
    hide Allocate, Funded;
    var item := items[n];
    var verdict := Classify(cycles, item);
    forall k | 0 <= k < |vs| ensures SameButFunding(Values(cycles)[k], vs[k]) { FundedOnly(vs, k, items, n); }
    AllocateIgnoresFunding(Values(cycles), vs, item);
    unallocated' := unallocated;
    if verdict.To? {
      AllocatedInRange(vs, item);
      var cycle := cycles[verdict.index];
      cycle.fundingEvents := cycle.fundingEvents + [item];
    } else {
      unallocated' := unallocated + [Unallocated(item, verdict)];
    }
    forall k | 0 <= k < |cycles| ensures cycles[k].Value() == Funded(vs, k, items, n + 1) {
      FundedStep(vs, k, items, n);
    }
  }

  lemma FundedOnly(vs: seq<Cycle>, k: nat, items: seq<Funding>, n: nat)
    requires k < |vs| && n <= |items|
    ensures SameButFunding(Funded(vs, k, items, n), vs[k])
  {
  }

  /** Every item is pushed onto the one cycle that covers it, or reported. */
  method AllocateFunding(cycles: seq<InternalCycle>, funding: seq<Funding>)
    returns (unallocated: seq<Unallocated>, error: Option<Reason>)
    requires Distinct(cycles)
    modifies cycles
    ensures error == if DistinctKeys(FundingId, funding) then None else Some(DuplicateEvent)
    ensures error.None? ==>
      var sorted := Sorted(funding);
      && FundedSoFar(cycles, old(Values(cycles)), sorted, |sorted|)
      && unallocated == Unplaced(old(Values(cycles)), sorted, |sorted|)
  {
    hide Unplaced, Funded, Sorted;
    unallocated := [];
    var repeated := CheckFundingIds(funding);
    if repeated { return [], Some(DuplicateEvent); }
    error := None;
    var sorted := Sorted(funding);
    ghost var vs := Values(cycles);
    forall k | 0 <= k < |cycles| ensures Funded(vs, k, sorted, 0) == vs[k] { FundedStart(vs, k, sorted); }
    NothingUnplaced(vs, sorted);
    for n := 0 to |sorted|
      invariant FundedSoFar(cycles, vs, sorted, n)
      invariant unallocated == Unplaced(vs, sorted, n)
    {
      unallocated := PlaceItem(cycles, vs, sorted, n, unallocated);
    }
  }

  lemma NothingUnplaced(vs: seq<Cycle>, items: seq<Funding>)
    ensures Unplaced(vs, items, 0) == []
  {
  }

  lemma AllocatedInRange(vs: seq<Cycle>, item: Funding)
    ensures Allocate(vs, item).To? ==> Allocate(vs, item).index < |vs|
  {
  }

  // ---------------------------------------------------------------- pricing

  method ComputeCyclePnl(fills: seq<CycleFill>, fundingEvents: seq<Funding>) returns (r: Option<Pnl>)
    ensures r == CyclePnl(fills, fundingEvents)
  {
    var fee, official, recomputed, funding := 0.0, 0.0, 0.0, 0.0;
    for n := 0 to |fills|
      invariant forall k :: 0 <= k < n ==> Priced(fills[k])
      invariant fee == RealSum(FeeOf, fills[..n]) && official == RealSum(ClosedPnlOf, fills[..n])
      invariant recomputed == RealSum(ProfitOf, fills[..n])
    {
      var fill := fills[n];
      PrefixGrows(FeeOf, fills, n + 1);
      PrefixGrows(ClosedPnlOf, fills, n + 1);
      PrefixGrows(ProfitOf, fills, n + 1);
      fee, official := fee + fill.fee, official + fill.closedPnl;
      if fill.role.Closes? {
        if fill.role.entryPrice.None? { return None; }
        var entry := fill.role.entryPrice.value;
        var change := if fill.side == Sell then fill.price - entry else entry - fill.price;
        recomputed := recomputed + change * fill.size;
      }
    }
    for n := 0 to |fundingEvents|
      invariant funding == RealSum(AmountOf, fundingEvents[..n])
    {
      PrefixGrows(AmountOf, fundingEvents, n + 1);
      funding := funding + fundingEvents[n].amount;
    }
    assert fills[..|fills|] == fills && fundingEvents[..|fundingEvents|] == fundingEvents;
    r := Some(Pnl(fee, recomputed, funding, official, official - fee + funding));
  }

  // ---------------------------------------------------------------- the whole build

  ghost predicate Parsed(fills: seq<Fill>) {
    DistinctKeys(IdOf, fills) && forall k :: 0 <= k < |fills| ==> Positive(fills[k])
  }

  /** The fills of a coin that count, in order: from its first start without a position. */
  function OwnFills(fills: seq<Fill>, c: Coin): seq<Fill> {
    var sorted := SortByBoth(TimeOf, IdOf, fills);
    Suffix(CoinFills(sorted, |sorted|, c))
  }

  lemma SuffixIsTail(group: seq<Fill>)
    ensures InOrder(TimeOf, IdOf, group) ==> InOrder(TimeOf, IdOf, Suffix(group))
  {
    if group != [] && group[0].startPosition != 0.0 { SuffixIsTail(group[1..]); }
  }

  lemma OwnFillsAreSound(fills: seq<Fill>, c: Coin)
    requires Parsed(fills)
    ensures var own := OwnFills(fills, c);
      && (forall k :: 0 <= k < |own| ==> Positive(own[k]) && own[k].coin == c && own[k] in fills)
      && InTime(own) && (own != [] ==> own[0].startPosition == 0.0)
  {
    hide Suffix, Filter, SortByBoth;
    var sorted := SortByBoth(TimeOf, IdOf, fills);
    var group, own := CoinFills(sorted, |sorted|, c), OwnFills(fills, c);
    SortByBothElements(TimeOf, IdOf, fills);
    SortedByBoth(TimeOf, IdOf, fills);
    assert sorted[..|sorted|] == sorted;
    FilterMembers(FillOf(c), sorted);
    FilterInOrder(TimeOf, IdOf, FillOf(c), sorted);
    SuffixIsTail(group);
    SuffixKeeps(group);
    SuffixStarts(group);
    forall k | 0 <= k < |own| ensures Positive(own[k]) && own[k].coin == c && own[k] in fills {
      assert own[k] in group && own[k] in sorted && own[k] in fills;
    }
    forall i, j | 0 <= i < j < |own| ensures own[i].time <= own[j].time {
      assert Before(TimeOf, IdOf, own[i], own[j]);
    }
  }

  lemma SuffixStarts(group: seq<Fill>)
    ensures Suffix(group) != [] ==> Suffix(group)[0].startPosition == 0.0
  {
  }

  /** The cycles of a coin, from its own fills alone. */
  function CoinCycles(fills: seq<Fill>, c: Coin): seq<Cycle>
    requires Parsed(fills)
  {
    OwnFillsAreSound(fills, c);
    Cycles(RunCoin(OwnFills(fills, c), |OwnFills(fills, c)|))
  }

  /** A list that holds the cycles of every coin, in the order of that coin. */
  ghost predicate AllCycles(fills: seq<Fill>, vs: seq<Cycle>)
    requires Parsed(fills)
  {
    forall c :: ForCoin(vs, c) == CoinCycles(fills, c)
  }

  predicate Unfunded(r: CoinRun) {
    (forall k :: 0 <= k < |r.closed| ==> r.closed[k].funding == []) && (r.active.Some? ==> r.active.value.funding == [])
  }

  lemma StepUnfunded(r: CoinRun, f: Fill)
    requires Sound(r) && Positive(f) && Unfunded(r)
    ensures Unfunded(Step(r, f))
  {
    hide Blended, CloseFee;
  }

  lemma {:induction false} NoFundingYet(fills: seq<Fill>, n: nat)
    requires n <= |fills| && forall k :: 0 <= k < n ==> Positive(fills[k])
    ensures Unfunded(RunCoin(fills, n))
  {
    if n > 0 {
      hide Step, Unfunded;
      NoFundingYet(fills, n - 1);
      StepUnfunded(RunCoin(fills, n - 1), fills[n - 1]);
    }
  }

  lemma ListedCycle(fills: seq<Fill>, vs: seq<Cycle>, k: nat)
    requires Parsed(fills) && AllCycles(fills, vs) && k < |vs|
    ensures vs[k].funding == [] && forall j :: 0 <= j < |vs[k].fills| ==> Priced(vs[k].fills[j])
  {
    hide ForCoin, RunCoin, Books;
    var c := vs[k].coin;
    OwnFillsAreSound(fills, c);
    var own := OwnFills(fills, c);
    NoFundingYet(own, |own|);
    BooksAreKept(own, |own|);
    InForCoin(vs, c);
    assert vs[k] in CoinCycles(fills, c);
    PricedBooks(RunCoin(own, |own|), vs[k]);
  }

  lemma InForCoin(vs: seq<Cycle>, c: Coin)
    ensures forall v :: v in vs && v.coin == c ==> v in ForCoin(vs, c)
  {
    FilterMembers(OfCoin(c), vs);
  }

  lemma PricedBooks(r: CoinRun, v: Cycle)
    requires Kept(r) && v in Cycles(r)
    ensures forall j :: 0 <= j < |v.fills| ==> Priced(v.fills[j])
  {
  }

  /** What a successful build is: the cycles of every coin, each with the funding it received and its
      profit, and the funding no cycle received. */
  ghost predicate IsHistory(fills: seq<Fill>, funding: seq<Funding>, vs: seq<Cycle>, r: BuildResult)
    requires Parsed(fills)
  {
    && AllCycles(fills, vs)
    && r.Built? && |r.cycles| == |vs| && r.unallocated == Unplaced(vs, Sorted(funding), |Sorted(funding)|)
    && forall k :: 0 <= k < |vs| ==>
         && r.cycles[k].cycle == Funded(vs, k, Sorted(funding), |Sorted(funding)|)
         && CyclePnl(r.cycles[k].cycle.fills, r.cycles[k].cycle.funding) == Some(r.cycles[k].pnl)
  }

  /** The build fails exactly on an empty, repeated or non-positive input, and otherwise returns the
      history; a missing entry price never occurs. */
  method BuildPositionCycles(fills: seq<Fill>, funding: seq<Funding>) returns (r: BuildResult)
    ensures r.Built? <==> fills != [] && Parsed(fills) && DistinctKeys(FundingId, funding)
    ensures r.Rejected? ==>
      r.reason == if fills == [] then InsufficientHistory
                  else if ParseError(fills, |fills|).Some? then ParseError(fills, |fills|).value else DuplicateEvent
    ensures r.Built? ==> exists vs :: IsHistory(fills, funding, vs, r)
  {
    hide ForCoin, SortByBoth, Trusted, AllCycles, Unplaced, Funded, CyclePnl, Sorted, ParseError, RunOf;
    if fills == [] { return Rejected(InsufficientHistory); }
    var sorted, error := StableFills(fills);
    ParsedExactlyWhen(fills, |fills|);
    assert fills[..|fills|] == fills;
    if error.Some? { return Rejected(error.value); }
    SortedFills(fills);
    var trusted := SelectTrustedFills(sorted);
    TrustedPositive(fills);
    assert trusted == TrustedFills(fills);
    var cycles := Reconstruct(trusted);
    ghost var vs := Values(cycles);
    EveryCoin(fills, trusted, vs);
    var unallocated, fundingError := AllocateFunding(cycles, funding);
    if fundingError.Some? { return Rejected(fundingError.value); }
    var result: seq<Finalized> := [];
    for n := 0 to |cycles|
      invariant |result| == n && FundedSoFar(cycles, vs, Sorted(funding), |Sorted(funding)|)
      invariant forall k :: 0 <= k < n ==> result[k].cycle == cycles[k].Value()
      invariant forall k :: 0 <= k < n ==>
        CyclePnl(result[k].cycle.fills, result[k].cycle.funding) == Some(result[k].pnl)
    {
      var cycle := cycles[n];
      var pnl := ComputeCyclePnl(cycle.fills, cycle.fundingEvents);
      assert cycle.Value() == Funded(vs, n, Sorted(funding), |Sorted(funding)|);
      FundedPriced(fills, vs, n, Sorted(funding));
      if pnl.None? { return Rejected(MissingInitialState); }
      result := result + [Finalized(cycle.Value(), pnl.value)];
    }
    r := Built(result, unallocated);
    assert IsHistory(fills, funding, vs, r);
  }

  lemma SortedFills(fills: seq<Fill>)
    requires DistinctKeys(IdOf, fills)
    ensures var sorted := SortByBoth(TimeOf, IdOf, fills); InOrder(TimeOf, IdOf, sorted) && DistinctKeys(IdOf, sorted)
  {
    hide SortByBoth;
    SortedByBoth(TimeOf, IdOf, fills);
    SortByBothElements(TimeOf, IdOf, fills);
    SameCountDistinct(IdOf, SortByBoth(TimeOf, IdOf, fills), fills);
  }

  function TrustedFills(fills: seq<Fill>): seq<Fill> {
    var sorted := SortByBoth(TimeOf, IdOf, fills);
    Trusted(sorted, |sorted|)
  }

  lemma TrustedPositive(fills: seq<Fill>)
    requires Parsed(fills)
    ensures forall k :: 0 <= k < |TrustedFills(fills)| ==> Positive(TrustedFills(fills)[k])
  {
    hide SortByBoth, Trusted;
    var sorted := SortByBoth(TimeOf, IdOf, fills);
    SortByBothElements(TimeOf, IdOf, fills);
    SortedFills(fills);
    TrustedInOrder(sorted, |sorted|);
    var trusted := Trusted(sorted, |sorted|);
    forall k | 0 <= k < |trusted| ensures Positive(trusted[k]) {
      assert trusted[k] in trusted;
      var j :| 0 <= j < |sorted| && sorted[j] == trusted[k];
      assert sorted[j] in fills;
    }
  }

  /** What the loop over the trusted fills builds is, coin by coin, the run of that coin's own fills. */
  lemma EveryCoin(fills: seq<Fill>, trusted: seq<Fill>, vs: seq<Cycle>)
    requires Parsed(fills) && trusted == TrustedFills(fills) && forall k :: 0 <= k < |trusted| ==> Positive(trusted[k])
    requires forall c :: ForCoin(vs, c) == Cycles(RunOf(trusted, |trusted|, c))
    ensures AllCycles(fills, vs)
  {
    hide ForCoin, SortByBoth, Trusted, RunOf, RunCoin, Suffix;
    var sorted := SortByBoth(TimeOf, IdOf, fills);
    assert trusted[..|trusted|] == trusted;
    forall c ensures ForCoin(vs, c) == CoinCycles(fills, c) {
      RunOfOwnFills(trusted, |trusted|, c);
      TrustedOfCoin(sorted, |sorted|, c);
    }
  }

  lemma FundedPriced(fills: seq<Fill>, vs: seq<Cycle>, k: nat, items: seq<Funding>)
    requires Parsed(fills) && AllCycles(fills, vs) && k < |vs|
    ensures var c := Funded(vs, k, items, |items|); CyclePnl(c.fills, c.funding).Some?
  {
    hide AllCycles;
    ListedCycle(fills, vs, k);
  }
}
