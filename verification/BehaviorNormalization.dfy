/** packages/analytics/src/behavior-normalization.ts: one timestamp group of fills becomes a causal
    chain of open, increase, reduce and close legs, or is rejected. */
module BehaviorNormalization {

  // Quantities, prices and positions are integers in units of 10^-18, notionals in units of 10^-36;
  // identifiers are natural numbers ordered as their text is.

  import opened Sequences
  import opened Decimals
  import opened CausalSearch

  type Id = nat

  const MAX_BRANCH_SEARCH_STEPS: nat := 100_000

  datatype Side = Buy | Sell
  datatype Direction = Long | Short
  datatype EventType = Open | Increase | Reduce | Close

  datatype Reason =
    | MissingBoundary
    | OrderingAmbiguous
    | InvalidDecimal
    | SourceInconsistent
    | ImpossibleTransition
    | HistoryGap
    | UnsupportedQuote
    | IncompleteTimestampGroup

  datatype Fill = Fill(
    sourceEventId: Id, sourceTradeId: Option<Id>, coin: Id, side: Side,
    quantity: int, price: int, startPosition: int, occurredAt: int)

  datatype Market = Market(quoteAsset: string, usdEquivalent: bool)

  datatype Event = Event(
    sourceEventId: Id, sourceOrdinal: nat, sourceTradeId: Option<Id>, coin: Id, occurredAt: int,
    direction: Direction, eventType: EventType, beforePosition: int, afterPosition: int,
    quantityDelta: int, notionalDeltaUsd: int, sourcePrice: int, sourceQuantity: int)

  /** The fingerprint hashes the source id and the ordinal; as an injective function it is the pair. */
  function FingerprintOf(e: Event): (Id, nat) {
    (e.sourceEventId, e.sourceOrdinal)
  }

  datatype GroupResult =
    | Normalized(afterPosition: int, events: seq<Event>, orderedSourceEventIds: seq<Id>)
    | Rejected(reason: Reason)

  // ---------------------------------------------------------------- one fill

  function SignedDelta(f: Fill): int {
    if f.side == Buy then f.quantity else -f.quantity
  }

  function EdgeOf(f: Fill): Edge<Fill> {
    Edge(f, f.startPosition, Round20(f.startPosition + SignedDelta(f)))
  }

  /** What two deliveries of one source event have to agree on. */
  datatype Snapshot = Snapshot(
    before: int, coin: Id, occurredAt: int, price: int, quantityDelta: int, sourceTradeId: Option<Id>)

  function SnapshotOf(f: Fill): Snapshot {
    Snapshot(f.startPosition, f.coin, f.occurredAt, f.price, SignedDelta(f), f.sourceTradeId)
  }

  function DirectionOf(position: int): Option<Direction> {
    if position == 0 then None else if position > 0 then Some(Long) else Some(Short)
  }

  function Leg(f: Fill, before: int, after: int, ordinal: nat, eventType: EventType,
               direction: Direction, delta: int): Event
  {
    Event(f.sourceEventId, ordinal, f.sourceTradeId, f.coin, f.occurredAt, direction, eventType,
          before, after, delta, Round20(f.price * Abs(delta)), f.price, f.quantity)
  }

  /** The legs of one position change; `None` where the source throws. */
  function EventsForTransition(f: Fill, before: int, after: int): Option<seq<Event>> {
    var b, a := DirectionOf(before), DirectionOf(after);
    if b.Some? && a.Some? && b != a then
      Some([Leg(f, before, 0, 0, Close, b.value, -before), Leg(f, 0, after, 1, Open, a.value, after)])
    else
      var delta := Round20(after - before);
      if b.None? && a.Some? then Some([Leg(f, before, after, 0, Open, a.value, delta)])
      else if b.Some? && a.None? then Some([Leg(f, before, after, 0, Close, b.value, delta)])
      else if b.None? then None
      else if Abs(after) == Abs(before) then None
      else
        var eventType := if Abs(after) > Abs(before) then Increase else Reduce;
        Some([Leg(f, before, after, 0, eventType, a.value, delta)])
  }

  // ---------------------------------------------------------------- the group

  datatype Collection = Edges(edges: seq<Edge<Fill>>) | Refused(reason: Reason)

  /** The kept edge of a source event, if there is one. */
  function Kept(es: seq<Edge<Fill>>, id: Id): Option<Fill> {
    if es == [] then None
    else if es[|es| - 1].fill.sourceEventId == id then Some(es[|es| - 1].fill)
    else Kept(es[..|es| - 1], id)
  }

  function Collect(fills: seq<Fill>, n: nat): Collection
    requires n <= |fills|
  {
    if n == 0 then Edges([])
    else match Collect(fills, n - 1)
      case Refused(r) => Refused(r)
      case Edges(es) =>
        var f := fills[n - 1];
        if f.quantity < 0 then Refused(InvalidDecimal)
        else match Kept(es, f.sourceEventId)
          case None => Edges(es + [EdgeOf(f)])
          case Some(g) => if SnapshotOf(g) == SnapshotOf(f) then Edges(es) else Refused(SourceInconsistent)
  }

  /** The legs along the first `n` edges of a chain. */
  function LegsAlong(boundary: int, w: seq<Edge<Fill>>, n: nat): Option<seq<Event>>
    requires n <= |w|
  {
    if n == 0 then Some([])
    else
      var earlier := LegsAlong(boundary, w, n - 1);
      var before := if n == 1 then boundary else w[n - 2].after;
      var legs := EventsForTransition(w[n - 1].fill, before, w[n - 1].after);
      if earlier.None? || legs.None? then None else Some(earlier.value + legs.value)
  }

  function SourceIds(w: seq<Edge<Fill>>): (ids: seq<Id>)
  {
    seq(|w|, k requires 0 <= k < |w| => w[k].fill.sourceEventId)
  }

  function Upper(s: string): string {
    if s == [] then []
    else [if 'a' <= s[0] <= 'z' then (s[0] as int - 'a' as int + 'A' as int) as char else s[0]] + Upper(s[1..])
  }

  predicate QuoteSupported(market: Market) {
    market.usdEquivalent && Upper(market.quoteAsset) in ["USD", "USDC"]
  }

  predicate OneTimestamp(fills: seq<Fill>) {
    forall k :: 0 <= k < |fills| ==> fills[k].occurredAt == fills[0].occurredAt
  }

  function Ordered(boundary: int, w: seq<Edge<Fill>>): GroupResult {
    var legs := LegsAlong(boundary, w, |w|);
    if legs.None? then Rejected(ImpossibleTransition)
    else Normalized(if w == [] then boundary else w[|w| - 1].after, legs.value, SourceIds(w))
  }

  function Solve(es: seq<Edge<Fill>>, boundary: int): GroupResult
    requires Distinct(es)
  {
    var chains := Scan(Nodes(es, boundary, []), 0, |es|, [], MAX_BRANCH_SEARCH_STEPS);
    if |chains| > 1 then Rejected(OrderingAmbiguous)
    else if |chains| == 0 then Rejected(ImpossibleTransition)
    else
      SearchOrder(es, boundary, MAX_BRANCH_SEARCH_STEPS);
      Ordered(boundary, Along(es, chains[0]))
  }

  function Normalize(boundary: Option<int>, fills: seq<Fill>, market: Market): GroupResult {
    if boundary.None? then Rejected(MissingBoundary)
    else if !QuoteSupported(market) then Rejected(UnsupportedQuote)
    else if fills == [] then Normalized(boundary.value, [], [])
    else if !OneTimestamp(fills) then Rejected(IncompleteTimestampGroup)
    else match Collect(fills, |fills|)
      case Refused(r) => Rejected(r)
      case Edges(es) => CollectDistinct(fills, |fills|); Solve(es, boundary.value)
  }

  // ---------------------------------------------------------------- collecting the edges

  predicate DistinctIds(es: seq<Edge<Fill>>) {
    forall i, j :: 0 <= i < j < |es| ==> es[i].fill.sourceEventId != es[j].fill.sourceEventId
  }

  lemma {:induction false} KeptMeaning(es: seq<Edge<Fill>>, id: Id)
    ensures match Kept(es, id)
      case None => forall e :: e in es ==> e.fill.sourceEventId != id
      case Some(f) => f.sourceEventId == id && exists k :: 0 <= k < |es| && es[k].fill == f
  {
    if es != [] {
      KeptMeaning(es[..|es| - 1], id);
      assert es == es[..|es| - 1] + [es[|es| - 1]];
    }
  }

  lemma KeptAppend(es: seq<Edge<Fill>>, e: Edge<Fill>, id: Id)
    ensures Kept(es + [e], id) == if e.fill.sourceEventId == id then Some(e.fill) else Kept(es, id)
  {
    assert (es + [e])[..|es|] == es;
  }

  lemma AppendDistinct(es: seq<Edge<Fill>>, e: Edge<Fill>)
    requires DistinctIds(es) && Kept(es, e.fill.sourceEventId).None?
    ensures DistinctIds(es + [e])
  {
    KeptMeaning(es, e.fill.sourceEventId);
    assert forall k :: 0 <= k < |es| ==> es[k] in es;
  }

  lemma {:induction false} CollectDistinct(fills: seq<Fill>, n: nat)
    requires n <= |fills|
    ensures var c := Collect(fills, n); c.Edges? ==> DistinctIds(c.edges) && Distinct(c.edges)
  {
    if n > 0 {
      CollectDistinct(fills, n - 1);
      var c := Collect(fills, n - 1);
      if c.Edges? && Kept(c.edges, fills[n - 1].sourceEventId).None? {
        AppendDistinct(c.edges, EdgeOf(fills[n - 1]));
      }
    }
  }

  // ---------------------------------------------------------------- the loops of the source

  /** The snapshot map knows a source event exactly when an edge of it was kept. */
  predicate Known(snapshots: map<Id, Snapshot>, id: Id, kept: Option<Fill>) {
    (id in snapshots <==> kept.Some?) && (kept.Some? && id in snapshots ==> snapshots[id] == SnapshotOf(kept.value))
  }

  lemma KnownStep(snapshots: map<Id, Snapshot>, edges: seq<Edge<Fill>>, f: Fill)
    requires forall id :: Known(snapshots, id, Kept(edges, id))
    ensures forall id :: Known(snapshots[f.sourceEventId := SnapshotOf(f)], id, Kept(edges + [EdgeOf(f)], id))
  {
    forall id ensures Known(snapshots[f.sourceEventId := SnapshotOf(f)], id, Kept(edges + [EdgeOf(f)], id)) {
      KeptAppend(edges, EdgeOf(f), id);
      assert Known(snapshots, id, Kept(edges, id));
    }
  }

  lemma NothingKept()
    ensures forall id :: Kept([], id) == None
  {
  }

  method CollectEdges(fills: seq<Fill>) returns (c: Collection)
    ensures c == Collect(fills, |fills|)
  {
    hide EdgeOf, SnapshotOf, Kept;
    var snapshots: map<Id, Snapshot> := map[];
    var edges: seq<Edge<Fill>> := [];
    NothingKept();
    for n := 0 to |fills|
      invariant Collect(fills, n) == Edges(edges)
      invariant forall id :: Known(snapshots, id, Kept(edges, id))
    {
      var f := fills[n];
      if f.quantity < 0 {
        CollectStays(fills, n + 1, |fills|);
        return Refused(InvalidDecimal);
      }
      var snapshot := SnapshotOf(f);
      assert Known(snapshots, f.sourceEventId, Kept(edges, f.sourceEventId));
      if f.sourceEventId in snapshots {
        if snapshots[f.sourceEventId] != snapshot {
          CollectStays(fills, n + 1, |fills|);
          return Refused(SourceInconsistent);
        }
      } else {
        KnownStep(snapshots, edges, f);
        snapshots := snapshots[f.sourceEventId := snapshot];
        edges := edges + [EdgeOf(f)];
      }
    }
    c := Edges(edges);
  }

  lemma {:induction false} CollectStays(fills: seq<Fill>, n: nat, m: nat)
    requires n <= m <= |fills| && Collect(fills, n).Refused?
    ensures Collect(fills, m) == Collect(fills, n)
    decreases m
  {
    if n < m { CollectStays(fills, n, m - 1); }
  }

  method OrderedEvents(boundary: int, edges: seq<Edge<Fill>>, chain: seq<nat>) returns (r: GroupResult)
    requires ValidPath(edges, chain)
    ensures r == Ordered(boundary, Along(edges, chain))
  {
    ghost var w := Along(edges, chain);
    var events: seq<Event> := [];
    var current := boundary;
    for n := 0 to |chain|
      invariant LegsAlong(boundary, w, n) == Some(events)
      invariant current == if n == 0 then boundary else w[n - 1].after
    {
      var edge := edges[chain[n]];
      var legs := EventsForTransition(edge.fill, current, edge.after);
      if legs.None? {
        LegsStay(boundary, w, n + 1, |w|);
        return Rejected(ImpossibleTransition);
      }
      events := events + legs.value;
      current := edge.after;
    }
    r := Normalized(current, events, SourceIds(Along(edges, chain)));
  }

  lemma {:induction false} LegsStay(boundary: int, w: seq<Edge<Fill>>, n: nat, m: nat)
    requires n <= m <= |w| && LegsAlong(boundary, w, n).None?
    ensures LegsAlong(boundary, w, m).None?
    decreases m
  {
    if n < m { LegsStay(boundary, w, n, m - 1); }
  }

  method NormalizeTimestampGroup(boundary: Option<int>, fills: seq<Fill>, market: Market)
    returns (r: GroupResult)
    ensures r == Normalize(boundary, fills, market)
  {
    if boundary.None? { return Rejected(MissingBoundary); }
    if !QuoteSupported(market) { return Rejected(UnsupportedQuote); }
    if fills == [] { return Normalized(boundary.value, [], []); }
    if exists k :: 0 <= k < |fills| && fills[k].occurredAt != fills[0].occurredAt {
      return Rejected(IncompleteTimestampGroup);
    }
    var collection := CollectEdges(fills);
    if collection.Refused? { return Rejected(collection.reason); }
    CollectDistinct(fills, |fills|);
    var edges := collection.edges;
    var chains := FindChains(edges, boundary.value, MAX_BRANCH_SEARCH_STEPS);
    if |chains| > 1 { return Rejected(OrderingAmbiguous); }
    if |chains| == 0 { return Rejected(ImpossibleTransition); }
    SearchOrder(edges, boundary.value, MAX_BRANCH_SEARCH_STEPS);
    r := OrderedEvents(boundary.value, edges, chains[0]);
  }
}
