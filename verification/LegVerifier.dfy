/** The independent re-check of persisted legs against their fills in
    apps/api/src/behavior-aggregation-service.ts, and its agreement with the normaliser that wrote
    them: which fills and which notionals pass, exactly. The verifier computes with 80 digits, so its
    arithmetic is exact here; the normaliser rounds to 20 and the notional column keeps 18 decimals. */
module LegVerifier {

  import opened Sequences
  import opened Decimals
  import opened CausalSearch
  import opened BehaviorNormalization
  import opened NormalizationTheorems

  datatype Issue =
    | SourceLegsIncomplete(fill: Id)
    | SourceIdentity(sourceEventId: Id, sourceOrdinal: nat)

  /** An event as its row keeps it: the notional column holds 18 decimals. */
  function Stored(e: Event): Event {
    e.(notionalDeltaUsd := Persisted(e.notionalDeltaUsd, COLUMN))
  }

  // ---------------------------------------------------------------- the checks

  function LegsOf(events: seq<Event>, id: Id): seq<Event> {
    if events == [] then []
    else
      var n := |events| - 1;
      LegsOf(events[..n], id) + if events[n].sourceEventId == id then [events[n]] else []
  }

  function OrdinalOf(e: Event): int {
    e.sourceOrdinal
  }

  function ByOrdinal(s: seq<Event>): seq<Event> {
    SortBy(OrdinalOf, s)
  }

  /** The fill takes the position from one side of zero to the other. */
  predicate Flips(f: Fill) {
    var after := f.startPosition + SignedDelta(f);
    f.startPosition != 0 && after != 0 && (f.startPosition < 0) != (after < 0)
  }

  function Size(e: Event): int {
    Abs(e.quantityDelta)
  }

  predicate LegsComplete(f: Fill, legs: seq<Event>) {
    && f.quantity > 0
    && |legs| == (if Flips(f) then 2 else 1)
    && (forall k :: 0 <= k < |legs| ==> legs[k].sourceOrdinal == k)
    && Sum(Size, legs) == f.quantity
    && legs[0].beforePosition == f.startPosition
    && legs[|legs| - 1].afterPosition == f.startPosition + SignedDelta(f)
  }

  predicate IdentityHolds(f: Fill, e: Event) {
    && f.occurredAt == e.occurredAt && f.price == e.sourcePrice && f.quantity == e.sourceQuantity
    && Abs(e.quantityDelta) * e.sourcePrice == e.notionalDeltaUsd
  }

  function FillWithId(fills: seq<Fill>, id: Id): Option<Fill> {
    if fills == [] then None
    else if fills[|fills| - 1].sourceEventId == id then Some(fills[|fills| - 1])
    else FillWithId(fills[..|fills| - 1], id)
  }

  function LegIssues(fills: seq<Fill>, events: seq<Event>, n: nat): seq<Issue>
    requires n <= |fills|
  {
    if n == 0 then []
    else
      var f := fills[n - 1];
      LegIssues(fills, events, n - 1)
      + if LegsComplete(f, ByOrdinal(LegsOf(events, f.sourceEventId))) then []
        else [SourceLegsIncomplete(f.sourceEventId)]
  }

  function IdentityIssues(fills: seq<Fill>, events: seq<Event>, n: nat): seq<Issue>
    requires n <= |events|
  {
    if n == 0 then []
    else
      var e := events[n - 1];
      var f := FillWithId(fills, e.sourceEventId);
      IdentityIssues(fills, events, n - 1)
      + if f.Some? && IdentityHolds(f.value, e) then [] else [SourceIdentity(e.sourceEventId, e.sourceOrdinal)]
  }

  method Check(fills: seq<Fill>, events: seq<Event>) returns (found: seq<Issue>)
    ensures found == LegIssues(fills, events, |fills|) + IdentityIssues(fills, events, |events|)
  {
    hide LegsComplete, IdentityHolds, ByOrdinal, LegsOf, FillWithId;
    var fillsById := IndexFills(fills);
    var legsByFill := GroupLegs(events);
    found := [];
    for n := 0 to |fills|
      invariant found == LegIssues(fills, events, n)
    {
      var fill := fills[n];
      var legs := ByOrdinal(if fill.sourceEventId in legsByFill then legsByFill[fill.sourceEventId] else []);
      if !LegsComplete(fill, legs) {
        found := found + [SourceLegsIncomplete(fill.sourceEventId)];
      }
    }
    ghost var first := found;
    for n := 0 to |events|
      invariant found == first + IdentityIssues(fills, events, n)
    {
      var event := events[n];
      if event.sourceEventId !in fillsById || !IdentityHolds(fillsById[event.sourceEventId], event) {
        found := found + [SourceIdentity(event.sourceEventId, event.sourceOrdinal)];
      }
    }
  }

  method GroupLegs(events: seq<Event>) returns (legsByFill: map<Id, seq<Event>>)
    ensures forall id :: (if id in legsByFill then legsByFill[id] else []) == LegsOf(events, id)
  {
    legsByFill := map[];
    for n := 0 to |events|
      invariant forall id :: (if id in legsByFill then legsByFill[id] else []) == LegsOf(events[..n], id)
    {
      var e := events[n];
      assert events[..n + 1][..n] == events[..n];
      var legs := if e.sourceEventId in legsByFill then legsByFill[e.sourceEventId] else [];
      legsByFill := legsByFill[e.sourceEventId := legs + [e]];
    }
    assert events[..|events|] == events;
  }

  method IndexFills(fills: seq<Fill>) returns (byId: map<Id, Fill>)
    ensures forall id :: (if id in byId then Some(byId[id]) else None) == FillWithId(fills, id)
  {
    byId := map[];
    for n := 0 to |fills|
      invariant forall id :: (if id in byId then Some(byId[id]) else None) == FillWithId(fills[..n], id)
    {
      assert fills[..n + 1][..n] == fills[..n];
      byId := byId[fills[n].sourceEventId := fills[n]];
    }
    assert fills[..|fills|] == fills;
  }

  // ---------------------------------------------------------------- agreement on one fill

  /** The legs the normaliser writes for a fill that continues the chain. */
  function LegsWritten(f: Fill): Option<seq<Event>> {
    EventsForTransition(f, f.startPosition, EdgeOf(f).after)
  }

  /** The legs of a fill pass the completeness check exactly when its size is positive, the new
      position fits 20 digits and, unless the fill flips, the size does too. */
  lemma LegsPassExactlyWhen(f: Fill)
    requires LegsWritten(f).Some?
    ensures LegsComplete(f, LegsWritten(f).value) <==>
      f.quantity > 0 && Exact(f) && (Flips(f) || Fits20(f.quantity))
  {
    hide Fits20, Round20;
    var legs := LegsWritten(f).value;
    ExactEdge(f);
    SumOfLegs(legs);
    Round20Sign(SignedDelta(f));
    Round20Exact(SignedDelta(f));
    FitsSign(f.quantity);
  }

  lemma SumOfLegs(legs: seq<Event>)
    ensures |legs| == 1 ==> Sum(Size, legs) == Size(legs[0])
    ensures |legs| == 2 ==> Sum(Size, legs) == Size(legs[0]) + Size(legs[1])
  {
    if |legs| == 1 {
      assert legs[..0] == [];
    } else if |legs| == 2 {
      assert legs[..1] == [legs[0]] && [legs[0]][..0] == [];
    }
  }

  /** Rounding keeps the sign, so equal magnitudes mean an exact value. */
  lemma Round20Sign(n: int)
    ensures Abs(Round20(n)) == Abs(n) <==> Round20(n) == n
  {
  }

  lemma FitsSign(n: int)
    ensures Fits20(-n) <==> Fits20(n)
  {
  }

  /** A leg passes the identity check exactly when its notional survives multiplication and column. */
  lemma IdentityPassesExactlyWhen(f: Fill, k: nat)
    requires LegsWritten(f).Some? && k < |LegsWritten(f).value|
    ensures var e := LegsWritten(f).value[k]; var notional := f.price * Abs(e.quantityDelta);
      IdentityHolds(f, Stored(e)) <==> Fits20(notional) && Abs(notional) % Pow10(COLUMN) == 0
  {
    hide Fits20, Round20, Persisted, Pow10;
    var e := LegsWritten(f).value[k];
    NotionalSurvives(f.price * Abs(e.quantityDelta), COLUMN);
  }

  // ---------------------------------------------------------------- agreement on a group

  lemma {:induction false} LegsOfConcat(a: seq<Event>, b: seq<Event>, id: Id)
    ensures LegsOf(a + b, id) == LegsOf(a, id) + LegsOf(b, id)
  {
    if b == [] {
      assert a + b == a;
    } else {
      var n := |b| - 1;
      assert (a + b)[..|a| + n] == a + b[..n];
      LegsOfConcat(a, b[..n], id);
    }
  }

  lemma {:induction false} LegsOfOne(s: seq<Event>, own: Id, id: Id)
    requires forall k :: 0 <= k < |s| ==> s[k].sourceEventId == own
    ensures LegsOf(s, id) == if id == own then s else []
  {
    if s != [] { LegsOfOne(s[..|s| - 1], own, id); }
  }

  function LegsAt(e: Edge<Fill>): seq<Event> {
    match EventsForTransition(e.fill, e.before, e.after)
    case Some(legs) => legs
    case None => []
  }

  lemma LegSource(e: Edge<Fill>)
    ensures |LegsAt(e)| <= 2
    ensures forall k :: 0 <= k < |LegsAt(e)| ==>
      LegsAt(e)[k].sourceEventId == e.fill.sourceEventId && LegsAt(e)[k].sourceOrdinal == k
    ensures EventsForTransition(e.fill, e.before, e.after).Some? ==>
      LegsAt(e) == EventsForTransition(e.fill, e.before, e.after).value != []
  {
    hide Round20;
  }

  lemma ChainGrows(boundary: int, w: seq<Edge<Fill>>, n: nat)
    requires Chained(boundary, w) && 0 < n <= |w| && LegsAlong(boundary, w, n).Some?
    ensures LegsAlong(boundary, w, n - 1).Some?
    ensures LegsAlong(boundary, w, n).value == LegsAlong(boundary, w, n - 1).value + LegsAt(w[n - 1])
  {
    hide EventsForTransition;
  }

  /** The events of one source, among earlier ones and the legs of a fill. */
  lemma LegsOfNext(earlier: seq<Event>, legs: seq<Event>, own: Id, id: Id)
    requires forall k :: 0 <= k < |legs| ==> legs[k].sourceEventId == own
    requires id == own ==> LegsOf(earlier, id) == []
    ensures LegsOf(earlier + legs, id) == if id == own then legs else LegsOf(earlier, id)
  {
    hide LegsOf;
    LegsOfConcat(earlier, legs, id);
    LegsOfOne(legs, own, id);
    assert [] + legs == legs && LegsOf(earlier, id) + [] == LegsOf(earlier, id);
  }

  lemma NoLegsYet(boundary: int, w: seq<Edge<Fill>>, id: Id)
    ensures LegsAlong(boundary, w, 0) == Some([]) && LegsOf([], id) == []
  {
  }

  lemma OwnSource(w: seq<Edge<Fill>>, i: nat, k: nat)
    requires DistinctIds(w) && i < |w| && k < |w|
    ensures w[k].fill.sourceEventId == w[i].fill.sourceEventId <==> k == i
  {
  }

  lemma {:induction false} LegsOfChain(boundary: int, w: seq<Edge<Fill>>, n: nat, k: nat)
    requires Chained(boundary, w) && DistinctIds(w) && n <= |w| && k < |w|
    requires LegsAlong(boundary, w, n).Some?
    ensures LegsOf(LegsAlong(boundary, w, n).value, w[k].fill.sourceEventId)
         == if k < n then LegsAt(w[k]) else []
  {
    hide LegsOf, LegsAlong, LegsAt, Chained, DistinctIds;
    if n == 0 {
      NoLegsYet(boundary, w, w[k].fill.sourceEventId);
    } else {
      ChainGrows(boundary, w, n);
      LegsOfChain(boundary, w, n - 1, k);
      LegSource(w[n - 1]);
      OwnSource(w, n - 1, k);
      LegsOfNext(LegsAlong(boundary, w, n - 1).value, LegsAt(w[n - 1]), w[n - 1].fill.sourceEventId,
                 w[k].fill.sourceEventId);
    }
  }

  function StoredAll(events: seq<Event>): seq<Event> {
    seq(|events|, k requires 0 <= k < |events| => Stored(events[k]))
  }

  lemma {:induction false} LegsOfStored(events: seq<Event>, id: Id)
    ensures LegsOf(StoredAll(events), id) == StoredAll(LegsOf(events, id))
  {
    hide Persisted;
    if events != [] {
      var n := |events| - 1;
      assert StoredAll(events)[..n] == StoredAll(events[..n]);
      LegsOfStored(events[..n], id);
    }
  }

  lemma {:induction false} LegsOfCount(s: seq<Event>, id: Id, e: Event)
    ensures multiset(LegsOf(s, id))[e] == if e.sourceEventId == id then multiset(s)[e] else 0
  {
    if s != [] {
      var n := |s| - 1;
      assert s == s[..n] + [s[n]];
      LegsOfCount(s[..n], id, e);
    }
  }

  /** Sorting by ordinal undoes any arrangement of the legs of a fill. */
  lemma ArrangementSorted(rows: seq<Event>, legs: seq<Event>)
    requires multiset(rows) == multiset(legs)
    requires forall k :: 0 <= k < |legs| ==> legs[k].sourceOrdinal == k
    ensures ByOrdinal(rows) == legs
  {
    SameCountDistinct(OrdinalOf, rows, legs);
    forall x ensures x in rows <==> x in legs {
      assert x in multiset(rows) <==> x in multiset(legs);
    }
    SortIgnoresListing(OrdinalOf, rows, legs);
    SortIdempotent(OrdinalOf, legs);
  }

  lemma RowsOfFill(events: seq<Event>, rows: seq<Event>, id: Id, legs: seq<Event>)
    requires multiset(rows) == multiset(StoredAll(events)) && LegsOf(events, id) == legs
    requires forall k :: 0 <= k < |legs| ==> legs[k].sourceOrdinal == k
    ensures ByOrdinal(LegsOf(rows, id)) == StoredAll(legs)
  {
    hide Persisted;
    LegsOfStored(events, id);
    forall e ensures multiset(LegsOf(rows, id))[e] == multiset(StoredAll(legs))[e] {
      LegsOfCount(rows, id, e);
      LegsOfCount(StoredAll(events), id, e);
    }
    ArrangementSorted(LegsOf(rows, id), StoredAll(legs));
  }

  lemma StoredComplete(f: Fill, legs: seq<Event>)
    requires 1 <= |legs| <= 2
    ensures LegsComplete(f, StoredAll(legs)) <==> LegsComplete(f, legs)
  {
    hide Persisted;
    SumOfLegs(legs);
    SumOfLegs(StoredAll(legs));
  }

  predicate LegsFit(f: Fill) {
    f.quantity > 0 && Exact(f) && (Flips(f) || Fits20(f.quantity))
  }

  predicate NotionalFits(e: Event) {
    var notional := e.sourcePrice * Abs(e.quantityDelta);
    Fits20(notional) && Abs(notional) % Pow10(COLUMN) == 0
  }

  ghost predicate DistinctSources(fills: seq<Fill>) {
    forall i, j :: 0 <= i < j < |fills| ==> fills[i].sourceEventId != fills[j].sourceEventId
  }

  /** Among the events, those of the fill are exactly the legs of its own transition. */
  ghost predicate OwnLegs(events: seq<Event>, f: Fill) {
    LegsWritten(f).Some? && LegsOf(events, f.sourceEventId) == LegsAt(EdgeOf(f))
  }

  ghost predicate LegOfOne(e: Event, fills: seq<Fill>) {
    exists k :: 0 <= k < |fills| && LegsWritten(fills[k]).Some? && e in LegsAt(EdgeOf(fills[k]))
  }

  /** The events are the legs of distinct fills. */
  ghost predicate AreTheLegs(events: seq<Event>, fills: seq<Fill>) {
    && DistinctSources(fills)
    && (forall k :: 0 <= k < |fills| ==> OwnLegs(events, fills[k]))
    && forall k :: 0 <= k < |events| ==> LegOfOne(events[k], fills)
  }

  /** Legs read back in any arrangement pass the completeness check exactly where the normaliser's
      20-digit arithmetic was exact. */
  lemma LegsAgree(events: seq<Event>, fills: seq<Fill>, rows: seq<Event>)
    requires AreTheLegs(events, fills) && multiset(rows) == multiset(StoredAll(events))
    ensures LegIssues(fills, rows, |fills|) == [] <==> forall f :: f in fills ==> LegsFit(f)
    ensures forall f :: f in fills ==>
      (LegsComplete(f, ByOrdinal(LegsOf(rows, f.sourceEventId))) <==> LegsFit(f))
  {
    hide LegsComplete, LegsFit, ByOrdinal, LegsOf, OwnLegs, LegOfOne;
    forall f | f in fills ensures LegsComplete(f, ByOrdinal(LegsOf(rows, f.sourceEventId))) <==> LegsFit(f) {
      AgreementOnFill(events, rows, f);
    }
    NoLegIssues(fills, rows, |fills|);
    assert forall k :: 0 <= k < |fills| ==> fills[k] in fills;
  }

  /** The rows of an accepted group, read back in any arrangement, pass the completeness check exactly
      where the normaliser's 20-digit arithmetic was exact. */
  lemma ProducerVerifierAgreement(boundary: int, fills: seq<Fill>, market: Market, rows: seq<Event>)
    requires DistinctSources(fills) && fills != [] && Normalize(Some(boundary), fills, market).Normalized?
    requires multiset(rows) == multiset(StoredAll(Normalize(Some(boundary), fills, market).events))
    ensures LegIssues(fills, rows, |fills|) == [] <==> forall f :: f in fills ==> LegsFit(f)
    ensures forall f :: f in fills ==>
      (LegsComplete(f, ByOrdinal(LegsOf(rows, f.sourceEventId))) <==> LegsFit(f))
  {
    hide Normalize, AreTheLegs, LegsFit, LegsComplete, ByOrdinal, LegsOf;
    GroupIsItsLegs(boundary, fills, market);
    LegsAgree(Normalize(Some(boundary), fills, market).events, fills, rows);
  }

  /** The events of an accepted group are the legs of its fills. */
  lemma GroupIsItsLegs(boundary: int, fills: seq<Fill>, market: Market)
    requires DistinctSources(fills) && fills != [] && Normalize(Some(boundary), fills, market).Normalized?
    ensures AreTheLegs(Normalize(Some(boundary), fills, market).events, fills)
  {
    hide Normalize, EdgeOf, LegsAt, LegsOf, LegsWritten;
    var events := Normalize(Some(boundary), fills, market).events;
    forall k | 0 <= k < |fills| ensures OwnLegs(events, fills[k]) {
      LegsOfGroup(boundary, fills, market, fills[k]);
    }
    forall k | 0 <= k < |events| ensures LegOfOne(events[k], fills) {
      var i := EventHasFill(boundary, fills, market, events[k]);
    }
  }

  lemma {:induction false} NoLegIssues(fills: seq<Fill>, rows: seq<Event>, n: nat)
    requires n <= |fills|
    ensures LegIssues(fills, rows, n) == [] <==> forall k :: 0 <= k < n ==>
      LegsComplete(fills[k], ByOrdinal(LegsOf(rows, fills[k].sourceEventId)))
  {
    hide LegsComplete, ByOrdinal, LegsOf;
    if n > 0 { NoLegIssues(fills, rows, n - 1); }
  }

  lemma AgreementOnFill(events: seq<Event>, rows: seq<Event>, f: Fill)
    requires OwnLegs(events, f) && multiset(rows) == multiset(StoredAll(events))
    ensures LegsComplete(f, ByOrdinal(LegsOf(rows, f.sourceEventId))) <==> LegsFit(f)
  {
    hide LegsComplete, Exact, ByOrdinal, LegsOf, EventsForTransition, StoredAll;
    LegSource(EdgeOf(f));
    var legs := LegsAt(EdgeOf(f));
    RowsOfFill(events, rows, f.sourceEventId, legs);
    StoredComplete(f, legs);
    LegsPassExactlyWhen(f);
  }

  /** The causal order behind an accepted group of distinct fills. */
  lemma AcceptedOrder(boundary: int, fills: seq<Fill>, market: Market) returns (w: seq<Edge<Fill>>)
    requires DistinctSources(fills)
    requires fills != [] && Normalize(Some(boundary), fills, market).Normalized?
    ensures Chained(boundary, w) && DistinctIds(w)
    ensures Normalize(Some(boundary), fills, market) == Ordered(boundary, w)
    ensures forall f :: f in fills ==> EdgeOf(f) in w
    ensures forall e :: e in w ==> e.fill in fills && e == EdgeOf(e.fill) && Moves(e)
  {
    hide TreeSize, Solve, Consistent, OneOrder, EdgeOf, Moves, Ordered;
    var es := KeptEdges(fills);
    AcceptedExactlyWhen(boundary, fills, market);
    CollectMeaning(fills, |fills|);
    CollectDistinct(fills, |fills|);
    SolvedExactlyWhen(es, boundary);
    w :| IsOrder(es, boundary, w) && Solve(es, boundary) == Ordered(boundary, w);
    OrderUsesAll(es, boundary, w);
    assert IdenticalDeliveries(fills);
    EdgesAreTheFills(fills);
    OrderIds(es, boundary, w);
  }

  /** Among the events of a group, those of one fill are exactly the legs of its own transition. */
  lemma LegsOfGroup(boundary: int, fills: seq<Fill>, market: Market, f: Fill)
    requires DistinctSources(fills)
    requires fills != [] && Normalize(Some(boundary), fills, market).Normalized? && f in fills
    ensures LegsWritten(f).Some?
    ensures LegsOf(Normalize(Some(boundary), fills, market).events, f.sourceEventId) == LegsAt(EdgeOf(f))
  {
    hide Normalize, EventsForTransition, Round20, LegsOf;
    var w := AcceptedOrder(boundary, fills, market);
    var k :| 0 <= k < |w| && w[k] == EdgeOf(f);
    LegsOfChain(boundary, w, |w|, k);
    assert w[k] in w;
    TransitionMoves(f, f.startPosition, EdgeOf(f).after);
  }

  lemma OrderIds(es: seq<Edge<Fill>>, boundary: int, w: seq<Edge<Fill>>)
    requires DistinctIds(es) && IsOrder(es, boundary, w)
    ensures DistinctIds(w)
  {
    forall i, j | 0 <= i < j < |w| ensures w[i].fill.sourceEventId != w[j].fill.sourceEventId {
      assert w[i] in es && w[j] in es && w[i] != w[j];
      var a :| 0 <= a < |es| && es[a] == w[i];
      var b :| 0 <= b < |es| && es[b] == w[j];
      if a < b { assert es[a].fill.sourceEventId != es[b].fill.sourceEventId; }
      else { assert es[b].fill.sourceEventId != es[a].fill.sourceEventId; }
    }
  }

  /** No event fails the identity check exactly when every notional survives its two roundings. */
  lemma NotionalsAgree(events: seq<Event>, fills: seq<Fill>, rows: seq<Event>)
    requires AreTheLegs(events, fills) && multiset(rows) == multiset(StoredAll(events))
    ensures IdentityIssues(fills, rows, |rows|) == [] <==> forall e :: e in events ==> NotionalFits(e)
  {
    hide IdentityPasses, NotionalFits, Stored, StoredAll, LegOfOne, DistinctSources;
    NoIdentityIssues(fills, rows, |rows|);
    forall e | e in events ensures IdentityPasses(fills, Stored(e)) <==> NotionalFits(e) {
      EventPasses(fills, e);
    }
    RowsAreTheStored(events, rows);
    assert forall k :: 0 <= k < |rows| ==> rows[k] in rows;
  }

  /** The same for the events of an accepted group. */
  lemma IdentityAgreement(boundary: int, fills: seq<Fill>, market: Market, rows: seq<Event>)
    requires DistinctSources(fills) && fills != [] && Normalize(Some(boundary), fills, market).Normalized?
    requires multiset(rows) == multiset(StoredAll(Normalize(Some(boundary), fills, market).events))
    ensures IdentityIssues(fills, rows, |rows|) == [] <==>
      forall e :: e in Normalize(Some(boundary), fills, market).events ==> NotionalFits(e)
  {
    hide Normalize, AreTheLegs, NotionalFits;
    GroupIsItsLegs(boundary, fills, market);
    NotionalsAgree(Normalize(Some(boundary), fills, market).events, fills, rows);
  }

  lemma RowsAreTheStored(events: seq<Event>, rows: seq<Event>)
    requires multiset(rows) == multiset(StoredAll(events))
    ensures forall e :: e in events ==> Stored(e) in rows
    ensures forall r :: r in rows ==> exists e :: e in events && r == Stored(e)
  {
    hide Stored;
    forall e | e in events ensures Stored(e) in rows {
      var k :| 0 <= k < |events| && events[k] == e;
      assert StoredAll(events)[k] == Stored(e);
      assert Stored(e) in multiset(rows);
    }
    forall r | r in rows ensures exists e :: e in events && r == Stored(e) {
      assert r in multiset(rows);
      var k :| 0 <= k < |events| && StoredAll(events)[k] == r;
      assert events[k] in events && r == Stored(events[k]);
    }
  }

  predicate IdentityPasses(fills: seq<Fill>, e: Event) {
    var f := FillWithId(fills, e.sourceEventId);
    f.Some? && IdentityHolds(f.value, e)
  }

  lemma {:induction false} NoIdentityIssues(fills: seq<Fill>, rows: seq<Event>, n: nat)
    requires n <= |rows|
    ensures IdentityIssues(fills, rows, n) == [] <==> forall k :: 0 <= k < n ==> IdentityPasses(fills, rows[k])
  {
    hide IdentityHolds, FillWithId;
    if n > 0 { NoIdentityIssues(fills, rows, n - 1); }
  }

  lemma EventPasses(fills: seq<Fill>, e: Event)
    requires DistinctSources(fills) && LegOfOne(e, fills)
    ensures IdentityPasses(fills, Stored(e)) <==> NotionalFits(e)
  {
    hide IdentityHolds, FillWithId, Persisted, EventsForTransition, Fits20, Round20, Pow10;
    var k :| 0 <= k < |fills| && LegsWritten(fills[k]).Some? && e in LegsAt(EdgeOf(fills[k]));
    var f := fills[k];
    LegSource(EdgeOf(f));
    LegFields(EdgeOf(f));
    FillFound(fills, |fills|, k);
    assert fills[..|fills|] == fills;
    var j :| 0 <= j < |LegsAt(EdgeOf(f))| && LegsAt(EdgeOf(f))[j] == e;
    IdentityPassesExactlyWhen(f, j);
  }

  lemma LegFields(e: Edge<Fill>)
    ensures forall k :: 0 <= k < |LegsAt(e)| ==> LegsAt(e)[k].sourcePrice == e.fill.price
  {
    hide Round20;
  }

  lemma {:induction false} FillFound(fills: seq<Fill>, n: nat, k: nat)
    requires k < n <= |fills|
    requires DistinctSources(fills)
    ensures FillWithId(fills[..n], fills[k].sourceEventId) == Some(fills[k])
  {
    assert fills[..n][..n - 1] == fills[..n - 1];
    if k < n - 1 { FillFound(fills, n - 1, k); }
  }

  /** Every event of an accepted group is a leg of one of its fills. */
  lemma EventHasFill(boundary: int, fills: seq<Fill>, market: Market, e: Event) returns (k: nat)
    requires fills != [] && Normalize(Some(boundary), fills, market).Normalized?
    requires DistinctSources(fills)
    requires e in Normalize(Some(boundary), fills, market).events
    ensures k < |fills| && LegsWritten(fills[k]).Some? && e in LegsAt(EdgeOf(fills[k]))
  {
    hide Normalize, EventsForTransition, Round20, LegsAt;
    var w := AcceptedOrder(boundary, fills, market);
    var i: nat := LegOfChain(boundary, w, |w|, e);
    assert w[i] in w;
    k :| k < |fills| && fills[k] == w[i].fill;
    TransitionMoves(fills[k], fills[k].startPosition, EdgeOf(fills[k]).after);
  }

  lemma {:induction false} LegOfChain(boundary: int, w: seq<Edge<Fill>>, n: nat, e: Event) returns (k: nat)
    requires Chained(boundary, w) && n <= |w| && LegsAlong(boundary, w, n).Some?
    requires e in LegsAlong(boundary, w, n).value
    ensures k < n && e in LegsAt(w[k])
  {
    hide EventsForTransition;
    var last := w[n - 1];
    if e in LegsAt(last) {
      k := n - 1;
    } else {
      LegSource(last);
      k := LegOfChain(boundary, w, n - 1, e);
    }
  }

  // ---------------------------------------------------------------- fills that fail the checks

  lemma OneFillFails(f: Fill, market: Market)
    requires Normalize(Some(f.startPosition), [f], market).Normalized?
    ensures var rows := StoredAll(Normalize(Some(f.startPosition), [f], market).events);
      && (!LegsFit(f) ==> LegIssues([f], rows, 1) == [SourceLegsIncomplete(f.sourceEventId)])
      && ((exists e :: e in Normalize(Some(f.startPosition), [f], market).events && !NotionalFits(e)) ==>
            IdentityIssues([f], rows, |rows|) != [])
  {
    hide Normalize, LegsFit, NotionalFits, LegsComplete, ByOrdinal, StoredAll, LegsOf;
    var rows := StoredAll(Normalize(Some(f.startPosition), [f], market).events);
    ProducerVerifierAgreement(f.startPosition, [f], market, rows);
    IdentityAgreement(f.startPosition, [f], market, rows);
    assert f in [f];
    assert LegIssues([f], rows, 0) == [];
  }

  /** The fill whose addition is rounded is accepted, and its stored legs are reported as incomplete. */
  lemma RoundedFillFailsLegs() returns (f: Fill)
    ensures f.startPosition == LIMIT && f.side == Buy && f.quantity == 15
    ensures var r := Normalize(Some(f.startPosition), [f], Market("USDC", true));
      r.Normalized? && LegIssues([f], StoredAll(r.events), 1) == [SourceLegsIncomplete(f.sourceEventId)]
  {
    hide Normalize, LegIssues, Fits20;
    f := RoundingLosesDigits();
    SingleFillConserves(LIMIT, f, Market("USDC", true));
    OneFillFails(f, Market("USDC", true));
  }

  /** One unit at a price of one unit: the product has 36 decimals, the column keeps 18, and the stored
      leg of the accepted fill fails the identity check. */
  lemma SmallNotionalFailsIdentity() returns (f: Fill)
    ensures f.startPosition == 0 && f.quantity == 1 && f.price == 1
    ensures var r := Normalize(Some(0), [f], Market("USDC", true));
      r.Normalized? && IdentityIssues([f], StoredAll(r.events), |r.events|) != []
  {
    hide Normalize, IdentityIssues, StoredAll;
    f := Fill(1, None, 0, Buy, 1, 1, 0, 0);
    var market := Market("USDC", true);
    assert QuoteSupported(market) by { UpperUsdc(); }
    SingleFill(0, f, market);
    var e := EdgeOf(f);
    LegsDefined(0, [e], 1);
    assert LegsAlong(0, [e], 0) == Some([]);
    var legs := EventsForTransition(f, 0, e.after).value;
    assert [] + legs == legs && |legs| == 1 && Abs(legs[0].quantityDelta) == 1;
    ColumnIsCoarse();
    assert !NotionalFits(legs[0]);
    assert legs[0] in Normalize(Some(0), [f], market).events;
    OneFillFails(f, market);
    StoredLength(Normalize(Some(0), [f], market).events);
  }

  lemma StoredLength(events: seq<Event>)
    ensures |StoredAll(events)| == |events|
  {
  }

  lemma ColumnIsCoarse()
    ensures 1 % Pow10(COLUMN) != 0
  {
    PowerEven(COLUMN);
  }
}
