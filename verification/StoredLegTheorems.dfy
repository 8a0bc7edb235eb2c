/** What holds of the stored events of whole runs, and of a bucket of them: they are the legs of the
    completed fills, a leg is classed as its fill, and the bucket is aggregated exactly when the arithmetic fits. */
module StoredLegTheorems {

  import opened Sequences
  import opened Decimals
  import opened CausalSearch
  import opened BehaviorNormalization
  import opened NormalizationTheorems
  import opened LegVerifier
  import opened BehaviorSpec
  import opened PagingTheorems
  import opened LateFillTheorems
  import G = Aggregation
  import GT = AggregationTheorems
  import D = DirectionTheorems

  // ---------------------------------------------------------------- runs store the legs of their fills

  lemma {:induction false} NoLegs(events: seq<Event>, id: Id)
    requires forall k :: 0 <= k < |events| ==> events[k].sourceEventId != id
    ensures LegsOf(events, id) == []
  {
    if events != [] { NoLegs(events[..|events| - 1], id); }
  }

  lemma LegOfMore(e: Event, a: seq<Fill>, b: seq<Fill>)
    requires LegOfOne(e, a) || LegOfOne(e, b)
    ensures LegOfOne(e, a + b)
  {
    hide LegsAt, LegsWritten;
    if k :| 0 <= k < |a| && LegsWritten(a[k]).Some? && e in LegsAt(EdgeOf(a[k])) {
      assert (a + b)[k] == a[k];
    } else {
      var k :| 0 <= k < |b| && LegsWritten(b[k]).Some? && e in LegsAt(EdgeOf(b[k]));
      assert (a + b)[|a| + k] == b[k];
    }
  }

  /** An event of the fills has the source event of one of them. */
  lemma LegIds(events: seq<Event>, fills: seq<Fill>, id: Id)
    requires AreTheLegs(events, fills) && forall k :: 0 <= k < |fills| ==> fills[k].sourceEventId != id
    ensures forall k :: 0 <= k < |events| ==> events[k].sourceEventId != id
  {
    hide LegsAt, LegsWritten, OwnLegs, DistinctSources;
    forall k | 0 <= k < |events| ensures events[k].sourceEventId != id {
      assert LegOfOne(events[k], fills);
      var i :| 0 <= i < |fills| && LegsWritten(fills[i]).Some? && events[k] in LegsAt(EdgeOf(fills[i]));
      LegSource(EdgeOf(fills[i]));
      EdgeFill(fills[i]);
    }
  }

  /** Events of fills followed by events of other fills are the events of all of them. */
  lemma LegsConcat(a: seq<Event>, b: seq<Event>, f: seq<Fill>, g: seq<Fill>)
    requires AreTheLegs(a, f) && AreTheLegs(b, g) && DistinctSources(f + g)
    ensures AreTheLegs(a + b, f + g)
  {
    hide LegsAt, LegsWritten, LegsOf, LegOfOne, EdgeOf;
    var fills := f + g;
    forall k | 0 <= k < |fills| ensures OwnLegs(a + b, fills[k]) {
      var id := fills[k].sourceEventId;
      LegsOfConcat(a, b, id);
      if k < |f| {
        assert OwnLegs(a, f[k]);
        forall j | 0 <= j < |g| ensures g[j].sourceEventId != id { assert fills[|f| + j] == g[j]; }
        LegIds(b, g, id);
        NoLegs(b, id);
      } else {
        assert OwnLegs(b, g[k - |f|]);
        forall j | 0 <= j < |f| ensures f[j].sourceEventId != id { assert fills[j] == f[j]; }
        LegIds(a, f, id);
        NoLegs(a, id);
      }
    }
    forall k | 0 <= k < |a + b| ensures LegOfOne((a + b)[k], fills) {
      LegOfMore((a + b)[k], f, g);
    }
  }

  lemma NothingIsNoLegs()
    ensures AreTheLegs([], [])
  {
  }

  lemma RowSources(rows: seq<Row>)
    ensures DistinctRows(rows) <==> DistinctSources(FillsIn(rows))
  {
    if DistinctSources(FillsIn(rows)) {
      forall i, j | 0 <= i < j < |rows| ensures IdOf(rows[i]) != IdOf(rows[j]) {
        assert FillsIn(rows)[i].sourceEventId != FillsIn(rows)[j].sourceEventId;
      }
    }
  }

  lemma {:induction false} PrefixRowsDistinct(gs: seq<seq<Row>>, n: nat)
    requires n <= |gs| && Separated(gs) && DistinctRows(Flatten(gs, |gs|))
    ensures DistinctRows(Flatten(gs, n))
  {
    hide Separated;
    var rest := FlattenRest(gs, n, |gs|);
    var all, front := Flatten(gs, |gs|), Flatten(gs, n);
    assert forall k :: 0 <= k < |front| ==> front[k] == all[k];
  }

  /** The stored events of a run are the legs of the fills of its completed groups. */
  lemma {:induction false} RunStoresLegs(gs: seq<seq<Row>>, market: Market, n: nat)
    requires Completes(gs, market, n)
    ensures AreTheLegs(Run(EMPTY, gs, market, n).ledger.events, FillsIn(Flatten(gs, n)))
  {
    hide Run, NormalizeGroup, AreTheLegs, Separated, DistinctRows, OrdinalsAscend, FromRows, DistinctSources;
    if n == 0 {
      EmptyRunOver(gs, market);
      assert FillsIn([]) == [];
      NothingIsNoLegs();
    } else {
      CompletesEarlier(gs, market, n);
      RunStoresLegs(gs, market, n - 1);
      RunEvents(gs, market, n);
      GroupStoresLegs(gs, market, n);
      PrefixRowsDistinct(gs, n);
      var front, group := Flatten(gs, n - 1), gs[n - 1];
      RowSources(front + group);
      assert FillsIn(front + group) == FillsIn(front) + FillsIn(group);
      LegsConcat(Run(EMPTY, gs, market, n - 1).ledger.events, LastEvents(gs, market, n), FillsIn(front),
                 FillsIn(group));
    }
  }

  lemma GroupStoresLegs(gs: seq<seq<Row>>, market: Market, n: nat)
    requires Completes(gs, market, n) && n > 0
    ensures AreTheLegs(LastEvents(gs, market, n), FillsIn(gs[n - 1]))
  {
    hide Normalize, AreTheLegs, Separated, DistinctRows, Save, DistinctSources;
    RowsDistinct(gs, n);
    RowSources(gs[n - 1]);
    var boundary := Run(EMPTY, gs, market, n - 1).ledger.cursor.boundary;
    GroupIsItsLegs(if boundary.Some? then boundary.value else 0, FillsIn(gs[n - 1]), market);
  }

  // ---------------------------------------------------------------- recorded positions

  /** A fill with a positive quantity that starts at a position of 20 digits and moves it. */
  predicate Recorded(f: Fill) {
    Fits20(f.startPosition) && f.quantity > 0 && Moves(EdgeOf(f))
  }

  ghost predicate AllRecorded(fills: seq<Fill>) {
    forall k :: 0 <= k < |fills| ==> Recorded(fills[k])
  }

  lemma {:induction false} ChainFits(boundary: int, w: seq<Edge<Fill>>, k: nat)
    requires Fits20(boundary) && Chained(boundary, w) && k < |w|
    requires forall i :: 0 <= i < |w| ==> w[i] == EdgeOf(w[i].fill)
    ensures Fits20(w[k].before) && Fits20(w[k].after)
  {
    hide Fits20, Round20;
    var f := w[k].fill;
    RoundedFits(f.startPosition + SignedDelta(f));
    if k > 0 { ChainFits(boundary, w, k - 1); }
  }

  /** A fill of quantity zero does not move a position of 20 digits. */
  lemma MovedFills(f: Fill)
    requires Fits20(f.startPosition) && f.quantity >= 0 && Moves(EdgeOf(f))
    ensures Recorded(f)
  {
    hide Fits20, Round20;
    Round20Exact(f.startPosition);
  }

  /** From a boundary of 20 digits an accepted group has recorded fills and ends at such a position. */
  lemma GroupRecorded(boundary: int, fills: seq<Fill>, market: Market)
    requires Fits20(boundary) && DistinctSources(fills) && fills != []
    requires Normalize(Some(boundary), fills, market).Normalized?
    ensures AllRecorded(fills) && Fits20(Normalize(Some(boundary), fills, market).afterPosition)
  {
    hide Normalize, Fits20, Round20, Consistent, OneOrder, TreeSize, Recorded, EdgeOf, Moves, LegsAlong;
    var w := AcceptedOrder(boundary, fills, market);
    assert forall i :: 0 <= i < |w| ==> w[i] in w;
    AcceptedExactlyWhen(boundary, fills, market);
    forall k | 0 <= k < |fills| ensures Recorded(fills[k]) {
      assert fills[k] in fills;
      QuantityNonNegative(fills, fills[k]);
      var i :| 0 <= i < |w| && w[i] == EdgeOf(fills[k]);
      ChainFits(boundary, w, i);
      EdgeStart(fills[k]);
      MovedFills(fills[k]);
    }
    if w != [] { ChainFits(boundary, w, |w| - 1); }
  }

  lemma EdgeStart(f: Fill)
    ensures EdgeOf(f).before == f.startPosition
  {
  }

  /** In a run from scratch every completed fill starts at a recorded position. */
  lemma {:induction false} RunRecorded(gs: seq<seq<Row>>, market: Market, n: nat)
    requires Completes(gs, market, n)
    ensures AllRecorded(FillsIn(Flatten(gs, n)))
    ensures var boundary := Run(EMPTY, gs, market, n).ledger.cursor.boundary;
      boundary.Some? ==> Fits20(boundary.value)
  {
    hide Normalize, Fits20, Separated, DistinctRows, InsertAll, Recorded, DistinctSources;
    if n > 0 {
      CompletesEarlier(gs, market, n);
      RunRecorded(gs, market, n - 1);
      RowsDistinct(gs, n);
      RowSources(gs[n - 1]);
      var boundary := Run(EMPTY, gs, market, n - 1).ledger.cursor.boundary;
      ZeroFits();
      GroupRecorded(if boundary.Some? then boundary.value else 0, FillsIn(gs[n - 1]), market);
      assert FillsIn(Flatten(gs, n)) == FillsIn(Flatten(gs, n - 1)) + FillsIn(gs[n - 1]);
    }
  }

  lemma ZeroFits()
    ensures Fits20(0)
  {
  }

  // ---------------------------------------------------------------- a run over a table

  ghost function StoredEvents(table: seq<Row>, market: Market, n: nat): seq<Event>
    requires n <= |AllGroups(table)|
  {
    Run(EMPTY, AllGroups(table), market, n).ledger.events
  }

  /** The fills of the completed groups. */
  ghost function DoneFills(table: seq<Row>, market: Market, n: nat): seq<Fill>
    requires n <= |AllGroups(table)|
  {
    FillsIn(Flatten(AllGroups(table), CompletedGroups(EMPTY, AllGroups(table), market, n)))
  }

  lemma TableLegs(table: seq<Row>, market: Market, n: nat)
    requires IsTable(table) && n <= |AllGroups(table)|
    ensures AreTheLegs(StoredEvents(table, market, n), DoneFills(table, market, n))
    ensures AllRecorded(DoneFills(table, market, n))
  {
    hide Run, Groups, AreTheLegs, AllRecorded;
    var gs := AllGroups(table);
    CompletedState(EMPTY, gs, market, n);
    var k := CompletedGroups(EMPTY, gs, market, n);
    TableCompletes(table, market, k);
    RunStoresLegs(gs, market, k);
    RunRecorded(gs, market, k);
  }

  /** The fill an event of distinct fills is a leg of. */
  lemma FillOfLeg(events: seq<Event>, fills: seq<Fill>, e: Event) returns (k: nat)
    requires AreTheLegs(events, fills) && e in events
    ensures k < |fills| && LegsWritten(fills[k]).Some? && e in LegsAt(EdgeOf(fills[k]))
    ensures fills[k].sourceEventId == e.sourceEventId && fills[k].occurredAt == e.occurredAt && e.sourceOrdinal <= 1
    ensures e.sourceOrdinal < |LegsAt(EdgeOf(fills[k]))| && e == LegsAt(EdgeOf(fills[k]))[e.sourceOrdinal]
    ensures forall f :: f in fills && f.sourceEventId == e.sourceEventId ==> f == fills[k]
  {
    hide LegsAt, LegsWritten, OwnLegs, EdgeOf;
    var i :| 0 <= i < |events| && events[i] == e;
    assert LegOfOne(events[i], fills);
    k :| k < |fills| && LegsWritten(fills[k]).Some? && e in LegsAt(EdgeOf(fills[k]));
    EdgeFill(fills[k]);
    LegSource(EdgeOf(fills[k]));
    LegTimes(EdgeOf(fills[k]));
  }

  /** Every stored event of a run from scratch, blocked or not, is classed as buying exactly when its fill
      bought: from recorded positions no rounding turns a fill around. */
  lemma StoredLegsFollowTheirFills(table: seq<Row>, market: Market, n: nat, e: Event, f: Fill)
    requires IsTable(table) && n <= |AllGroups(table)|
    requires e in StoredEvents(table, market, n) && f in DoneFills(table, market, n)
    requires f.sourceEventId == e.sourceEventId
    ensures D.ClassedBuy(e) <==> f.side == Buy
  {
    hide StoredEvents, DoneFills, AreTheLegs, Fits20, EventsForTransition, EdgeOf, Moves, D.ClassedBuy, D.PassesMiddle;
    var fills := DoneFills(table, market, n);
    TableLegs(table, market, n);
    var k := FillOfLeg(StoredEvents(table, market, n), fills, e);
    assert Recorded(fills[k]);
    EdgeStart(f);
    EdgeFill(f);
    D.LegRises(f, f.startPosition, EdgeOf(f).after, e);
    D.RecordedStartPasses(f);
    D.EdgeDirection(f);
  }

  // ---------------------------------------------------------------- one bucket

  predicate Within(at: int, start: int) {
    start <= at < start + G.BUCKET_MS
  }

  function EventsWithin(events: seq<Event>, start: int): seq<Event> {
    Filter((e: Event) => Within(e.occurredAt, start), events)
  }

  function FillsWithin(fills: seq<Fill>, start: int): seq<Fill> {
    Filter((f: Fill) => Within(f.occurredAt, start), fills)
  }

  lemma {:induction false} LegsOfWithin(events: seq<Event>, start: int, id: Id)
    requires forall k :: 0 <= k < |events| && events[k].sourceEventId == id ==> Within(events[k].occurredAt, start)
    ensures LegsOf(EventsWithin(events, start), id) == LegsOf(events, id)
  {
    hide Within;
    if events != [] {
      var n := |events| - 1;
      LegsOfWithin(events[..n], start, id);
      var front, own := EventsWithin(events[..n], start),
          if Within(events[n].occurredAt, start) then [events[n]] else [];
      assert EventsWithin(events, start) == front + own;
      LegsOfConcat(front, own, id);
      assert LegsOf([], id) == [];
      assert [events[n]][..0] == [];
    }
  }

  lemma {:induction false} FilterDistinctSources(fills: seq<Fill>, start: int)
    requires DistinctSources(fills)
    ensures DistinctSources(FillsWithin(fills, start))
  {
    hide Within;
    if fills != [] {
      var n := |fills| - 1;
      assert forall k :: 0 <= k < n ==> fills[..n][k] == fills[k];
      FilterDistinctSources(fills[..n], start);
      var front := FillsWithin(fills[..n], start);
      FilterMembers((f: Fill) => Within(f.occurredAt, start), fills[..n]);
      forall i | 0 <= i < |front| ensures front[i].sourceEventId != fills[n].sourceEventId {
        assert front[i] in fills[..n];
      }
    }
  }

  /** The events of a bucket are the legs of its fills. */
  lemma BucketLegs(events: seq<Event>, fills: seq<Fill>, start: int)
    requires AreTheLegs(events, fills)
    ensures AreTheLegs(EventsWithin(events, start), FillsWithin(fills, start))
  {
    hide AreTheLegs, OwnLegs, LegsAt, LegsWritten, Within, Filter;
    var es, fs := EventsWithin(events, start), FillsWithin(fills, start);
    FilterMembers((f: Fill) => Within(f.occurredAt, start), fills);
    FilterMembers((e: Event) => Within(e.occurredAt, start), events);
    LegsHaveParts(events, fills);
    FilterDistinctSources(fills, start);
    forall k | 0 <= k < |fs| ensures OwnLegs(es, fs[k]) {
      assert fs[k] in fs && fs[k] in fills;
      OwnLegsWithin(events, fills, start, fs[k]);
    }
    forall k | 0 <= k < |es| ensures LegOfOne(es[k], fs) {
      assert es[k] in es && es[k] in events;
      var i := FillOfLeg(events, fills, es[k]);
      assert fills[i] in fs;
      var j :| 0 <= j < |fs| && fs[j] == fills[i];
    }
    LegsFromParts(es, fs);
  }

  lemma LegsHaveParts(events: seq<Event>, fills: seq<Fill>)
    requires AreTheLegs(events, fills)
    ensures DistinctSources(fills) && forall f :: f in fills ==> OwnLegs(events, f)
  {
    hide OwnLegs, LegOfOne;
  }

  lemma LegsFromParts(events: seq<Event>, fills: seq<Fill>)
    requires DistinctSources(fills) && (forall k :: 0 <= k < |fills| ==> OwnLegs(events, fills[k]))
    requires forall k :: 0 <= k < |events| ==> LegOfOne(events[k], fills)
    ensures AreTheLegs(events, fills)
  {
    hide OwnLegs, LegOfOne, DistinctSources;
  }

  lemma OwnLegsWithin(events: seq<Event>, fills: seq<Fill>, start: int, f: Fill)
    requires AreTheLegs(events, fills) && f in fills && OwnLegs(events, f) && Within(f.occurredAt, start)
    ensures OwnLegs(EventsWithin(events, start), f)
  {
    hide AreTheLegs, LegsAt, LegsWritten, EventsWithin, Within;
    forall k | 0 <= k < |events| && events[k].sourceEventId == f.sourceEventId
      ensures Within(events[k].occurredAt, start)
    {
      var i := FillOfLeg(events, fills, events[k]);
    }
    LegsOfWithin(events, start, f.sourceEventId);
  }

  /** No fill of the bucket lies after the cursor: the check for lag passes. */
  ghost predicate CaughtUp(table: seq<Row>, market: Market, n: nat, start: int)
    requires n <= |AllGroups(table)|
  {
    var last := Run(EMPTY, AllGroups(table), market, n).ledger.cursor.last;
    last.Some? && forall r :: r in table && Within(TimeOf(r), start) ==> TimeOf(r) <= last.value
  }

  lemma {:induction false} FilterStops<T>(p: T -> bool, s: seq<T>, n: nat)
    requires n <= |s| && forall k :: n <= k < |s| ==> !p(s[k])
    ensures Filter(p, s) == Filter(p, s[..n])
    decreases |s|
  {
    if n < |s| {
      FilterStops(p, s[..|s| - 1], n);
      assert s[..|s| - 1][..n] == s[..n];
    } else {
      assert s[..n] == s;
    }
  }

  /** Then the fills of the bucket are completed ones. */
  lemma CaughtUpFills(table: seq<Row>, market: Market, n: nat, start: int)
    requires IsTable(table) && n <= |AllGroups(table)| && CaughtUp(table, market, n, start)
    ensures FillsWithin(FillsIn(table), start) == FillsWithin(DoneFills(table, market, n), start)
  {
    hide Run, Groups, Flatten, Within, Done, Filter;
    var gs := AllGroups(table);
    CompletedState(EMPTY, gs, market, n);
    var k := CompletedGroups(EMPTY, gs, market, n);
    TableCompletes(table, market, k);
    CursorAtGroup(gs, market, k);
    GroupsAreTheDone(table, k);
    var c := |Flatten(gs, k)|;
    var fills := FillsIn(table);
    forall i | c <= i < |fills| ensures !Within(fills[i].occurredAt, start) {
      assert table[i] in table && TimeOf(table[i]) == fills[i].occurredAt;
    }
    FilterStops((f: Fill) => Within(f.occurredAt, start), fills, c);
    assert FillsIn(table[..c]) == fills[..c];
  }

  /** What the arithmetic of the normaliser and the columns keep of a fill and of a leg. */
  predicate FillFits(f: Fill) {
    Exact(f) && (Flips(f) || Fits20(f.quantity))
  }

  /** For every bucket of every run from scratch that has caught up: its fills and its stored events, read
      back in any arrangement, raise no leg issue if and only if every fill fits, and no identity issue if and
      only if every notional does. */
  lemma BucketAgreement(table: seq<Row>, market: Market, n: nat, start: int, rows: seq<Event>)
    requires IsTable(table) && n <= |AllGroups(table)| && CaughtUp(table, market, n, start)
    requires multiset(rows) == multiset(StoredAll(EventsWithin(StoredEvents(table, market, n), start)))
    ensures var fills := FillsWithin(FillsIn(table), start);
      var events := EventsWithin(StoredEvents(table, market, n), start);
      && (LegIssues(fills, rows, |fills|) == [] <==> forall f :: f in fills ==> FillFits(f))
      && (IdentityIssues(fills, rows, |rows|) == [] <==> forall e :: e in events ==> NotionalFits(e))
  {
    hide StoredEvents, DoneFills, AreTheLegs, FillsWithin, EventsWithin, StoredAll, LegIssues, IdentityIssues,
         NotionalFits, CaughtUp, FillFits;
    TableLegs(table, market, n);
    CaughtUpFills(table, market, n, start);
    var events, fills := StoredEvents(table, market, n), DoneFills(table, market, n);
    BucketLegs(events, fills, start);
    LegsAgree(EventsWithin(events, start), FillsWithin(fills, start), rows);
    NotionalsAgree(EventsWithin(events, start), FillsWithin(fills, start), rows);
    RecordedFit(fills, start);
  }

  lemma RecordedFit(fills: seq<Fill>, start: int)
    requires AllRecorded(fills)
    ensures forall f :: f in FillsWithin(fills, start) ==> (LegsFit(f) <==> FillFits(f))
  {
    hide Exact, Flips, Fits20, Moves;
    FilterMembers((f: Fill) => Within(f.occurredAt, start), fills);
    forall f | f in FillsWithin(fills, start) ensures LegsFit(f) <==> FillFits(f) {
      var k :| 0 <= k < |fills| && fills[k] == f;
      assert Recorded(fills[k]);
    }
  }

  // ---------------------------------------------------------------- from stored legs to the aggregate

  /** Whose fills they are, and the runs the service found behind an event. */
  datatype Provenance = Provenance(wallet: G.Id, coin: string, run: G.Id, selection: G.Id, performance: G.Id)

  /** The notional column in units of 10^-18. */
  function UnitsStored(e: Event): int {
    e.notionalDeltaUsd / Pow10(COLUMN)
  }

  /** A stored event as the service hands it to the aggregate. */
  function Handed(e: Event, id: G.Id, from: Provenance, hash: G.Hash): G.Event {
    G.Event(id, hash(G.BEHAVIOR_VERSION, e.sourceEventId, e.sourceOrdinal), G.BEHAVIOR_VERSION, from.wallet, from.coin,
            G.At(e.occurredAt), D.TypeText(e.eventType), D.DirectionText(e.direction), G.Plain(UnitsStored(e), 0),
            e.sourceEventId, e.sourceOrdinal, Some(from.run), Some(from.selection), Some(from.performance))
  }

  /** An aligned bucket that the wallet takes part in. */
  predicate BucketOf(b: G.Bucket, start: int, from: Provenance) {
    b.start == G.At(start) && G.BucketStart(b.start) == Some(start) && b.coin == from.coin
    && G.InScope(b.members, from.wallet)
  }

  lemma SameBucketStart(at: int, start: int)
    requires Within(at, start) && start / G.BUCKET_MS * G.BUCKET_MS == start
    ensures at / G.BUCKET_MS * G.BUCKET_MS == start
  {
  }

  /** A stored leg fails no check of the aggregate but, possibly, the one of its amount. */
  lemma HandedIssues(b: G.Bucket, e: Event, id: G.Id, start: int, from: Provenance, hash: G.Hash)
    requires BucketOf(b, start, from) && Within(e.occurredAt, start) && e.sourceOrdinal <= 1
    ensures G.EventIssues(b, Handed(e, id, from, hash), hash) == {} <==> 0 <= UnitsStored(e) < G.AMOUNT_LIMIT
  {
    hide G.SemanticFor, G.InScope, UnitsStored;
    var x := Handed(e, id, from, hash);
    D.LegsHaveSemantics(e, x);
    SameBucketStart(e.occurredAt, start);
    if !G.AmountValid(x.notional) {
      assert G.InvalidDecimal(id) in G.EventIssues(b, x, hash);
    }
  }

  function HandedAll(rows: seq<Event>, ids: Event -> G.Id, from: Provenance, hash: G.Hash): seq<G.Event> {
    seq(|rows|, k requires 0 <= k < |rows| => Handed(rows[k], ids(rows[k]), from, hash))
  }

  ghost predicate Injective(hash: G.Hash) {
    forall v, a, i, b, j :: hash(v, a, i) == hash(v, b, j) ==> a == b && i == j
  }

  /** The notional survives its roundings and is an amount the aggregate takes. */
  predicate NotionalInRange(e: Event) {
    NotionalFits(e) && 0 <= e.sourcePrice * Abs(e.quantityDelta) < G.AMOUNT_LIMIT * Pow10(COLUMN)
  }

  lemma LegNotional(e: Edge<Fill>)
    ensures forall k :: 0 <= k < |LegsAt(e)| ==>
      LegsAt(e)[k].notionalDeltaUsd == Round20(LegsAt(e)[k].sourcePrice * Abs(LegsAt(e)[k].quantityDelta))
  {
    hide Round20;
  }

  lemma QuotientBelow(v: int, p: nat, limit: nat)
    requires p >= 1 && Abs(v) % p == 0
    ensures 0 <= v / p < limit <==> 0 <= v < limit * p
  {
    if 0 <= v < limit * p { DivBelow(v, p, limit); }
    if 0 <= v && v / p < limit { MulMonotone(v / p + 1, limit, p); Distribute(v / p, 1, p); }
  }

  /** Of a leg whose notional survives, the stored amount is in range exactly when the notional is. */
  lemma UnitsInRange(e: Event)
    requires e.notionalDeltaUsd == Round20(e.sourcePrice * Abs(e.quantityDelta)) && NotionalFits(e)
    ensures 0 <= UnitsStored(Stored(e)) < G.AMOUNT_LIMIT <==> NotionalInRange(e)
  {
    hide Fits20, Round20, Persisted, Pow10;
    var v := e.sourcePrice * Abs(e.quantityDelta);
    NotionalSurvives(v, COLUMN);
    QuotientBelow(v, Pow10(COLUMN), G.AMOUNT_LIMIT);
  }

  /** Two stored legs with one fingerprint are the same. */
  lemma HandedAgree(events: seq<Event>, fills: seq<Fill>, rows: seq<Event>, ids: Event -> G.Id, from: Provenance,
                    hash: G.Hash)
    requires AreTheLegs(events, fills) && multiset(rows) == multiset(StoredAll(events)) && Injective(hash)
    ensures GT.Agreeing(HandedAll(rows, ids, from, hash), |rows|)
  {
    hide AreTheLegs, LegsAt, LegsWritten, StoredAll, Persisted, G.Canonical, UnitsStored;
    RowsAreTheStored(events, rows);
    var handed := HandedAll(rows, ids, from, hash);
    forall i, j | 0 <= i < j < |rows| ensures GT.SameDelivery(handed[i], handed[j]) {
      assert rows[i] in rows && rows[j] in rows;
      var d :| d in events && rows[i] == Stored(d);
      var e :| e in events && rows[j] == Stored(e);
      if handed[i].fingerprint == handed[j].fingerprint {
        var k := FillOfLeg(events, fills, d);
        var m := FillOfLeg(events, fills, e);
        assert fills[m] in fills;
        assert d == e;
      }
    }
  }

  lemma RowIssues(b: G.Bucket, events: seq<Event>, fills: seq<Fill>, e: Event, id: G.Id, start: int, from: Provenance,
                  hash: G.Hash)
    requires AreTheLegs(events, fills) && e in events && Within(e.occurredAt, start) && BucketOf(b, start, from)
    requires NotionalFits(e)
    ensures G.EventIssues(b, Handed(Stored(e), id, from, hash), hash) == {} <==> NotionalInRange(e)
  {
    hide AreTheLegs, LegsAt, LegsWritten, Persisted, NotionalFits, NotionalInRange, BucketOf, G.EventIssues, Handed,
         UnitsStored, Within, EdgeOf;
    var k := FillOfLeg(events, fills, e);
    LegNotional(EdgeOf(fills[k]));
    UnitsInRange(e);
    HandedIssues(b, Stored(e), id, start, from, hash);
  }

  lemma RowsPass(b: G.Bucket, events: seq<Event>, fills: seq<Fill>, rows: seq<Event>, ids: Event -> G.Id, start: int,
                 from: Provenance, hash: G.Hash)
    requires AreTheLegs(events, fills) && multiset(rows) == multiset(StoredAll(events)) && BucketOf(b, start, from)
    requires forall e :: e in events ==> Within(e.occurredAt, start) && NotionalFits(e)
    ensures (forall k :: 0 <= k < |rows| ==>
              G.EventIssues(b, HandedAll(rows, ids, from, hash)[k], hash) == {})
      <==> forall e :: e in events ==> NotionalInRange(e)
  {
    hide AreTheLegs, StoredAll, Persisted, NotionalFits, NotionalInRange, BucketOf, G.EventIssues, Handed, Within;
    RowsAreTheStored(events, rows);
    forall k | 0 <= k < |rows|
      ensures exists e ::
        && e in events && rows[k] == Stored(e)
        && (G.EventIssues(b, HandedAll(rows, ids, from, hash)[k], hash) == {} <==> NotionalInRange(e))
    {
      assert rows[k] in rows;
      var e :| e in events && rows[k] == Stored(e);
      RowIssues(b, events, fills, e, ids(rows[k]), start, from, hash);
    }
    if forall k :: 0 <= k < |rows| ==> G.EventIssues(b, HandedAll(rows, ids, from, hash)[k], hash) == {} {
      forall e | e in events ensures NotionalInRange(e) {
        assert Stored(e) in rows;
        var k :| 0 <= k < |rows| && rows[k] == Stored(e);
        RowIssues(b, events, fills, e, ids(rows[k]), start, from, hash);
        assert HandedAll(rows, ids, from, hash)[k] == Handed(rows[k], ids(rows[k]), from, hash);
      }
    }
  }

  /** From fills to an aggregate, for every bucket of every run from scratch that has caught up: when the other
      checks of the service pass, the bucket is not blocked if and only if every fill fits 20 digits and
      every notional fits its roundings and the range of amounts. */
  lemma BucketAggregates(table: seq<Row>, market: Market, n: nat, start: int, rows: seq<Event>, b: G.Bucket,
                         ids: Event -> G.Id, from: Provenance, hash: G.Hash)
    requires IsTable(table) && n <= |AllGroups(table)| && CaughtUp(table, market, n, start)
    requires multiset(rows) == multiset(StoredAll(EventsWithin(StoredEvents(table, market, n), start)))
    requires G.KeyValid(b) && BucketOf(b, start, from) && Injective(hash)
    requires b.events == HandedAll(rows, ids, from, hash)
    requires var fills := FillsWithin(FillsIn(table), start);
      b.issues == {} <==> LegIssues(fills, rows, |fills|) == [] && IdentityIssues(fills, rows, |rows|) == []
    ensures G.AggregateBucket(b, hash).Some?
    ensures G.AggregateBucket(b, hash).value.status != G.Blocked <==>
      && (forall f :: f in FillsWithin(FillsIn(table), start) ==> FillFits(f))
      && (forall e :: e in EventsWithin(StoredEvents(table, market, n), start) ==> NotionalInRange(e))
  {
    hide StoredEvents, DoneFills, AreTheLegs, FillsWithin, EventsWithin, StoredAll, LegIssues, IdentityIssues,
         NotionalFits, CaughtUp, FillFits, BucketOf, G.KeyValid, G.AggregateBucket, G.EventIssues, Injective,
         GT.Agreeing, Handed;
    BucketAgreement(table, market, n, start, rows);
    TableLegs(table, market, n);
    var fills := DoneFills(table, market, n);
    var events := EventsWithin(StoredEvents(table, market, n), start);
    BucketLegs(StoredEvents(table, market, n), fills, start);
    AllWithin(StoredEvents(table, market, n), start);
    HandedAgree(events, FillsWithin(fills, start), rows, ids, from, hash);
    GT.BlockedExactlyWhen(b, hash);
    if forall e :: e in events ==> NotionalFits(e) {
      RowsPass(b, events, FillsWithin(fills, start), rows, ids, start, from, hash);
    }
  }

  lemma AllWithin(events: seq<Event>, start: int)
    ensures forall e :: e in EventsWithin(events, start) ==> Within(e.occurredAt, start)
  {
    hide Within;
    FilterMembers((e: Event) => Within(e.occurredAt, start), events);
  }
}
