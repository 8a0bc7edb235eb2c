/** The cursor boundary is the sum of the completed fills, and a late fill can be rebuilt by rewinding:
    deleting the events from the rebuild point, moving the cursor to the last earlier event and processing
    again ends as a run from scratch over the enlarged fill set does, exactly when the lookup of that event
    cannot find another one of its timestamp. */
module LateFillTheorems {

  import opened Sequences
  import opened Decimals
  import opened CausalSearch
  import opened BehaviorNormalization
  import opened NormalizationTheorems
  import opened LegVerifier
  import opened BehaviorSpec
  import opened PagingTheorems

  // ---------------------------------------------------------------- groups cut a table by time

  function Flatten(gs: seq<seq<Row>>, n: nat): seq<Row>
    requires n <= |gs|
  {
    if n == 0 then [] else Flatten(gs, n - 1) + gs[n - 1]
  }

  ghost predicate Uniform(group: seq<Row>) {
    group != [] && forall k :: 0 <= k < |group| ==> TimeOf(group[k]) == TimeOf(group[0])
  }

  ghost predicate Separated(gs: seq<seq<Row>>) {
    && (forall k :: 0 <= k < |gs| ==> Uniform(gs[k]))
    && forall i, j :: 0 <= i < j < |gs| ==> TimeOf(gs[i][0]) < TimeOf(gs[j][0])
  }

  lemma {:induction false} FlattenPrefix(a: seq<seq<Row>>, b: seq<seq<Row>>, n: nat)
    requires n <= |a| && n <= |b| && forall k :: 0 <= k < n ==> a[k] == b[k]
    ensures Flatten(a, n) == Flatten(b, n)
  {
    if n > 0 { FlattenPrefix(a, b, n - 1); }
  }

  lemma {:induction false} GroupsSeparate(rows: seq<Row>, n: nat)
    requires Ascending(rows) && n <= |rows|
    ensures var gs := Groups(rows, n); Separated(gs) && Flatten(gs, |gs|) == rows[..n]
  {
    hide Extend;
    if n > 0 {
      GroupsSeparate(rows, n - 1);
      LastGroupTime(rows, n - 1);
      ExtendSeparates(Groups(rows, n - 1), rows[n - 1]);
      assert rows[..n] == rows[..n - 1] + [rows[n - 1]];
    }
  }

  lemma ExtendSeparates(gs: seq<seq<Row>>, row: Row)
    requires Separated(gs) && (gs != [] ==> TimeOf(gs[|gs| - 1][0]) <= TimeOf(row))
    ensures var more := Extend(gs, row); Separated(more) && Flatten(more, |more|) == Flatten(gs, |gs|) + [row]
  {
    var more := Extend(gs, row);
    if |more| == |gs| {
      var n := |gs| - 1;
      FlattenPrefix(gs, more, n);
      assert Flatten(more, |more|) == Flatten(gs, n) + (gs[n] + [row]);
    } else {
      FlattenPrefix(gs, more, |gs|);
    }
  }

  lemma {:induction false} FlattenTimes(gs: seq<seq<Row>>, n: nat, r: Row)
    requires Separated(gs) && n <= |gs| && r in Flatten(gs, n)
    ensures exists k :: 0 <= k < n && r in gs[k] && TimeOf(r) == TimeOf(gs[k][0])
  {
    if r in gs[n - 1] {
      assert Uniform(gs[n - 1]);
    } else {
      FlattenTimes(gs, n - 1, r);
    }
  }

  /** The rows beyond the first `n` groups are those of the later groups. */
  lemma {:induction false} FlattenRest(gs: seq<seq<Row>>, n: nat, m: nat) returns (rest: seq<Row>)
    requires Separated(gs) && n <= m <= |gs|
    ensures Flatten(gs, m) == Flatten(gs, n) + rest
    ensures forall r :: r in rest ==> exists k :: n <= k < m && r in gs[k] && TimeOf(r) == TimeOf(gs[k][0])
    decreases m
  {
    if n == m {
      rest := [];
    } else {
      var front := FlattenRest(gs, n, m - 1);
      rest := front + gs[m - 1];
      assert Uniform(gs[m - 1]);
      assert Flatten(gs, m) == Flatten(gs, n) + rest;
    }
  }

  lemma {:induction false} DoneIs(rows: seq<Row>, after: Option<int>, n: nat)
    requires Ascending(rows) && n <= |rows|
    requires forall k :: 0 <= k < n ==> !IsAfter(rows[k], after)
    requires forall k :: n <= k < |rows| ==> IsAfter(rows[k], after)
    ensures Done(rows, after) == n
  {
    if n > 0 {
      DoneIs(rows[1..], after, n - 1);
    }
  }

  /** The rows at or before a group's time are the rows of the groups up to it. */
  lemma GroupsAreTheDone(rows: seq<Row>, n: nat)
    requires Ascending(rows) && n <= |AllGroups(rows)|
    ensures var gs := AllGroups(rows); var c := |Flatten(gs, n)|;
      && c <= |rows| && Flatten(gs, n) == rows[..c]
      && Done(rows, if n == 0 then None else Some(TimeOf(gs[n - 1][0]))) == c
  {
    hide Groups, Done, Flatten, Uniform;
    var gs := AllGroups(rows);
    GroupsSeparate(rows, |rows|);
    assert rows[..|rows|] == rows;
    var rest := FlattenRest(gs, n, |gs|);
    var c := |Flatten(gs, n)|;
    assert rows == Flatten(gs, n) + rest;
    var after := if n == 0 then None else Some(TimeOf(gs[n - 1][0]));
    forall k | 0 <= k < c ensures !IsAfter(rows[k], after) {
      assert rows[k] == Flatten(gs, n)[k] && rows[k] in Flatten(gs, n);
      FlattenTimes(gs, n, rows[k]);
    }
    forall k | c <= k < |rows| ensures IsAfter(rows[k], after) {
      assert rows[k] == rest[k - c] && rows[k] in rest;
    }
    DoneIs(rows, after, c);
  }

  // ---------------------------------------------------------------- the cursor boundary

  ghost predicate AllExact(rows: seq<Row>) {
    forall k :: 0 <= k < |rows| ==> Exact(rows[k].fill)
  }

  ghost predicate DistinctRows(rows: seq<Row>) {
    forall i, j :: 0 <= i < j < |rows| ==> IdOf(rows[i]) != IdOf(rows[j])
  }

  /** A normalised group of distinct fills moves the boundary by the sum of its signed quantities. */
  lemma GroupMovesBoundary(group: seq<Row>, boundary: Option<int>, market: Market)
    requires group != [] && AllExact(group) && DistinctRows(group)
    requires NormalizeGroup(group, boundary, market).Normalized?
    ensures NormalizeGroup(group, boundary, market).afterPosition
         == (if boundary.Some? then boundary.value else 0) + Deltas(FillsIn(group))
  {
    hide Normalize, Exact, Round20, Deltas;
    FillsMoveBoundary(if boundary.Some? then boundary.value else 0, FillsIn(group), market);
  }

  lemma FillsMoveBoundary(boundary: int, fills: seq<Fill>, market: Market)
    requires fills != [] && (forall k :: 0 <= k < |fills| ==> Exact(fills[k]))
    requires forall i, j :: 0 <= i < j < |fills| ==> fills[i].sourceEventId != fills[j].sourceEventId
    requires Normalize(Some(boundary), fills, market).Normalized?
    ensures Normalize(Some(boundary), fills, market).afterPosition == boundary + Deltas(fills)
  {
    hide Normalize, Exact, Deltas, Consistent, Moves, OneOrder, TreeSize, Collect, Telescopes, FillsOf;
    AcceptedConserves(boundary, fills, market);
    AcceptedExactlyWhen(boundary, fills, market);
    CollectMeaning(fills, |fills|);
    AllKept(fills, |fills|);
    assert fills[..|fills|] == fills;
  }

  lemma {:induction false} DeltasConcat(a: seq<Row>, b: seq<Row>)
    ensures Deltas(FillsIn(a + b)) == Deltas(FillsIn(a)) + Deltas(FillsIn(b))
  {
    assert FillsIn(a + b) == FillsIn(a) + FillsIn(b);
    SumConcat(SignedDelta, FillsIn(a), FillsIn(b));
  }

  /** The rows a run completed: all its groups, or those before the one that blocked it. */
  ghost function CompletedGroups(l: Ledger, groups: seq<seq<Row>>, market: Market, n: nat): (k: nat)
    requires NonEmpty(groups) && n <= |groups|
    ensures k <= n
  {
    if n == 0 then 0
    else if Run(l, groups, market, n).blocked.None? then n
    else CompletedGroups(l, groups, market, n - 1)
  }

  lemma {:induction false} CompletedState(l: Ledger, groups: seq<seq<Row>>, market: Market, n: nat)
    requires NonEmpty(groups) && n <= |groups|
    ensures var k := CompletedGroups(l, groups, market, n);
      && Run(l, groups, market, k).blocked.None?
      && Run(l, groups, market, n).ledger == Run(l, groups, market, k).ledger
  {
    hide NormalizeGroup, Save;
    if n > 0 { CompletedState(l, groups, market, n - 1); }
  }

  lemma {:induction false} RunBoundary(groups: seq<seq<Row>>, market: Market, n: nat)
    requires NonEmpty(groups) && n <= |groups|
    requires DistinctRows(Flatten(groups, n)) && AllExact(Flatten(groups, n))
    requires Run(EMPTY, groups, market, n).blocked.None?
    ensures Run(EMPTY, groups, market, n).ledger.cursor.boundary
         == if n == 0 then None else Some(Deltas(FillsIn(Flatten(groups, n))))
  {
    hide NormalizeGroup, InsertAll, Exact, Deltas;
    if n > 0 {
      var front, group := Flatten(groups, n - 1), groups[n - 1];
      var all := Flatten(groups, n);
      assert forall k :: 0 <= k < |front| ==> front[k] == all[k];
      assert forall k :: 0 <= k < |group| ==> group[k] == all[|front| + k];
      RunBoundary(groups, market, n - 1);
      GroupMovesBoundary(group, Run(EMPTY, groups, market, n - 1).ledger.cursor.boundary, market);
      DeltasConcat(front, group);
      if n == 1 { NoDeltas(front); }
    }
  }

  lemma NoDeltas(rows: seq<Row>)
    requires rows == []
    ensures Deltas(FillsIn(rows)) == 0
  {
  }

  /** Wherever a run from scratch stands, blocked or not, the cursor boundary is the sum of the signed
      quantities of all fills at or before the cursor. */
  lemma CursorBoundaryIsTheSum(table: seq<Row>, market: Market, n: nat)
    requires IsTable(table) && AllExact(table) && n <= |AllGroups(table)|
    ensures var cursor := Run(EMPTY, AllGroups(table), market, n).ledger.cursor;
      var done := Done(table, cursor.last);
      cursor.boundary == if done == 0 then None else Some(Deltas(FillsIn(table[..done])))
  {
    hide Run, Groups, Exact, Deltas, Done, Flatten;
    var gs := AllGroups(table);
    CompletedState(EMPTY, gs, market, n);
    var k := CompletedGroups(EMPTY, gs, market, n);
    GroupsAreTheDone(table, k);
    RunBoundary(gs, market, k);
    if k > 0 {
      RunMovesCursor(EMPTY, gs, market, k);
      FlattenGrows(gs, k);
    } else {
      EmptyRunOver(gs, market);
      FlattenGrows(gs, 0);
    }
  }

  lemma FlattenGrows(gs: seq<seq<Row>>, n: nat)
    requires NonEmpty(gs) && n <= |gs|
    ensures |Flatten(gs, n)| > 0 <==> n > 0
  {
  }

  lemma EmptyRunOver(gs: seq<seq<Row>>, market: Market)
    requires NonEmpty(gs)
    ensures Run(EMPTY, gs, market, 0) == Progress(EMPTY, 0, None)
  {
  }

  // ---------------------------------------------------------------- events of a run, by group

  /** Along a chain of distinct fills, fingerprints are distinct and a fill's ordinals ascend. */
  ghost predicate OrdinalsAscend(events: seq<Event>) {
    forall i, j :: 0 <= i < j < |events| && events[i].sourceEventId == events[j].sourceEventId
      ==> events[i].sourceOrdinal < events[j].sourceOrdinal
  }

  ghost predicate FromFills(events: seq<Event>, fills: seq<Fill>) {
    forall k :: 0 <= k < |events| ==> FromOneOf(events[k], fills)
  }

  ghost predicate FromOneOf(e: Event, fills: seq<Fill>) {
    exists i :: 0 <= i < |fills| && fills[i].sourceEventId == e.sourceEventId && fills[i].occurredAt == e.occurredAt
  }

  ghost predicate FromEdge(e: Event, w: seq<Edge<Fill>>, n: nat)
    requires n <= |w|
  {
    exists i :: 0 <= i < n && w[i].fill.sourceEventId == e.sourceEventId && w[i].fill.occurredAt == e.occurredAt
  }

  lemma LegTimes(e: Edge<Fill>)
    ensures forall k :: 0 <= k < |LegsAt(e)| ==> LegsAt(e)[k].occurredAt == e.fill.occurredAt
  {
    hide Round20;
  }

  lemma {:induction false} ChainEvents(boundary: int, w: seq<Edge<Fill>>, n: nat)
    requires Chained(boundary, w) && DistinctIds(w) && n <= |w| && LegsAlong(boundary, w, n).Some?
    ensures var events := LegsAlong(boundary, w, n).value;
      && OrdinalsAscend(events)
      && (n > 0 ==> events != [])
      && forall k :: 0 <= k < |events| ==> FromEdge(events[k], w, n)
  {
    hide EventsForTransition, LegsAt;
    if n > 0 {
      ChainEvents(boundary, w, n - 1);
      LegSource(w[n - 1]);
      LegTimes(w[n - 1]);
      var earlier, events := LegsAlong(boundary, w, n - 1).value, LegsAlong(boundary, w, n).value;
      forall k | 0 <= k < |events| ensures FromEdge(events[k], w, n) {
        if k < |earlier| { assert FromEdge(earlier[k], w, n - 1); }
      }
      forall i, j | 0 <= i < j < |events| && events[i].sourceEventId == events[j].sourceEventId
        ensures events[i].sourceOrdinal < events[j].sourceOrdinal
      {
        if i < |earlier| { assert FromEdge(earlier[i], w, n - 1); }
      }
    }
  }

  /** The events of a normalised group of distinct fills. */
  lemma GroupEvents(boundary: int, fills: seq<Fill>, market: Market)
    requires fills != [] && Normalize(Some(boundary), fills, market).Normalized?
    requires forall i, j :: 0 <= i < j < |fills| ==> fills[i].sourceEventId != fills[j].sourceEventId
    ensures var r := Normalize(Some(boundary), fills, market);
      && r.events != [] && OrdinalsAscend(r.events) && FromFills(r.events, fills)
      && r.events[|r.events| - 1].afterPosition == r.afterPosition
  {
    hide Normalize, EventsForTransition, EdgeOf, Moves;
    var w := AcceptedOrder(boundary, fills, market);
    var events := LegsAlong(boundary, w, |w|).value;
    ChainEvents(boundary, w, |w|);
    LegsTelescope(boundary, w, |w|);
    assert EdgeOf(fills[0]) in w;
    forall k | 0 <= k < |events| ensures FromOneOf(events[k], fills) {
      assert FromEdge(events[k], w, |w|);
      var i :| 0 <= i < |w| && w[i].fill.sourceEventId == events[k].sourceEventId
               && w[i].fill.occurredAt == events[k].occurredAt;
      assert w[i] in w;
      var j :| 0 <= j < |fills| && fills[j] == w[i].fill;
    }
  }

  lemma {:induction false} InsertFresh(stored: seq<Event>, added: seq<Event>, n: nat)
    requires n <= |added| && OrdinalsAscend(added)
    requires forall i, j :: 0 <= i < |stored| && 0 <= j < |added| ==> stored[i].sourceEventId != added[j].sourceEventId
    ensures InsertAll(stored, added, n) == stored + added[..n]
  {
    if n > 0 {
      InsertFresh(stored, added, n - 1);
      var s := stored + added[..n - 1];
      forall k | 0 <= k < |s| ensures FingerprintOf(s[k]) != FingerprintOf(added[n - 1]) {
        if k >= |stored| { assert s[k] == added[k - |stored|]; }
      }
      assert stored + added[..n] == s + [added[n - 1]];
    }
  }

  // ---------------------------------------------------------------- events of a run

  /** Every event belongs to a row of the completed groups. */
  ghost predicate FromRows(events: seq<Event>, rows: seq<Row>) {
    forall k :: 0 <= k < |events| ==> FromRow(events[k], rows)
  }

  ghost predicate FromRow(e: Event, rows: seq<Row>) {
    exists i :: 0 <= i < |rows| && IdOf(rows[i]) == e.sourceEventId && TimeOf(rows[i]) == e.occurredAt
  }

  /** What the last completed group contributed. */
  ghost function LastEvents(gs: seq<seq<Row>>, market: Market, n: nat): seq<Event>
    requires NonEmpty(gs) && 0 < n <= |gs|
  {
    var r := NormalizeGroup(gs[n - 1], Run(EMPTY, gs, market, n - 1).ledger.cursor.boundary, market);
    if r.Normalized? then r.events else []
  }

  ghost predicate Completes(gs: seq<seq<Row>>, market: Market, n: nat) {
    && NonEmpty(gs) && Separated(gs) && n <= |gs| && DistinctRows(Flatten(gs, |gs|))
    && Run(EMPTY, gs, market, n).blocked.None?
  }

  lemma CompletesEarlier(gs: seq<seq<Row>>, market: Market, n: nat)
    requires Completes(gs, market, n) && n > 0
    ensures Completes(gs, market, n - 1)
  {
    hide NormalizeGroup, Save;
  }

  /** The last group adds its own events, all at its time, after events of earlier times. */
  lemma {:induction false} RunEvents(gs: seq<seq<Row>>, market: Market, n: nat)
    requires Completes(gs, market, n)
    ensures var l := Run(EMPTY, gs, market, n).ledger;
      && FromRows(l.events, Flatten(gs, n))
      && (n > 0 ==>
            var added, at := LastEvents(gs, market, n), TimeOf(gs[n - 1][0]);
            && l.events == Run(EMPTY, gs, market, n - 1).ledger.events + added
            && added != [] && OrdinalsAscend(added)
            && (forall k :: 0 <= k < |added| ==> added[k].occurredAt == at)
            && l.cursor == CursorAt(Some(added[|added| - 1])))
  {
    hide NormalizeGroup, InsertAll, OrdinalsAscend, DistinctRows, FromRow;
    if n > 0 {
      CompletesEarlier(gs, market, n);
      RunEvents(gs, market, n - 1);
      RowsDistinct(gs, n);
      assert Uniform(gs[n - 1]);
      GroupRowEvents(gs[n - 1], Run(EMPTY, gs, market, n - 1).ledger.cursor.boundary, market);
      RunAppends(gs, market, n);
    }
  }

  ghost predicate Foreign(a: seq<Row>, b: seq<Row>) {
    forall i, j :: 0 <= i < |a| && 0 <= j < |b| ==> IdOf(a[i]) != IdOf(b[j])
  }

  /** The rows of the first groups, and of the next one, are distinct. */
  lemma RowsDistinct(gs: seq<seq<Row>>, n: nat)
    requires Separated(gs) && DistinctRows(Flatten(gs, |gs|)) && 0 < n <= |gs|
    ensures DistinctRows(gs[n - 1])
    ensures Foreign(Flatten(gs, n - 1), gs[n - 1])
  {
    hide Separated;
    var all, front, group := Flatten(gs, |gs|), Flatten(gs, n - 1), gs[n - 1];
    var rest := FlattenRest(gs, n, |gs|);
    assert all == (front + group) + rest;
    assert forall j :: 0 <= j < |group| ==> group[j] == all[|front| + j];
    assert forall i :: 0 <= i < |front| ==> front[i] == all[i];
  }

  /** Events of one group: of its rows, at its time, ending at its last position. */
  ghost predicate Belongs(events: seq<Event>, after: int, group: seq<Row>) {
    && group != [] && events != [] && OrdinalsAscend(events) && FromRows(events, group)
    && (forall k :: 0 <= k < |events| ==> events[k].occurredAt == TimeOf(group[0]))
    && events[|events| - 1].afterPosition == after
  }

  lemma GroupRowEvents(group: seq<Row>, boundary: Option<int>, market: Market)
    requires Uniform(group) && DistinctRows(group) && NormalizeGroup(group, boundary, market).Normalized?
    ensures var r := NormalizeGroup(group, boundary, market);
      Belongs(r.events, r.afterPosition, group)
  {
    hide Normalize;
    var r := NormalizeGroup(group, boundary, market);
    GroupEvents(if boundary.Some? then boundary.value else 0, FillsIn(group), market);
    forall k | 0 <= k < |r.events| ensures FromRow(r.events[k], group) {
      assert FromOneOf(r.events[k], FillsIn(group));
    }
    forall k | 0 <= k < |r.events| ensures r.events[k].occurredAt == TimeOf(group[0]) {
      assert FromRow(r.events[k], group);
    }
  }

  lemma RunAppends(gs: seq<seq<Row>>, market: Market, n: nat)
    requires Completes(gs, market, n) && n > 0
    requires FromRows(Run(EMPTY, gs, market, n - 1).ledger.events, Flatten(gs, n - 1))
    requires Foreign(Flatten(gs, n - 1), gs[n - 1])
    requires var r := NormalizeGroup(gs[n - 1], Run(EMPTY, gs, market, n - 1).ledger.cursor.boundary, market);
      r.Normalized? && Belongs(r.events, r.afterPosition, gs[n - 1])
    ensures var l, added := Run(EMPTY, gs, market, n).ledger, LastEvents(gs, market, n);
      && l.events == Run(EMPTY, gs, market, n - 1).ledger.events + added
      && l.cursor == CursorAt(Some(added[|added| - 1])) && FromRows(l.events, Flatten(gs, n))
  {
    hide NormalizeGroup, OrdinalsAscend, Separated, DistinctRows;
    var stored, added := Run(EMPTY, gs, market, n - 1).ledger.events, LastEvents(gs, market, n);
    var front, group := Flatten(gs, n - 1), gs[n - 1];
    forall i, j | 0 <= i < |stored| && 0 <= j < |added| ensures stored[i].sourceEventId != added[j].sourceEventId {
      assert FromRow(stored[i], front) && FromRow(added[j], group);
    }
    InsertFresh(stored, added, |added|);
    assert added[..|added|] == added;
    forall k | 0 <= k < |stored + added| ensures FromRow((stored + added)[k], front + group) {
      if k < |stored| { FromRowMore(stored[k], front, group); } else { FromRowMore(added[k - |stored|], front, group); }
    }
  }

  lemma FromRowMore(e: Event, a: seq<Row>, b: seq<Row>)
    requires FromRow(e, a) || FromRow(e, b)
    ensures FromRow(e, a + b)
  {
    if i :| 0 <= i < |a| && IdOf(a[i]) == e.sourceEventId && TimeOf(a[i]) == e.occurredAt {
      assert (a + b)[i] == a[i];
    } else {
      var i :| 0 <= i < |b| && IdOf(b[i]) == e.sourceEventId && TimeOf(b[i]) == e.occurredAt;
      assert (a + b)[|a| + i] == b[i];
    }
  }

  // ---------------------------------------------------------------- the rewind

  lemma {:induction false} SurvivingConcat(a: seq<Event>, b: seq<Event>, from: int, last: Option<int>, n: nat)
    requires n <= |b|
    ensures Surviving(a + b, from, last, |a| + n) == Surviving(a, from, last, |a|) + Surviving(b, from, last, n)
  {
    if n > 0 {
      SurvivingConcat(a, b, from, last, n - 1);
    } else {
      SurvivingPrefix(a, b, from, last, |a|);
    }
  }

  lemma {:induction false} SurvivingPrefix(a: seq<Event>, b: seq<Event>, from: int, last: Option<int>, n: nat)
    requires n <= |a|
    ensures Surviving(a + b, from, last, n) == Surviving(a, from, last, n)
  {
    if n > 0 { SurvivingPrefix(a, b, from, last, n - 1); }
  }

  lemma {:induction false} AllSurvive(events: seq<Event>, from: int, last: Option<int>, n: nat)
    requires n <= |events| && forall k :: 0 <= k < n ==> !Affected(events[k], from, last)
    ensures Surviving(events, from, last, n) == events[..n]
  {
    if n > 0 {
      AllSurvive(events, from, last, n - 1);
      assert events[..n] == events[..n - 1] + [events[n - 1]];
    }
  }

  lemma {:induction false} NoneSurvive(events: seq<Event>, from: int, last: Option<int>, n: nat)
    requires n <= |events| && forall k :: 0 <= k < n ==> Affected(events[k], from, last)
    ensures Surviving(events, from, last, n) == []
  {
    if n > 0 { NoneSurvive(events, from, last, n - 1); }
  }

  /** `j` of the `k` completed groups lie before the rebuild point. */
  ghost predicate SplitsAt(gs: seq<seq<Row>>, from: int, j: nat, k: nat) {
    && j <= k <= |gs| && NonEmpty(gs)
    && (forall i :: 0 <= i < j ==> TimeOf(gs[i][0]) < from)
    && (forall i :: j <= i < k ==> TimeOf(gs[i][0]) >= from)
  }

  lemma EventTimes(gs: seq<seq<Row>>, market: Market, from: int, j: nat, k: nat)
    requires Completes(gs, market, j) && SplitsAt(gs, from, j, k)
    ensures forall i :: 0 <= i < |Run(EMPTY, gs, market, j).ledger.events| ==>
      Run(EMPTY, gs, market, j).ledger.events[i].occurredAt < from
  {
    hide Run, DistinctRows;
    RunEvents(gs, market, j);
    var events, rows := Run(EMPTY, gs, market, j).ledger.events, Flatten(gs, j);
    forall i | 0 <= i < |events| ensures events[i].occurredAt < from {
      assert FromRow(events[i], rows);
      var r :| 0 <= r < |rows| && IdOf(rows[r]) == events[i].sourceEventId && TimeOf(rows[r]) == events[i].occurredAt;
      assert rows[r] in rows;
      FlattenTimes(gs, j, rows[r]);
    }
  }

  /** Deleting the affected events leaves those of the groups before the rebuild point. */
  lemma {:induction false} SurvivorsOf(gs: seq<seq<Row>>, market: Market, from: int, last: Option<int>, j: nat,
                                       m: nat, k: nat)
    requires Completes(gs, market, m) && SplitsAt(gs, from, j, k) && j <= m <= k
    requires last.Some? ==> forall i :: j <= i < k ==> TimeOf(gs[i][0]) <= last.value
    ensures var events := Run(EMPTY, gs, market, m).ledger.events;
      Surviving(events, from, last, |events|) == Run(EMPTY, gs, market, j).ledger.events
    decreases m
  {
    hide Run, DistinctRows, Separated, FromRows, OrdinalsAscend, LastEvents, Surviving;
    var events := Run(EMPTY, gs, market, m).ledger.events;
    if m == j {
      EventTimes(gs, market, from, j, k);
      AllSurvive(events, from, last, |events|);
      assert events[..|events|] == events;
    } else {
      CompletesEarlier(gs, market, m);
      RunEvents(gs, market, m);
      SurvivorsOf(gs, market, from, last, j, m - 1, k);
      var added := LastEvents(gs, market, m);
      SurvivingConcat(Run(EMPTY, gs, market, m - 1).ledger.events, added, from, last, |added|);
      NoneSurvive(added, from, last, |added|);
    }
  }

  /** The lookup returns an event that no other candidate follows. */
  lemma {:induction false} PreviousIsTop(events: seq<Event>, from: int, rowId: Event -> int, n: nat)
    requires n <= |events|
    ensures var best := Previous(events, from, rowId, n);
      && (best.None? ==> forall k :: 0 <= k < n ==> events[k].occurredAt >= from)
      && (best.Some? ==>
            && (exists k :: 0 <= k < n && events[k] == best.value && events[k].occurredAt < from)
            && forall k :: 0 <= k < n && events[k].occurredAt < from ==> !Precedes(best.value, events[k], rowId))
  {
    if n > 0 { PreviousIsTop(events, from, rowId, n - 1); }
  }

  /** No other event of the group has an ordinal as great as the last one's. */
  predicate LastIsTop(events: seq<Event>) {
    forall k :: 0 <= k < |events| - 1 ==> events[k].sourceOrdinal < events[|events| - 1].sourceOrdinal
  }

  /** No other event of the group comes after the last one in the lookup order. */
  predicate LookupFindsLast(events: seq<Event>, rowId: Event -> int) {
    forall k :: 0 <= k < |events| - 1 ==> !Precedes(events[|events| - 1], events[k], rowId)
  }

  /** Rows have different ids. */
  ghost predicate RowIdsDiffer(events: seq<Event>, rowId: Event -> int) {
    forall i, j :: 0 <= i < j < |events| ==> rowId(events[i]) != rowId(events[j])
  }

  /** The event the lookup finds, among earlier events, a last group and affected ones. */
  lemma PreviousFound(events: seq<Event>, earlier: seq<Event>, added: seq<Event>, at: int, from: int,
                      rowId: Event -> int)
    requires added != [] && OrdinalsAscend(added) && RowIdsDiffer(added, rowId) && at < from
    requires forall e :: e in earlier ==> e.occurredAt < at
    requires forall k :: 0 <= k < |added| ==> added[k].occurredAt == at
    requires forall e :: e in events && e.occurredAt < from ==> e in earlier + added
    requires forall e :: e in added ==> e in events
    ensures var p, last := Previous(events, from, rowId, |events|), added[|added| - 1];
      && (LookupFindsLast(added, rowId) ==> p == Some(last))
      && (!LookupFindsLast(added, rowId) ==> p.Some? && p.value.sourceEventId != last.sourceEventId)
  {
    hide Previous;
    var p, last := Previous(events, from, rowId, |events|), added[|added| - 1];
    PreviousIsTop(events, from, rowId, |events|);
    forall k | 0 <= k < |added| ensures p.Some? && !Precedes(p.value, added[k], rowId) {
      assert added[k] in added && added[k] in events;
      var m :| 0 <= m < |events| && events[m] == added[k];
      assert !Precedes(p.value, events[m], rowId);
    }
    assert p.value in earlier + added && p.value !in earlier;
    var i :| 0 <= i < |added| && added[i] == p.value;
    if i < |added| - 1 {
      assert rowId(added[i]) != rowId(last);
    }
  }

  lemma {:induction false} CompletesPrefix(gs: seq<seq<Row>>, market: Market, j: nat, k: nat)
    requires Completes(gs, market, k) && j <= k
    ensures Completes(gs, market, j)
    decreases k
  {
    hide Run, Separated, DistinctRows;
    if j < k {
      CompletesEarlier(gs, market, k);
      CompletesPrefix(gs, market, j, k - 1);
    }
  }

  /** What the rewind leaves behind and which event its lookup may find. */
  lemma RewoundParts(gs: seq<seq<Row>>, market: Market, from: int, j: nat, k: nat, rowId: Event -> int)
    requires Completes(gs, market, k) && SplitsAt(gs, from, j, k)
    requires j > 0 ==> RowIdsDiffer(LastEvents(gs, market, j), rowId)
    ensures var l, target := Run(EMPTY, gs, market, k).ledger, Run(EMPTY, gs, market, j).ledger;
      var r := Rewound(l, from, rowId);
      && r.events == target.events
      && (r == target <==> j == 0 || LookupFindsLast(LastEvents(gs, market, j), rowId))
  {
    hide Run, DistinctRows, Separated, Previous, Surviving, LookupFindsLast, RowIdsDiffer, OrdinalsAscend, FromRows;
    var l := Run(EMPTY, gs, market, k).ledger;
    CompletesPrefix(gs, market, j, k);
    CursorAtGroup(gs, market, k);
    SurvivorsOf(gs, market, from, l.cursor.last, j, k, k);
    var target := Run(EMPTY, gs, market, j).ledger;
    PreviousIsTop(l.events, from, rowId, |l.events|);
    SurvivingIsEarlier(l.events, from, l.cursor.last, target.events);
    EventTimes(gs, market, from, j, k);
    if j == 0 {
      assert target == EMPTY by { EmptyRunOver(gs, market); }
    } else {
      CompletesEarlier(gs, market, j);
      RunEvents(gs, market, j);
      var at := TimeOf(gs[j - 1][0]);
      EarlierTimes(gs, market, j);
      var earlier, added := Run(EMPTY, gs, market, j - 1).ledger.events, LastEvents(gs, market, j);
      assert forall e :: e in added ==> e in target.events;
      PreviousFound(l.events, earlier, added, at, from, rowId);
    }
  }

  lemma CursorAtGroup(gs: seq<seq<Row>>, market: Market, k: nat)
    requires Completes(gs, market, k)
    ensures Run(EMPTY, gs, market, k).ledger.cursor.last == if k == 0 then None else Some(TimeOf(gs[k - 1][0]))
    ensures forall i :: 0 <= i < k ==> TimeOf(gs[i][0]) <= TimeOf(gs[k - 1][0])
  {
    hide NormalizeGroup, InsertAll, DistinctRows;
    if k > 0 { RunMovesCursor(EMPTY, gs, market, k); }
  }

  lemma EarlierTimes(gs: seq<seq<Row>>, market: Market, j: nat)
    requires Completes(gs, market, j) && j > 0
    ensures forall e :: e in Run(EMPTY, gs, market, j - 1).ledger.events ==> e.occurredAt < TimeOf(gs[j - 1][0])
  {
    hide Run, DistinctRows;
    CompletesEarlier(gs, market, j);
    EventTimes(gs, market, TimeOf(gs[j - 1][0]), j - 1, j - 1);
  }

  /** The survivors are stored events, and hold every event before the rebuild point. */
  lemma {:induction false} SurvivingMembers(events: seq<Event>, from: int, last: Option<int>, n: nat)
    requires n <= |events|
    ensures forall e :: e in Surviving(events, from, last, n) <==> e in events[..n] && !Affected(e, from, last)
  {
    if n > 0 {
      SurvivingMembers(events, from, last, n - 1);
      assert events[..n] == events[..n - 1] + [events[n - 1]];
    }
  }

  lemma SurvivingIsEarlier(events: seq<Event>, from: int, last: Option<int>, kept: seq<Event>)
    requires Surviving(events, from, last, |events|) == kept
    ensures forall e :: e in events && e.occurredAt < from ==> e in kept
    ensures forall e :: e in kept ==> e in events
    ensures kept == [] ==> forall k :: 0 <= k < |events| ==> events[k].occurredAt >= from
  {
    SurvivingMembers(events, from, last, |events|);
    assert events[..|events|] == events;
    assert forall k :: 0 <= k < |events| ==> events[k] in events;
  }

  /** With the row ids the database gave, the rewind restores the state of the groups before the rebuild
      point exactly when no event of the last of them comes after its last one in the lookup order. */
  lemma RewindRestoresExactlyWhen(gs: seq<seq<Row>>, market: Market, from: int, j: nat, k: nat,
                                  rowId: Event -> int)
    requires Completes(gs, market, k) && SplitsAt(gs, from, j, k)
    requires j > 0 ==> RowIdsDiffer(LastEvents(gs, market, j), rowId)
    ensures Rewound(Run(EMPTY, gs, market, k).ledger, from, rowId) == Run(EMPTY, gs, market, j).ledger
      <==> j == 0 || LookupFindsLast(LastEvents(gs, market, j), rowId)
  {
    hide Run, Completes, Rewound, LastEvents;
    RewoundParts(gs, market, from, j, k, rowId);
  }

  function FirstIndex(events: seq<Event>, e: Event, n: nat): nat
    requires n <= |events|
  {
    if n == 0 then |events| else if events[n - 1] == e then n - 1 else FirstIndex(events, e, n - 1)
  }

  lemma {:induction false} IndexOfEvent(events: seq<Event>, k: nat, n: nat)
    requires OrdinalsAscend(events) && k < n <= |events|
    ensures FirstIndex(events, events[k], n) == k
  {
    if k < n - 1 { IndexOfEvent(events, k, n - 1); }
  }

  /** Row ids in the order of writing, but for one event that comes after all. */
  function RankFirst(events: seq<Event>, x: Event): Event -> int {
    e => if e == x then |events| else FirstIndex(events, e, |events|)
  }

  /** For all row ids the lookup finds the last event exactly when no other has as great an ordinal. */
  lemma AnyRowIds(events: seq<Event>)
    requires OrdinalsAscend(events) && forall k :: 0 <= k < |events| ==> events[k].occurredAt == events[0].occurredAt
    ensures LastIsTop(events) <==>
      forall rowId: Event -> int :: RowIdsDiffer(events, rowId) ==> LookupFindsLast(events, rowId)
  {
    if !LastIsTop(events) {
      var last := |events| - 1;
      var i :| 0 <= i < last && events[i].sourceOrdinal >= events[last].sourceOrdinal;
      var rowId := RankFirst(events, events[i]);
      assert events[i] != events[last];
      forall k | 0 <= k < |events| ensures rowId(events[k]) == if k == i then |events| else k {
        IndexOfEvent(events, k, |events|);
      }
      assert Precedes(events[last], events[i], rowId);
      assert RowIdsDiffer(events, rowId) && !LookupFindsLast(events, rowId);
    }
  }

  /** With row ids in the order of writing, only an earlier event of a greater ordinal is found instead. */
  lemma RisingRowIds(events: seq<Event>, rowId: Event -> int)
    requires forall k :: 0 <= k < |events| ==> events[k].occurredAt == events[0].occurredAt
    requires forall i, j :: 0 <= i < j < |events| ==> rowId(events[i]) < rowId(events[j])
    ensures LookupFindsLast(events, rowId) <==>
      forall k :: 0 <= k < |events| ==> events[k].sourceOrdinal <= events[|events| - 1].sourceOrdinal
  {
    if events != [] {
      var last := events[|events| - 1];
      forall k | 0 <= k < |events| - 1
        ensures Precedes(last, events[k], rowId) <==> events[k].sourceOrdinal > last.sourceOrdinal
      {
        assert rowId(events[k]) < rowId(events[|events| - 1]);
      }
    }
  }

  /** In a group of one fill the lookup finds the last event whatever row ids its events got. */
  lemma SingleFillIsRestorable(f: Fill, boundary: int, market: Market, rowId: Event -> int)
    requires Normalize(Some(boundary), [f], market).Normalized?
    ensures LookupFindsLast(Normalize(Some(boundary), [f], market).events, rowId)
  {
    hide Normalize;
    GroupEvents(boundary, [f], market);
    var events := Normalize(Some(boundary), [f], market).events;
    var last := |events| - 1;
    forall k | 0 <= k < last ensures !Precedes(events[last], events[k], rowId) {
      assert FromOneOf(events[k], [f]) && FromOneOf(events[last], [f]);
    }
  }

  // ---------------------------------------------------------------- the late fill

  lemma {:induction false} FlattenLonger(gs: seq<seq<Row>>, i: nat, j: nat)
    requires NonEmpty(gs) && i < j <= |gs|
    ensures |Flatten(gs, i)| < |Flatten(gs, j)|
    decreases j
  {
    if i < j - 1 { FlattenLonger(gs, i, j - 1); }
  }

  lemma FlattenInjective(gs: seq<seq<Row>>, i: nat, j: nat)
    requires NonEmpty(gs) && i <= |gs| && j <= |gs| && |Flatten(gs, i)| == |Flatten(gs, j)|
    ensures i == j
  {
    if i < j { FlattenLonger(gs, i, j); } else if j < i { FlattenLonger(gs, j, i); }
  }

  /** The rows after the first `j` groups are grouped as before. */
  lemma GroupsAfter(rows: seq<Row>, j: nat)
    requires Ascending(rows) && j <= |AllGroups(rows)|
    ensures var gs := AllGroups(rows); var after := if j == 0 then None else Some(TimeOf(gs[j - 1][0]));
      AllGroups(Remaining(rows, after)) == gs[j..]
  {
    hide Groups, Done, Select, Flatten, Separated;
    var gs := AllGroups(rows);
    var after := if j == 0 then None else Some(TimeOf(gs[j - 1][0]));
    GroupsAreTheDone(rows, j);
    var c := Done(rows, after);
    RemainingIsSuffix(rows, after);
    assert 0 < c < |rows| ==> !IsAfter(rows[c - 1], after) && IsAfter(rows[c], after);
    GroupsConcat(rows, c, |rows|);
    GroupsPrefix(rows, c, c);
    var x, y := AllGroups(rows[..c]), AllGroups(rows[c..]);
    assert gs == x + y;
    GroupsSeparate(rows[..c], c);
    assert rows[..c][..c] == rows[..c];
    FlattenPrefix(x, gs, |x|);
    FlattenInjective(gs, |x|, j);
  }

  /** From the state after `j` groups, one pass completes the run from scratch. */
  lemma ResumeCompletes(rows: seq<Row>, market: Market, j: nat)
    requires Ascending(rows) && j <= |AllGroups(rows)|
    requires Completes(AllGroups(rows), market, j)
    ensures var p := Run(EMPTY, AllGroups(rows), market, j);
      OnePass(EMPTY, rows, market) == Then(p, OnePass(p.ledger, rows, market))
  {
    hide Run, Groups, Select, Separated, DistinctRows;
    var gs := AllGroups(rows);
    GroupsAfter(rows, 0);
    GroupsAfter(rows, j);
    CursorAtGroup(gs, market, j);
    EmptyRunOver(gs, market);
    var a, b := gs[..j], gs[j..];
    RunConcat(EMPTY, a, b, market, |b|);
    RunPrefix(EMPTY, a, b, market, j);
    assert a + b == gs;
  }

  /** The groups before a point where two tables part are the same. */
  lemma SharedGroups(rows: seq<Row>, a: nat, from: int)
    requires Ascending(rows) && a <= |rows|
    requires forall k :: 0 <= k < a ==> TimeOf(rows[k]) < from
    requires forall k :: a <= k < |rows| ==> TimeOf(rows[k]) >= from
    ensures var shared, gs := AllGroups(rows[..a]), AllGroups(rows);
      && |shared| <= |gs| && gs[..|shared|] == shared
      && (forall i :: 0 <= i < |shared| ==> TimeOf(gs[i][0]) < from)
      && (forall i :: |shared| <= i < |gs| ==> TimeOf(gs[i][0]) >= from)
  {
    hide Groups;
    var x, y := AllGroups(rows[..a]), AllGroups(rows[a..]);
    GroupsConcat(rows, a, |rows|);
    GroupsPrefix(rows, a, a);
    assert AllGroups(rows) == x + y;
    GroupHeads(rows[..a]);
    GroupHeads(rows[a..]);
  }

  /** Every group starts with a row of the table. */
  lemma GroupHeads(rows: seq<Row>)
    requires Ascending(rows)
    ensures forall i :: 0 <= i < |AllGroups(rows)| ==> AllGroups(rows)[i][0] in rows
  {
    hide Groups, Separated;
    var gs := AllGroups(rows);
    GroupsSeparate(rows, |rows|);
    assert rows[..|rows|] == rows;
    forall i | 0 <= i < |gs| ensures gs[i][0] in rows {
      var rest := FlattenRest(gs, i + 1, |gs|);
      assert gs[i][0] == Flatten(gs, i + 1)[|Flatten(gs, i)|] == rows[|Flatten(gs, i)|];
    }
  }

  /** Rebuilding after a late fill gives the events, cursor and block point of a run from scratch over
      the enlarged fill set, for every page size and every state the old run had reached, provided
      the lookup finds the last event before the rebuild point. */
  lemma LateFillRebuild(before: seq<Row>, table: seq<Row>, shared: nat, from: int, n: nat, rowId: Event -> int,
                        setting: Setting)
    requires IsTable(before) && IsTable(table) && n <= |AllGroups(before)|
    requires Readable(table, setting) && GatesPass(table, setting)
    requires shared <= |before| && shared <= |table| && before[..shared] == table[..shared]
    requires forall k :: 0 <= k < shared ==> TimeOf(table[k]) < from
    requires forall k :: shared <= k < |before| ==> TimeOf(before[k]) >= from
    requires forall k :: shared <= k < |table| ==> TimeOf(table[k]) >= from
    requires var j := RestartGroup(before, shared, setting.market, n);
      j == 0 || (RowIdsDiffer(LastEvents(AllGroups(before), setting.market, j), rowId)
                 && LookupFindsLast(LastEvents(AllGroups(before), setting.market, j), rowId))
    ensures var l := Run(EMPTY, AllGroups(before), setting.market, n).ledger;
      var rebuilt := Drive(Rewound(l, from, rowId), table, setting);
      var scratch := AsStep(OnePass(EMPTY, table, setting.market));
      rebuilt.ledger == scratch.ledger && rebuilt.outcome == scratch.outcome && rebuilt.issue == scratch.issue
  {
    hide Run, Groups, Select, Separated, LookupFindsLast, RowIdsDiffer, LastEvents, Rewound, Drive, Readable,
         GatesPass, OnePass;
    var market := setting.market;
    var gs := AllGroups(before);
    CompletedState(EMPTY, gs, market, n);
    var k := CompletedGroups(EMPTY, gs, market, n);
    var j := RestartGroup(before, shared, market, n);
    TableCompletes(before, market, k);
    SharedGroups(before, shared, from);
    SharedGroups(table, shared, from);
    assert SplitsAt(gs, from, j, k);
    RewindRestoresExactlyWhen(gs, market, from, j, k, rowId);
    SameRun(gs, AllGroups(table), market, j);
    CompletesPrefix(gs, market, j, k);
    var l := Run(EMPTY, gs, market, n).ledger;
    assert Rewound(l, from, rowId) == Run(EMPTY, AllGroups(table), market, j).ledger;
    PagingRefinesOnePass(Rewound(l, from, rowId), table, setting);
    TableCompletes(table, market, j);
    ResumeCompletes(table, market, j);
  }

  /** How many completed groups lie in the part the two tables share. */
  ghost function RestartGroup(rows: seq<Row>, shared: nat, market: Market, n: nat): nat
    requires shared <= |rows| && n <= |AllGroups(rows)|
    ensures RestartGroup(rows, shared, market, n) <= |AllGroups(rows)|
  {
    var k, limit := CompletedGroups(EMPTY, AllGroups(rows), market, n), |AllGroups(rows[..shared])|;
    if k < limit then k else limit
  }

  lemma TableCompletes(rows: seq<Row>, market: Market, n: nat)
    requires IsTable(rows) && n <= |AllGroups(rows)|
    requires Run(EMPTY, AllGroups(rows), market, n).blocked.None?
    ensures Completes(AllGroups(rows), market, n)
  {
    hide Run, Groups;
    GroupsSeparate(rows, |rows|);
    assert rows[..|rows|] == rows;
  }

  lemma {:induction false} SameRun(a: seq<seq<Row>>, b: seq<seq<Row>>, market: Market, n: nat)
    requires NonEmpty(a) && NonEmpty(b) && n <= |a| && n <= |b| && a[..n] == b[..n]
    ensures Run(EMPTY, a, market, n) == Run(EMPTY, b, market, n)
  {
    hide NormalizeGroup, Save;
    if n > 0 {
      assert a[n - 1] == a[..n][n - 1] == b[..n][n - 1];
      assert a[..n - 1] == a[..n][..n - 1] == b[..n][..n - 1];
      SameRun(a, b, market, n - 1);
    }
  }
}
