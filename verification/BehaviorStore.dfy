/** The mutable side of the resumable normalisation: the rows of one wallet and coin, and the jobs
    that change them (apps/worker/src/behavior/service.ts, apps/worker/src/behavior/repository.ts). */
module BehaviorStore {

  import opened Sequences
  import opened BehaviorNormalization
  import opened BehaviorSpec

  class Store {
    var fills: seq<Row>
    var events: seq<Event>
    var cursor: Cursor
    var openIssues: set<Issue>

    constructor (table: seq<Row>)
      ensures fills == table && Ledger() == EMPTY && openIssues == {}
    {
      fills, events, cursor, openIssues := table, [], NO_CURSOR, {};
    }

    function Ledger(): Ledger
      reads this
    {
      BehaviorSpec.Ledger(events, cursor)
    }

    /** Inserts the events in write batches, moves the cursor and resolves the issues of the group. */
    method SaveSuccessfulGroup(at: int, r: GroupResult, writeBatch: nat)
      requires r.Normalized? && writeBatch >= 1
      modifies this`events, this`cursor, this`openIssues
      ensures Ledger() == Save(old(Ledger()), at, r)
      ensures openIssues == Resolve(old(openIssues), at)
    {
      var offset := 0;
      while offset < |r.events|
        invariant offset <= |r.events|
        invariant events == InsertAll(old(events), r.events, offset) && openIssues == old(openIssues)
      {
        var end := if offset + writeBatch < |r.events| then offset + writeBatch else |r.events|;
        while offset < end
          invariant offset <= end
          invariant events == InsertAll(old(events), r.events, offset) && openIssues == old(openIssues)
        {
          var e := r.events[offset];
          if !exists k :: 0 <= k < |events| && FingerprintOf(events[k]) == FingerprintOf(e) {
            events := events + [e];
          }
          offset := offset + 1;
        }
      }
      cursor := Cursor(Some(r.afterPosition), Some(at),
                       if r.events == [] then None else Some(r.events[|r.events| - 1].sourceEventId));
      openIssues := Resolve(openIssues, at);
    }

    method RecordIssue(issue: Issue)
      modifies this`openIssues
      ensures openIssues == old(openIssues) + {issue}
    {
      openIssues := openIssues + {issue};
    }

    /** Deletes the affected events and moves the cursor back, or throws and changes nothing. */
    method RewindForLateFill(from: int, rowId: Event -> int) returns (ok: bool)
      modifies this`events, this`cursor
      ensures ok <==> Rewindable(old(Ledger()), from)
      ensures Ledger() == if ok then Rewound(old(Ledger()), from, rowId) else old(Ledger())
    {
      if cursor.last.Some? && cursor.last.value - from > MAX_LATE_REBUILD_MILLISECONDS {
        return false;
      }
      var previous: Option<Event> := None;
      var kept: seq<Event> := [];
      for n := 0 to |events|
        invariant previous == Previous(events, from, rowId, n)
        invariant kept == Surviving(events, from, cursor.last, n)
      {
        var e := events[n];
        if e.occurredAt < from && (previous.None? || Precedes(previous.value, e, rowId)) {
          previous := Some(e);
        }
        if !Affected(e, from, cursor.last) {
          kept := kept + [e];
        }
      }
      if |events| - |kept| > MAX_LATE_REBUILD_EVENTS {
        return false;
      }
      events, cursor := kept, CursorAt(previous);
      ok := true;
    }

    /** The first query over the fills after the cursor; when it ends inside a timestamp group, the second
        one over the whole group. */
    method LoadFillPage(batch: nat, maxGroup: nat) returns (page: Page)
      requires batch >= 1
      ensures page == BehaviorSpec.LoadFillPage(fills, cursor.last, batch, maxGroup)
    {
      hide Select, Take;
      var after := cursor.last;
      var rows := FindMany(fills, (r: Row) => IsAfter(r, after), batch + 1);
      TakeLength(Remaining(fills, after), batch + 1);
      if |rows| <= batch { return Page(rows, false, None); }
      var boundaryAt := TimeOf(rows[batch - 1]);
      if TimeOf(rows[batch]) != boundaryAt { return Page(rows[..batch], true, None); }
      var prefix := FilterRows(rows[..batch], (r: Row) => TimeOf(r) < boundaryAt);
      var completeGroup := FindMany(fills, (r: Row) => TimeOf(r) == boundaryAt, maxGroup + 1);
      if |completeGroup| > maxGroup { return Page(prefix, true, Some(boundaryAt)); }
      page := Page(prefix + completeGroup, true, None);
    }

    /** One wallet-coin job; `None` when the requested rewind is refused. */
    method ProcessWalletCoin(rebuildFrom: Option<int>, rowId: Event -> int, setting: Setting, writeBatch: nat)
      returns (r: Option<Step>)
      requires setting.batch >= 1 && writeBatch >= 1
      modifies this`events, this`cursor, this`openIssues
      ensures var start := Started(old(Ledger()), rebuildFrom, rowId, setting);
        if start.None? then r == None && Ledger() == old(Ledger()) && openIssues == old(openIssues)
        else
          && r == Some(Process(start.value, fills, setting))
          && Ledger() == r.value.ledger
          && openIssues == ProcessIssues(old(openIssues), start.value, fills, setting)
    {
      hide Run, OpenAfter, BehaviorSpec.LoadFillPage, Rewindable, Rewound;
      if !setting.selected { return Some(Step(Ledger(), NoOp, 0, None)); }
      if rebuildFrom.Some? {
        var ok := RewindForLateFill(rebuildFrom.value, rowId);
        if !ok { return None; }
      }
      ghost var start := Ledger();
      var page := LoadFillPage(setting.batch, setting.maxGroup);
      if page.fills == [] && page.incompleteAt.None? {
        return Some(Step(Ledger(), Completed, 0, None));
      }
      var from := if page.fills != [] then Some(TimeOf(page.fills[0])) else page.incompleteAt;
      var gate := if setting.historyGap then Some(Issue(HistoryGap, from))
                  else if page.incompleteAt.Some? then Some(Issue(IncompleteTimestampGroup, page.incompleteAt))
                  else if FeeConflict(page.fills, setting.collateral) then Some(Issue(SourceInconsistent, from))
                  else None;
      if gate.Some? {
        RecordIssue(gate.value);
        return Some(Step(Ledger(), Blocked, 0, gate));
      }
      var groups := TimestampGroups(page.fills);
      var p := SaveGroups(groups, setting.market, writeBatch);
      if p.blocked.Some? {
        return Some(Step(Ledger(), Blocked, p.processed, p.blocked));
      }
      return Some(Step(Ledger(), if page.hasMore then Continued else Completed, p.processed, None));
    }

    /** Normalises and saves group after group until one is rejected, which is recorded. */
    method SaveGroups(groups: seq<seq<Row>>, market: Market, writeBatch: nat) returns (p: Progress)
      requires writeBatch >= 1 && forall k :: 0 <= k < |groups| ==> groups[k] != []
      modifies this`events, this`cursor, this`openIssues
      ensures p == Run(old(Ledger()), groups, market, |groups|) && Ledger() == p.ledger
      ensures openIssues == OpenAfter(old(openIssues), old(Ledger()), groups, market, |groups|)
    {
      hide NormalizeGroup, InsertAll;
      var boundary := cursor.boundary;
      var processed: nat := 0;
      for n := 0 to |groups|
        invariant Run(old(Ledger()), groups, market, n) == Progress(Ledger(), processed, None)
        invariant boundary == cursor.boundary
        invariant openIssues == OpenAfter(old(openIssues), old(Ledger()), groups, market, n)
      {
        var group := groups[n];
        var at := TimeOf(group[0]);
        var fills := FillsIn(group);
        var r := NormalizeFrom(group, boundary, market);
        if r.Rejected? {
          var issue := Issue(r.reason, Some(at));
          RecordIssue(issue);
          p := Progress(Ledger(), processed, Some(issue));
          RunStops(old(openIssues), old(Ledger()), groups, market, n + 1, |groups|);
          return;
        }
        SaveSuccessfulGroup(at, r, writeBatch);
        boundary := Some(r.afterPosition);
        processed := processed + |r.events|;
      }
      p := Progress(Ledger(), processed, None);
    }
  }

  /** The ledger a job works on, after the rewind it was asked for. */
  function Started(l: Ledger, rebuildFrom: Option<int>, rowId: Event -> int, setting: Setting): Option<Ledger> {
    if !setting.selected || rebuildFrom.None? then Some(l)
    else if Rewindable(l, rebuildFrom.value) then Some(Rewound(l, rebuildFrom.value, rowId))
    else None
  }

  lemma {:induction false} RunStops(open: set<Issue>, l: Ledger, groups: seq<seq<Row>>, market: Market,
                                    n: nat, m: nat)
    requires n <= m <= |groups| && forall k :: 0 <= k < |groups| ==> groups[k] != []
    requires Run(l, groups, market, n).blocked.Some?
    ensures Run(l, groups, market, m) == Run(l, groups, market, n)
    ensures OpenAfter(open, l, groups, market, m) == OpenAfter(open, l, groups, market, n)
    decreases m
  {
    hide NormalizeGroup, Save;
    if n < m { RunStops(open, l, groups, market, n, m - 1); }
  }

  /** A group from the stored boundary, or from a flat one it contains. */
  method NormalizeFrom(group: seq<Row>, boundary: Option<int>, market: Market) returns (r: GroupResult)
    ensures r == NormalizeGroup(group, boundary, market)
  {
    hide Normalize;
    if boundary.Some? {
      r := NormalizeTimestampGroup(boundary, FillsIn(group), market);
    } else if exists k :: 0 <= k < |group| && group[k].fill.startPosition == 0 {
      r := NormalizeTimestampGroup(Some(0), FillsIn(group), market);
    } else {
      r := Rejected(MissingBoundary);
    }
  }

  method TimestampGroups(rows: seq<Row>) returns (groups: seq<seq<Row>>)
    ensures groups == AllGroups(rows)
  {
    groups := [];
    for n := 0 to |rows|
      invariant groups == Groups(rows, n)
    {
      var row := rows[n];
      if groups == [] || TimeOf(groups[|groups| - 1][0]) != TimeOf(row) {
        groups := groups + [[row]];
      } else {
        groups := groups[|groups| - 1 := groups[|groups| - 1] + [row]];
      }
    }
  }

  // ---------------------------------------------------------------- queries

  lemma {:induction false} SelectGrows(rows: seq<Row>, keep: Row -> bool, row: Row)
    ensures Select(rows + [row], keep) == Select(rows, keep) + if keep(row) then [row] else []
  {
    if rows == [] {
      assert [] + [row] == [row];
      SelectOne(keep, row);
    } else {
      hide Select;
      SelectGrows(rows[1..], keep, row);
      SelectFirst(rows[0], rows[1..], keep);
      SelectFirst(rows[0], rows[1..] + [row], keep);
      assert [rows[0]] + rows[1..] == rows;
      assert [rows[0]] + (rows[1..] + [row]) == rows + [row];
    }
  }

  lemma SelectOne(keep: Row -> bool, row: Row)
    ensures Select([row], keep) == if keep(row) then [row] else []
  {
    assert [row][1..] == [];
  }

  lemma SelectFirst(row: Row, rest: seq<Row>, keep: Row -> bool)
    ensures Select([row] + rest, keep) == (if keep(row) then [row] else []) + Select(rest, keep)
  {
    assert ([row] + rest)[1..] == rest;
  }

  lemma {:induction false} SelectPrefix(rows: seq<Row>, keep: Row -> bool, n: nat)
    requires n <= |rows|
    ensures Select(rows[..n], keep) <= Select(rows, keep)
    decreases |rows| - n
  {
    if n < |rows| {
      assert rows[..n + 1] == rows[..n] + [rows[n]];
      SelectGrows(rows[..n], keep, rows[n]);
      SelectPrefix(rows, keep, n + 1);
    } else {
      assert rows[..n] == rows;
    }
  }

  lemma TakeLength(s: seq<Row>, n: nat)
    ensures |Take(s, n)| == if |s| <= n then |s| else n
  {
  }

  /** A query in table order that stops after `take` rows. */
  method FindMany(table: seq<Row>, keep: Row -> bool, take: nat) returns (rows: seq<Row>)
    requires take >= 1
    ensures rows == Take(Select(table, keep), take)
  {
    rows := [];
    for n := 0 to |table|
      invariant rows == Select(table[..n], keep) && |rows| < take
    {
      assert table[..n + 1] == table[..n] + [table[n]];
      SelectGrows(table[..n], keep, table[n]);
      if keep(table[n]) {
        rows := rows + [table[n]];
        if |rows| == take {
          SelectPrefix(table, keep, n + 1);
          return;
        }
      }
    }
    assert table[..|table|] == table;
  }

  method FilterRows(rows: seq<Row>, keep: Row -> bool) returns (kept: seq<Row>)
    ensures kept == Select(rows, keep)
  {
    kept := [];
    for n := 0 to |rows|
      invariant kept == Select(rows[..n], keep)
    {
      assert rows[..n + 1] == rows[..n] + [rows[n]];
      SelectGrows(rows[..n], keep, rows[n]);
      if keep(rows[n]) {
        kept := kept + [rows[n]];
      }
    }
    assert rows[..|rows|] == rows;
  }
}
