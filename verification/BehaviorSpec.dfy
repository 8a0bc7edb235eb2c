/** The resumable normalisation of one wallet and coin (apps/worker/src/behavior/service.ts and
    repository.ts) as functions on its stored state: pages, groups, the saved ledger, the rewind. */
module BehaviorSpec {

  import opened Sequences
  import opened BehaviorNormalization

  datatype Row = Row(fill: Fill, feeToken: Id)

  function TimeOf(r: Row): int {
    r.fill.occurredAt
  }

  function IdOf(r: Row): Id {
    r.fill.sourceEventId
  }

  /** Table order: by time, then by id. */
  predicate Earlier(a: Row, b: Row) {
    TimeOf(a) < TimeOf(b) || (TimeOf(a) == TimeOf(b) && IdOf(a) < IdOf(b))
  }

  ghost predicate IsTable(rows: seq<Row>) {
    && (forall i, j :: 0 <= i < j < |rows| ==> Earlier(rows[i], rows[j]))
    && (forall i, j :: 0 <= i < j < |rows| ==> IdOf(rows[i]) != IdOf(rows[j]))
  }

  // ---------------------------------------------------------------- pages

  datatype Page = Page(fills: seq<Row>, hasMore: bool, incompleteAt: Option<int>)

  predicate IsAfter(r: Row, after: Option<int>) {
    after.None? || TimeOf(r) > after.value
  }

  function Select(rows: seq<Row>, keep: Row -> bool): seq<Row> {
    if rows == [] then []
    else (if keep(rows[0]) then [rows[0]] else []) + Select(rows[1..], keep)
  }

  function Remaining(rows: seq<Row>, after: Option<int>): seq<Row> {
    Select(rows, r => IsAfter(r, after))
  }

  function GroupAt(rows: seq<Row>, at: int): seq<Row> {
    Select(rows, r => TimeOf(r) == at)
  }

  function Take<T>(s: seq<T>, n: nat): seq<T> {
    if |s| <= n then s else s[..n]
  }

  function LoadFillPage(table: seq<Row>, after: Option<int>, batch: nat, maxGroup: nat): Page
    requires batch >= 1
  {
    var rows := Take(Remaining(table, after), batch + 1);
    if |rows| <= batch then Page(rows, false, None)
    else
      var boundaryAt := TimeOf(rows[batch - 1]);
      if TimeOf(rows[batch]) != boundaryAt then Page(rows[..batch], true, None)
      else
        var prefix := Select(rows[..batch], r => TimeOf(r) < boundaryAt);
        var group := Take(GroupAt(table, boundaryAt), maxGroup + 1);
        if |group| > maxGroup then Page(prefix, true, Some(boundaryAt))
        else Page(prefix + group, true, None)
  }

  // ---------------------------------------------------------------- timestamp groups

  /** Adds a row to the last group if it shares its timestamp, otherwise opens a group. */
  function Extend(gs: seq<seq<Row>>, row: Row): (r: seq<seq<Row>>)
    requires forall k :: 0 <= k < |gs| ==> gs[k] != []
    ensures forall k :: 0 <= k < |r| ==> r[k] != []
  {
    if gs == [] || TimeOf(gs[|gs| - 1][0]) != TimeOf(row) then gs + [[row]]
    else gs[|gs| - 1 := gs[|gs| - 1] + [row]]
  }

  function Groups(rows: seq<Row>, n: nat): (gs: seq<seq<Row>>)
    requires n <= |rows|
    ensures forall k :: 0 <= k < |gs| ==> gs[k] != []
  {
    if n == 0 then [] else Extend(Groups(rows, n - 1), rows[n - 1])
  }

  function AllGroups(rows: seq<Row>): seq<seq<Row>> {
    Groups(rows, |rows|)
  }

  function FillsIn(group: seq<Row>): seq<Fill> {
    seq(|group|, k requires 0 <= k < |group| => group[k].fill)
  }

  /** Without a stored boundary a group may only start flat. */
  function NormalizeGroup(group: seq<Row>, boundary: Option<int>, market: Market): GroupResult {
    if boundary.Some? then Normalize(boundary, FillsIn(group), market)
    else if exists k :: 0 <= k < |group| && group[k].fill.startPosition == 0 then
      Normalize(Some(0), FillsIn(group), market)
    else Rejected(MissingBoundary)
  }

  // ---------------------------------------------------------------- the saved ledger

  /** A missing cursor row reads as a row of nulls. */
  datatype Cursor = Cursor(boundary: Option<int>, last: Option<int>, lastSourceEventId: Option<Id>)

  datatype Ledger = Ledger(events: seq<Event>, cursor: Cursor)

  const NO_CURSOR := Cursor(None, None, None)
  const EMPTY := Ledger([], NO_CURSOR)

  /** The unique key of an event row is its source event and ordinal; duplicates are skipped. */
  function InsertAll(stored: seq<Event>, added: seq<Event>, n: nat): seq<Event>
    requires n <= |added|
  {
    if n == 0 then stored
    else
      var s := InsertAll(stored, added, n - 1);
      if exists k :: 0 <= k < |s| && FingerprintOf(s[k]) == FingerprintOf(added[n - 1]) then s
      else s + [added[n - 1]]
  }

  function Save(l: Ledger, at: int, r: GroupResult): Ledger
    requires r.Normalized?
  {
    var last := if r.events == [] then None else Some(r.events[|r.events| - 1].sourceEventId);
    Ledger(InsertAll(l.events, r.events, |r.events|), Cursor(Some(r.afterPosition), Some(at), last))
  }

  datatype Issue = Issue(reason: Reason, at: Option<int>)

  /** How far a run over timestamp groups got. */
  datatype Progress = Progress(ledger: Ledger, processed: nat, blocked: Option<Issue>)

  function Run(l: Ledger, groups: seq<seq<Row>>, market: Market, n: nat): Progress
    requires n <= |groups| && forall k :: 0 <= k < |groups| ==> groups[k] != []
  {
    if n == 0 then Progress(l, 0, None)
    else
      var p := Run(l, groups, market, n - 1);
      if p.blocked.Some? then p
      else
        var group := groups[n - 1];
        var at := TimeOf(group[0]);
        var r := NormalizeGroup(group, p.ledger.cursor.boundary, market);
        match r
        case Rejected(reason) => p.(blocked := Some(Issue(reason, Some(at))))
        case Normalized(_, events, _) => Progress(Save(p.ledger, at, r), p.processed + |events|, None)
  }

  function Resolve(open: set<Issue>, at: int): set<Issue> {
    set i | i in open && i.at != Some(at)
  }

  /** The open issues after the same run: a saved group resolves its own, a rejected one opens one. */
  function OpenAfter(open: set<Issue>, l: Ledger, groups: seq<seq<Row>>, market: Market, n: nat): set<Issue>
    requires n <= |groups| && forall k :: 0 <= k < |groups| ==> groups[k] != []
  {
    if n == 0 then open
    else
      var before := OpenAfter(open, l, groups, market, n - 1);
      if Run(l, groups, market, n - 1).blocked.Some? then before
      else match Run(l, groups, market, n).blocked
        case Some(issue) => before + {issue}
        case None => Resolve(before, TimeOf(groups[n - 1][0]))
  }

  /** One pass over everything after the cursor. */
  function OnePass(l: Ledger, table: seq<Row>, market: Market): Progress {
    var groups := AllGroups(Remaining(table, l.cursor.last));
    Run(l, groups, market, |groups|)
  }

  // ---------------------------------------------------------------- one job

  datatype Outcome = NoOp | Completed | Continued | Blocked

  /** What the job finds around the fills: selection, upstream gap, the market with the collateral of
      its quote evidence if it has any, and the two size limits. */
  datatype Setting = Setting(selected: bool, historyGap: bool, market: Market, collateral: Option<Id>,
                             batch: nat, maxGroup: nat)

  datatype Step = Step(ledger: Ledger, outcome: Outcome, processed: nat, issue: Option<Issue>)

  predicate FeeConflict(rows: seq<Row>, collateral: Option<Id>) {
    collateral.Some? && exists k :: 0 <= k < |rows| && rows[k].feeToken != collateral.value
  }

  function ProcessPage(l: Ledger, page: Page, setting: Setting): Step {
    if page.fills == [] && page.incompleteAt.None? then Step(l, Completed, 0, None)
    else
      var from := if page.fills != [] then Some(TimeOf(page.fills[0])) else page.incompleteAt;
      if setting.historyGap then Step(l, Blocked, 0, Some(Issue(HistoryGap, from)))
      else if page.incompleteAt.Some? then
        Step(l, Blocked, 0, Some(Issue(IncompleteTimestampGroup, page.incompleteAt)))
      else if FeeConflict(page.fills, setting.collateral) then
        Step(l, Blocked, 0, Some(Issue(SourceInconsistent, from)))
      else
        var groups := AllGroups(page.fills);
        var p := Run(l, groups, setting.market, |groups|);
        Step(p.ledger, if p.blocked.Some? then Blocked else if page.hasMore then Continued else Completed,
             p.processed, p.blocked)
  }

  function Process(l: Ledger, table: seq<Row>, setting: Setting): Step
    requires setting.batch >= 1
  {
    if !setting.selected then Step(l, NoOp, 0, None)
    else ProcessPage(l, LoadFillPage(table, l.cursor.last, setting.batch, setting.maxGroup), setting)
  }

  /** The open issues after the same job. */
  function ProcessIssues(open: set<Issue>, l: Ledger, table: seq<Row>, setting: Setting): set<Issue>
    requires setting.batch >= 1
  {
    var page := LoadFillPage(table, l.cursor.last, setting.batch, setting.maxGroup);
    var step := Process(l, table, setting);
    if step.outcome == NoOp || (page.fills == [] && page.incompleteAt.None?) then open
    else if setting.historyGap || page.incompleteAt.Some? || FeeConflict(page.fills, setting.collateral) then
      open + (if step.issue.Some? then {step.issue.value} else {})
    else
      var groups := AllGroups(page.fills);
      OpenAfter(open, l, groups, setting.market, |groups|)
  }

  // ---------------------------------------------------------------- the late-fill rewind

  const MAX_LATE_REBUILD_EVENTS: nat := 50_000
  const MAX_LATE_REBUILD_MILLISECONDS: nat := 30 * 24 * 60 * 60 * 1_000

  predicate Affected(e: Event, from: int, last: Option<int>) {
    e.occurredAt >= from && (last.None? || e.occurredAt <= last.value)
  }

  function Surviving(events: seq<Event>, from: int, last: Option<int>, n: nat): seq<Event>
    requires n <= |events|
  {
    if n == 0 then []
    else Surviving(events, from, last, n - 1) + if Affected(events[n - 1], from, last) then [] else [events[n - 1]]
  }

  /** The order of the lookup: time, then ordinal, then the row's own id. */
  predicate Precedes(a: Event, b: Event, rowId: Event -> int) {
    || a.occurredAt < b.occurredAt
    || (a.occurredAt == b.occurredAt && a.sourceOrdinal < b.sourceOrdinal)
    || (a.occurredAt == b.occurredAt && a.sourceOrdinal == b.sourceOrdinal && rowId(a) < rowId(b))
  }

  /** The last event before `from` in the lookup order. */
  function Previous(events: seq<Event>, from: int, rowId: Event -> int, n: nat): Option<Event>
    requires n <= |events|
  {
    if n == 0 then None
    else
      var best := Previous(events, from, rowId, n - 1);
      var e := events[n - 1];
      if e.occurredAt < from && (best.None? || Precedes(best.value, e, rowId)) then Some(e) else best
  }

  function CursorAt(previous: Option<Event>): Cursor {
    match previous
    case None => NO_CURSOR
    case Some(e) => Cursor(Some(e.afterPosition), Some(e.occurredAt), Some(e.sourceEventId))
  }

  /** The rebuild is refused beyond 30 days or 50,000 events. */
  predicate Rewindable(l: Ledger, from: int) {
    && (l.cursor.last.Some? ==> l.cursor.last.value - from <= MAX_LATE_REBUILD_MILLISECONDS)
    && |l.events| - |Surviving(l.events, from, l.cursor.last, |l.events|)| <= MAX_LATE_REBUILD_EVENTS
  }

  function Rewound(l: Ledger, from: int, rowId: Event -> int): Ledger {
    Ledger(Surviving(l.events, from, l.cursor.last, |l.events|),
           CursorAt(Previous(l.events, from, rowId, |l.events|)))
  }
}
