/** Repeating the paged job until it stops is one pass over all timestamp groups. */
module PagingTheorems {

  import opened Sequences
  import opened BehaviorNormalization
  import opened BehaviorSpec

  // ---------------------------------------------------------------- the fills after a cursor

  ghost predicate Ascending(rows: seq<Row>) {
    forall i, j :: 0 <= i < j < |rows| ==> TimeOf(rows[i]) <= TimeOf(rows[j])
  }

  /** Selecting a contiguous stretch. */
  lemma {:induction false} SelectRange(rows: seq<Row>, keep: Row -> bool, lo: nat, hi: nat)
    requires lo <= hi <= |rows|
    requires forall k :: 0 <= k < |rows| ==> (keep(rows[k]) <==> lo <= k < hi)
    ensures Select(rows, keep) == rows[lo..hi]
  {
    if rows != [] {
      var rest := rows[1..];
      assert forall k :: 0 <= k < |rest| ==> rest[k] == rows[k + 1];
      if hi == 0 {
        SelectRange(rest, keep, 0, 0);
      } else if lo == 0 {
        SelectRange(rest, keep, 0, hi - 1);
        assert rows[0..hi] == [rows[0]] + rest[0..hi - 1];
      } else {
        SelectRange(rest, keep, lo - 1, hi - 1);
        assert rows[lo..hi] == rest[lo - 1..hi - 1];
      }
    }
  }

  /** How many rows lie at or before the cursor. */
  ghost function Done(table: seq<Row>, after: Option<int>): (n: nat)
    requires Ascending(table)
    ensures n <= |table|
    ensures forall k :: 0 <= k < n ==> !IsAfter(table[k], after)
    ensures forall k :: n <= k < |table| ==> IsAfter(table[k], after)
  {
    if table == [] || IsAfter(table[0], after) then 0 else 1 + Done(table[1..], after)
  }

  lemma RemainingIsSuffix(table: seq<Row>, after: Option<int>)
    requires Ascending(table)
    ensures Remaining(table, after) == table[Done(table, after)..]
  {
    hide Done;
    SelectRange(table, r => IsAfter(r, after), Done(table, after), |table|);
  }

  lemma DoneMonotone(table: seq<Row>, a: Option<int>, b: int)
    requires Ascending(table) && (a.Some? ==> a.value <= b)
    ensures Done(table, a) <= Done(table, Some(b))
  {
    hide Done;
    var x, y := Done(table, a), Done(table, Some(b));
    assert y < x ==> !IsAfter(table[y], a);
  }

  lemma GroupIsStretch(table: seq<Row>, at: int)
    requires Ascending(table)
    ensures Done(table, Some(at - 1)) <= Done(table, Some(at))
    ensures GroupAt(table, at) == table[Done(table, Some(at - 1))..Done(table, Some(at))]
  {
    hide Done;
    var lo, hi := Done(table, Some(at - 1)), Done(table, Some(at));
    DoneMonotone(table, Some(at - 1), at);
    SelectRange(table, r => TimeOf(r) == at, lo, hi);
  }

  // ---------------------------------------------------------------- pages

  ghost predicate NoOversizedGroup(table: seq<Row>, maxGroup: nat) {
    forall at :: |GroupAt(table, at)| <= maxGroup
  }

  /** The page is the first `m` of the remaining rows. */
  ghost predicate IsWholePage(rem: seq<Row>, page: Page, m: nat) {
    && m <= |rem| && page.fills == rem[..m] && page.incompleteAt == None
    && (0 < m < |rem| ==> TimeOf(rem[m - 1]) < TimeOf(rem[m]))
    && (if page.hasMore then m > 0 else m == |rem|)
  }

  /** A page takes a prefix of the remaining fills, ends between two timestamps, and is empty only
      when nothing remains. */
  lemma PageIsPrefix(table: seq<Row>, after: Option<int>, batch: nat, maxGroup: nat) returns (m: nat)
    requires batch >= 1 && Ascending(table) && NoOversizedGroup(table, maxGroup)
    ensures IsWholePage(Remaining(table, after), LoadFillPage(table, after, batch, maxGroup), m)
  {
    hide Done, Select;
    var d := Done(table, after);
    RemainingIsSuffix(table, after);
    var rem := Remaining(table, after);
    if |rem| <= batch {
      m := |rem|;
      assert rem[..m] == rem;
    } else if TimeOf(rem[batch]) != TimeOf(rem[batch - 1]) {
      m := batch;
      assert rem[..batch + 1][..batch] == rem[..m];
      assert TimeOf(table[d + batch - 1]) <= TimeOf(table[d + batch]);
    } else {
      m := GroupEndsPage(table, after, batch, maxGroup);
    }
  }

  lemma GroupEndsPage(table: seq<Row>, after: Option<int>, batch: nat, maxGroup: nat) returns (m: nat)
    requires batch >= 1 && Ascending(table) && NoOversizedGroup(table, maxGroup)
    requires var rem := Remaining(table, after);
      |rem| > batch && TimeOf(rem[batch]) == TimeOf(rem[batch - 1])
    ensures IsWholePage(Remaining(table, after), LoadFillPage(table, after, batch, maxGroup), m)
  {
    hide Done, Select, NoOversizedGroup;
    var rem := Remaining(table, after);
    var at := TimeOf(rem[batch - 1]);
    var d, lo, hi := GroupEnds(table, after, batch);
    var rows := Take(rem, batch + 1);
    assert rows == rem[..batch + 1] && rows[..batch] == rem[..batch];
    SelectRange(rem[..batch], r => TimeOf(r) < at, 0, lo - d);
    GroupFits(table, at, maxGroup);
    m := hi - d;
    JoinSlices(rem, batch, lo - d, m);
  }

  lemma SliceOfSuffix<T>(s: seq<T>, d: nat, lo: nat, hi: nat)
    requires d <= lo <= hi <= |s|
    ensures s[lo..hi] == s[d..][lo - d..hi - d]
  {
  }

  lemma JoinSlices<T>(s: seq<T>, n: nat, i: nat, j: nat)
    requires i <= n <= |s| && i <= j <= |s|
    ensures s[..n][0..i] + s[i..j] == s[..j]
  {
  }

  lemma GroupFits(table: seq<Row>, at: int, maxGroup: nat)
    requires NoOversizedGroup(table, maxGroup)
    ensures |GroupAt(table, at)| <= maxGroup
  {
  }

  /** The group that the page limit cuts: from row `lo` to row `hi`, all after the cursor at `d`. */
  lemma GroupEnds(table: seq<Row>, after: Option<int>, batch: nat) returns (d: nat, lo: nat, hi: nat)
    requires batch >= 1 && Ascending(table) && |Remaining(table, after)| >= batch
    ensures var rem := Remaining(table, after); var at := TimeOf(rem[batch - 1]);
      && d <= lo < d + batch <= hi <= |table| && rem == table[d..] && GroupAt(table, at) == rem[lo - d..hi - d]
      && (forall k :: 0 <= k < batch ==> (TimeOf(rem[k]) < at <==> k < lo - d))
      && (hi < |table| ==> TimeOf(table[hi - 1]) < TimeOf(table[hi]))
  {
    hide Done, Select;
    d := Done(table, after);
    RemainingIsSuffix(table, after);
    var rem := Remaining(table, after);
    var at := TimeOf(rem[batch - 1]);
    assert rem[batch - 1] == table[d + batch - 1];
    lo, hi := Done(table, Some(at - 1)), Done(table, Some(at));
    StretchHolds(table, at, d + batch - 1);
    DoneMonotone(table, after, at - 1);
    GroupIsStretch(table, at);
    forall k | 0 <= k < batch ensures TimeOf(rem[k]) < at <==> k < lo - d {
      assert rem[k] == table[d + k];
    }
    SliceOfSuffix(table, d, lo, hi);
  }

  lemma StretchHolds(table: seq<Row>, at: int, i: nat)
    requires Ascending(table) && i < |table| && TimeOf(table[i]) == at
    ensures Done(table, Some(at - 1)) <= i < Done(table, Some(at))
  {
    hide Done;
  }

  // ---------------------------------------------------------------- groups and runs over parts

  lemma {:induction false} LastGroupTime(rows: seq<Row>, n: nat)
    requires n <= |rows|
    ensures var gs := Groups(rows, n);
      n > 0 ==> gs != [] && TimeOf(gs[|gs| - 1][0]) == TimeOf(rows[n - 1])
  {
    if n > 0 { LastGroupTime(rows, n - 1); }
  }

  lemma {:induction false} GroupsPrefix(rows: seq<Row>, n: nat, m: nat)
    requires n <= m <= |rows|
    ensures Groups(rows[..m], n) == Groups(rows, n)
  {
    if n > 0 { GroupsPrefix(rows, n - 1, m); }
  }

  /** Cutting between two timestamps cuts the groups in the same place. */
  lemma {:induction false} GroupsConcat(rows: seq<Row>, m: nat, n: nat)
    requires m <= n <= |rows| && (0 < m < |rows| ==> TimeOf(rows[m - 1]) != TimeOf(rows[m]))
    ensures Groups(rows, n) == Groups(rows, m) + Groups(rows[m..], n - m)
    decreases n
  {
    hide Extend;
    if m < n {
      GroupsConcat(rows, m, n - 1);
      LastGroupTime(rows, m);
      LastGroupTime(rows[m..], n - 1 - m);
      ExtendConcat(Groups(rows, m), Groups(rows[m..], n - 1 - m), rows[n - 1]);
      assert rows[m..][n - 1 - m] == rows[n - 1];
    }
  }

  lemma ExtendConcat(a: seq<seq<Row>>, b: seq<seq<Row>>, row: Row)
    requires NonEmpty(a) && NonEmpty(b)
    requires b == [] && a != [] ==> TimeOf(a[|a| - 1][0]) != TimeOf(row)
    ensures Extend(a + b, row) == a + Extend(b, row)
  {
  }

  ghost predicate NonEmpty(groups: seq<seq<Row>>) {
    forall k :: 0 <= k < |groups| ==> groups[k] != []
  }

  lemma {:induction false} RunPrefix(l: Ledger, a: seq<seq<Row>>, b: seq<seq<Row>>, market: Market, n: nat)
    requires NonEmpty(a) && NonEmpty(b) && n <= |a|
    ensures NonEmpty(a + b) && Run(l, a + b, market, n) == Run(l, a, market, n)
  {
    hide NormalizeGroup, Save;
    if n > 0 { RunPrefix(l, a, b, market, n - 1); }
  }

  /** Two runs one after the other, the second from where the first one ended. */
  ghost function Then(p: Progress, q: Progress): Progress {
    if p.blocked.Some? then p else Progress(q.ledger, p.processed + q.processed, q.blocked)
  }

  lemma {:induction false} RunConcat(l: Ledger, a: seq<seq<Row>>, b: seq<seq<Row>>, market: Market, n: nat)
    requires NonEmpty(a) && NonEmpty(b) && n <= |b|
    ensures NonEmpty(a + b)
    ensures var p := Run(l, a, market, |a|);
      Run(l, a + b, market, |a| + n) == Then(p, Run(p.ledger, b, market, n))
  {
    hide NormalizeGroup, Save;
    RunPrefix(l, a, b, market, |a|);
    if n > 0 { RunConcat(l, a, b, market, n - 1); }
  }

  /** After an unblocked run the cursor stands at the last group. */
  lemma RunMovesCursor(l: Ledger, groups: seq<seq<Row>>, market: Market, n: nat)
    requires NonEmpty(groups) && 0 < n <= |groups| && Run(l, groups, market, n).blocked.None?
    ensures Run(l, groups, market, n).ledger.cursor.last == Some(TimeOf(groups[n - 1][0]))
  {
    hide NormalizeGroup, InsertAll;
  }

  // ---------------------------------------------------------------- repeating the job

  /** What a whole page leaves: a run over its rows, with the rest of the rows after the cursor. */
  lemma PageLeavesRest(l: Ledger, table: seq<Row>, market: Market, m: nat)
    requires Ascending(table)
    requires var rem := Remaining(table, l.cursor.last);
      0 < m <= |rem| && (m < |rem| ==> TimeOf(rem[m - 1]) < TimeOf(rem[m]))
    ensures var rem := Remaining(table, l.cursor.last);
      var groups := AllGroups(rem[..m]);
      var p := Run(l, groups, market, |groups|);
      p.blocked.None? ==> Remaining(table, p.ledger.cursor.last) == rem[m..]
  {
    hide Done, Select, Run, Groups;
    var d := Done(table, l.cursor.last);
    RemainingIsSuffix(table, l.cursor.last);
    var rem := Remaining(table, l.cursor.last);
    var groups := AllGroups(rem[..m]);
    LastGroupTime(rem[..m], m);
    var p := Run(l, groups, market, |groups|);
    if p.blocked.None? {
      RunMovesCursor(l, groups, market, |groups|);
      var at := TimeOf(rem[m - 1]);
      assert p.ledger.cursor.last == Some(at);
      RemainingIsSuffix(table, Some(at));
      StretchHolds(table, at, d + m - 1);
      assert Done(table, Some(at)) == d + m;
    }
  }

  ghost predicate Readable(table: seq<Row>, setting: Setting) {
    setting.batch >= 1 && Ascending(table) && NoOversizedGroup(table, setting.maxGroup)
  }

  /** Each continuation strictly shrinks the fills that remain. */
  lemma ContinuationShrinks(l: Ledger, table: seq<Row>, setting: Setting)
    requires Readable(table, setting) && Process(l, table, setting).outcome == Continued
    ensures |Remaining(table, Process(l, table, setting).ledger.cursor.last)| < |Remaining(table, l.cursor.last)|
  {
    hide Run, Select, Groups, LoadFillPage;
    var m := PageIsPrefix(table, l.cursor.last, setting.batch, setting.maxGroup);
    PageLeavesRest(l, table, setting.market, m);
  }

  /** The job repeated for as long as it asks to be continued. */
  ghost function Drive(l: Ledger, table: seq<Row>, setting: Setting): Step
    requires Readable(table, setting)
    decreases |Remaining(table, l.cursor.last)|
  {
    var step := Process(l, table, setting);
    if step.outcome != Continued then step
    else
      ContinuationShrinks(l, table, setting);
      var rest := Drive(step.ledger, table, setting);
      rest.(processed := step.processed + rest.processed)
  }

  ghost predicate GatesPass(table: seq<Row>, setting: Setting) {
    setting.selected && !setting.historyGap && !FeeConflict(table, setting.collateral)
  }

  ghost function AsStep(p: Progress): Step {
    Step(p.ledger, if p.blocked.Some? then Blocked else Completed, p.processed, p.blocked)
  }

  /** Paging refines one pass: same events, cursor, count and block point, for every batch size. */
  lemma {:induction false} PagingRefinesOnePass(l: Ledger, table: seq<Row>, setting: Setting)
    requires Readable(table, setting) && GatesPass(table, setting)
    ensures Drive(l, table, setting) == AsStep(OnePass(l, table, setting.market))
    decreases |Remaining(table, l.cursor.last)|
  {
    hide Run, Select, LoadFillPage, Groups, NoOversizedGroup, FeeConflict;
    var rem := Remaining(table, l.cursor.last);
    var m := PageIsPrefix(table, l.cursor.last, setting.batch, setting.maxGroup);
    var page := LoadFillPage(table, l.cursor.last, setting.batch, setting.maxGroup);
    NoFeeConflict(table, l.cursor.last, m, setting.collateral);
    OnePassSplits(l, table, setting.market, m);
    if page.fills == [] {
      assert rem == [];
      EmptyPass(l, table, setting.market);
    } else if Process(l, table, setting).outcome == Continued {
      ContinuationShrinks(l, table, setting);
      PagingRefinesOnePass(Process(l, table, setting).ledger, table, setting);
    } else if Process(l, table, setting).outcome == Completed {
      PageLeavesRest(l, table, setting.market, m);
      EmptyPass(Process(l, table, setting).ledger, table, setting.market);
    }
  }

  lemma EmptyPass(l: Ledger, table: seq<Row>, market: Market)
    requires Remaining(table, l.cursor.last) == []
    ensures OnePass(l, table, market) == Progress(l, 0, None)
  {
  }

  lemma NoFeeConflict(table: seq<Row>, after: Option<int>, m: nat, collateral: Option<Id>)
    requires Ascending(table) && !FeeConflict(table, collateral) && m <= |Remaining(table, after)|
    ensures !FeeConflict(Remaining(table, after)[..m], collateral)
  {
    hide Select, Done;
    RemainingIsSuffix(table, after);
    var d := Done(table, after);
    assert forall k :: 0 <= k < m ==> Remaining(table, after)[..m][k] == table[d + k];
  }

  /** One pass is the run over the first rows, then one pass over what they leave. */
  lemma OnePassSplits(l: Ledger, table: seq<Row>, market: Market, m: nat)
    requires Ascending(table)
    requires var rem := Remaining(table, l.cursor.last);
      m <= |rem| && (0 < m < |rem| ==> TimeOf(rem[m - 1]) < TimeOf(rem[m]))
    ensures var groups := AllGroups(Remaining(table, l.cursor.last)[..m]);
      var p := Run(l, groups, market, |groups|);
      OnePass(l, table, market) == Then(p, OnePass(p.ledger, table, market))
  {
    hide Run, Select, Groups;
    var rem := Remaining(table, l.cursor.last);
    var a, b := AllGroups(rem[..m]), AllGroups(rem[m..]);
    GroupsConcat(rem, m, |rem|);
    GroupsPrefix(rem, m, m);
    assert AllGroups(rem) == a + b;
    RunConcat(l, a, b, market, |b|);
    if m > 0 {
      PageLeavesRest(l, table, market, m);
    } else {
      EmptyRun(l, market);
      assert rem[m..] == rem && a == [] by { NoGroups(rem[..m]); }
    }
  }

  lemma EmptyRun(l: Ledger, market: Market)
    ensures Run(l, [], market, 0) == Progress(l, 0, None)
  {
  }

  lemma NoGroups(rows: seq<Row>)
    requires rows == []
    ensures AllGroups(rows) == []
  {
  }
}
