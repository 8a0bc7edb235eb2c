/** apps/api/src/performance-run-trust.ts: quarantining and restoring runs by compare-and-set, with an
    audit log. */
module RunTrust {

  // Each read of a call is a step of its own and may be stale when the call commits; the commit updates
  // the row and appends to the log as one step, or does neither.

  import opened Sequences

  type RunId = nat
  type OperationKey = nat

  datatype TrustState = Trusted | Quarantined

  datatype Row = Row(revision: nat, state: TrustState)

  datatype Transition = Transition(run: RunId, revision: nat, from: TrustState, to: TrustState,
                                   operationKey: OperationKey)

  datatype Result =
    | Completed(changed: bool, revision: nat, state: TrustState)
    | Conflict
    | Inconsistent
    | NotFound
    | InvalidChange
    | KeyTaken

  datatype Phase =
    | Begun
    | NoPriorOperation
    | RowRead(row: Row)
    | Ready(row: Row)
    | Done(result: Result)

  datatype Call = Call(run: RunId, toState: TrustState, operationKey: OperationKey, phase: Phase)

  datatype World = World(rows: map<RunId, Row>, log: seq<Transition>, calls: seq<Call>)

  /** `complete` says that actor, key and reason are not blank. */
  datatype Action =
    | CreateRun(run: RunId)
    | Begin(run: RunId, toState: TrustState, operationKey: OperationKey, complete: bool)
    | ReadOperation(call: nat)
    | ReadRow(call: nat)
    | ReadLatest(call: nat)
    | Commit(call: nat)

  // ---------------------------------------------------------------- reads

  function OfRun(run: RunId): Transition -> bool {
    (t: Transition) => t.run == run
  }

  /** The transitions of a run, oldest first. */
  function LogOf(log: seq<Transition>, run: RunId): seq<Transition> {
    Filter(OfRun(run), log)
  }

  function Latest(log: seq<Transition>, run: RunId): Option<Transition> {
    var own := LogOf(log, run);
    if own == [] then None else Some(own[|own| - 1])
  }

  function WithKey(log: seq<Transition>, key: OperationKey): Option<Transition> {
    if log == [] then None
    else if log[|log| - 1].operationKey == key then Some(log[|log| - 1])
    else WithKey(log[..|log| - 1], key)
  }

  /** The check of a row against the latest transition read with it. */
  predicate ReadConsistent(row: Row, latest: Option<Transition>) {
    || (row.revision == 0 && row.state == Trusted)
    || (latest.Some? && latest.value.revision == row.revision && latest.value.to == row.state)
  }

  // ---------------------------------------------------------------- steps

  function Put(w: World, c: nat, phase: Phase): World
    requires c < |w.calls|
  {
    w.(calls := w.calls[c := w.calls[c].(phase := phase)])
  }

  function Committed(w: World, c: nat, row: Row): World
    requires c < |w.calls|
  {
    var call := w.calls[c];
    if call.run !in w.rows || w.rows[call.run] != row then Put(w, c, Done(Conflict))
    else if WithKey(w.log, call.operationKey).Some? then Put(w, c, Done(KeyTaken))
    else
      var revision := row.revision + 1;
      var entry := Transition(call.run, revision, row.state, call.toState, call.operationKey);
      Put(w.(rows := w.rows[call.run := Row(revision, call.toState)], log := w.log + [entry]), c,
          Done(Completed(true, revision, call.toState)))
  }

  /** The step of one call; a step that is not enabled leaves the world as it is. */
  function CallStep(w: World, c: nat, a: Action): World
    requires c < |w.calls|
  {
    var call := w.calls[c];
    match a
    case ReadOperation(_) =>
      if call.phase != Begun then w
      else (
        match WithKey(w.log, call.operationKey)
        case None => Put(w, c, NoPriorOperation)
        case Some(t) =>
          var conflicts := t.run != call.run || t.to != call.toState;
          Put(w, c, Done(if conflicts then Conflict else Completed(false, t.revision, t.to)))
      )
    case ReadRow(_) =>
      if call.phase != NoPriorOperation then w
      else Put(w, c, if call.run in w.rows then RowRead(w.rows[call.run]) else Done(NotFound))
    case ReadLatest(_) =>
      if !call.phase.RowRead? then w
      else
        var row := call.phase.row;
        Put(w, c,
            if !ReadConsistent(row, Latest(w.log, call.run)) then Done(Inconsistent)
            else if row.state == call.toState then Done(Completed(false, row.revision, row.state))
            else Ready(row))
    case Commit(_) => if call.phase.Ready? then Committed(w, c, call.phase.row) else w
    case _ => w
  }

  function Perform(w: World, a: Action): World {
    match a
    case CreateRun(run) => if run in w.rows then w else w.(rows := w.rows[run := Row(0, Trusted)])
    case Begin(run, toState, key, complete) =>
      w.(calls := w.calls + [Call(run, toState, key, if complete then Begun else Done(InvalidChange))])
    case _ => if a.call < |w.calls| then CallStep(w, a.call, a) else w
  }

  const START: World := World(map[], [], [])

  function After(run: seq<Action>, n: nat): World
    requires n <= |run|
  {
    if n == 0 then START else Perform(After(run, n - 1), run[n - 1])
  }

  // ---------------------------------------------------------------- what every step keeps

  predicate Follows(own: seq<Transition>, k: nat)
    requires k < |own|
  {
    own[k].revision == k + 1 && own[k].from != own[k].to && own[k].from == if k == 0 then Trusted else own[k - 1].to
  }

  /** Revisions 1, 2, 3, ... without gap, each transition starting in the state the one before it led to
      and changing it, the first one from TRUSTED; the row is at the end of its log. */
  ghost predicate Ledger(row: Row, own: seq<Transition>) {
    && row.revision == |own|
    && row.state == (if own == [] then Trusted else own[|own| - 1].to)
    && forall k :: 0 <= k < |own| ==> Follows(own, k)
  }

  /** A call that reports a revision reports a logged one, or the one the run started with. */
  ghost predicate Reported(w: World, call: Call) {
    && (call.phase.Ready? ==> call.phase.row.state != call.toState)
    && (call.phase.Done? && call.phase.result.Completed? && call.phase.result.changed ==>
          exists k :: 0 <= k < |w.log| && IsEntryOf(w.log[k], call))
  }

  predicate IsEntryOf(t: Transition, call: Call) {
    && call.phase.Done? && call.phase.result.Completed?
    && t.run == call.run && t.operationKey == call.operationKey && t.to == call.toState == call.phase.result.state
    && t.revision == call.phase.result.revision
  }

  function KeyOf(t: Transition): int {
    t.operationKey
  }

  ghost predicate Kept(w: World) {
    && (forall run :: run in w.rows ==> Ledger(w.rows[run], LogOf(w.log, run)))
    && (forall run :: run !in w.rows ==> LogOf(w.log, run) == [])
    && DistinctKeys(KeyOf, w.log)
    && forall c :: 0 <= c < |w.calls| ==> Reported(w, w.calls[c])
  }

  lemma {:induction false} WithKeyMeaning(log: seq<Transition>, key: OperationKey)
    ensures match WithKey(log, key)
      case None => forall k :: 0 <= k < |log| ==> log[k].operationKey != key
      case Some(t) => t in log && t.operationKey == key
  {
    if log != [] {
      WithKeyMeaning(log[..|log| - 1], key);
      assert log == log[..|log| - 1] + [log[|log| - 1]];
    }
  }

  lemma LogGrows(log: seq<Transition>, t: Transition, run: RunId)
    ensures LogOf(log + [t], run) == LogOf(log, run) + if t.run == run then [t] else []
  {
    assert (log + [t])[..|log|] == log;
  }

  lemma LedgerGrows(row: Row, own: seq<Transition>, t: Transition)
    requires Ledger(row, own) && t.revision == row.revision + 1 && t.from == row.state && t.to != row.state
    ensures Ledger(Row(t.revision, t.to), own + [t])
  {
    var more := own + [t];
    forall k | 0 <= k < |more| ensures Follows(more, k) {
      if k < |own| { assert Follows(own, k); }
    }
  }

  lemma CommitKeeps(w: World, c: nat, row: Row)
    requires Kept(w) && c < |w.calls| && w.calls[c].phase == Ready(row)
    ensures Kept(Committed(w, c, row))
  {
    hide LogOf, WithKey, Ledger, Reported;
    var call, next := w.calls[c], Committed(w, c, row);
    ReadyDiffers(w, call);
    WithKeyMeaning(w.log, call.operationKey);
    if |next.log| > |w.log| {
      var t := next.log[|w.log|];
      forall run ensures LogOf(next.log, run) == if t.run == run then LogOf(w.log, run) + [t] else LogOf(w.log, run) {
        LogGrows(w.log, t, run);
        assert LogOf(w.log, run) + [] == LogOf(w.log, run);
      }
      LedgerOfRow(row, LogOf(w.log, call.run));
      LedgerGrows(row, LogOf(w.log, call.run), t);
      assert forall k :: 0 <= k < |w.log| ==> KeyOf(w.log[k]) != KeyOf(t);
      assert IsEntryOf(next.log[|w.log|], next.calls[c]);
    }
    NowReported(next, next.calls[c]);
    forall d | 0 <= d < |next.calls| ensures Reported(next, next.calls[d]) {
      if d != c {
        assert Reported(w, w.calls[d]);
        ReportStays(w, next, w.calls[d]);
      }
    }
  }

  lemma ReadyDiffers(w: World, call: Call)
    requires Reported(w, call) && call.phase.Ready?
    ensures call.phase.row.state != call.toState
  {
  }

  lemma LedgerOfRow(row: Row, own: seq<Transition>)
    requires Ledger(row, own)
    ensures row.revision == |own|
  {
  }

  lemma NowReported(w: World, call: Call)
    requires call.phase.Done? && call.phase.result.Completed? ==> w.log != [] && IsEntryOf(w.log[|w.log| - 1], call)
    requires !call.phase.Ready?
    ensures Reported(w, call)
  {
  }

  lemma ReportStays(w: World, next: World, call: Call)
    requires Reported(w, call) && |next.log| >= |w.log| && forall k :: 0 <= k < |w.log| ==> next.log[k] == w.log[k]
    ensures Reported(next, call)
  {
  }

  lemma StepKeeps(w: World, a: Action)
    requires Kept(w)
    ensures Kept(Perform(w, a))
  {
    hide LogOf, WithKey, Ledger, Committed;
    if a.CreateRun? {
      NothingLogged(a.run);
    }
    if a.Commit? && a.call < |w.calls| && w.calls[a.call].phase.Ready? {
      CommitKeeps(w, a.call, w.calls[a.call].phase.row);
    } else {
      var next := Perform(w, a);
      forall d | 0 <= d < |next.calls| ensures Reported(next, next.calls[d]) {
        if d < |w.calls| { assert Reported(w, w.calls[d]); }
      }
    }
  }

  lemma NothingLogged(run: RunId)
    ensures Ledger(Row(0, Trusted), [])
  {
  }

  /** From an empty store, every interleaving of quarantines and restores, whatever they read and when,
      keeps every log contiguous and alternating and every row at the end of its log. */
  lemma {:induction false} RunKeeps(run: seq<Action>, n: nat)
    requires n <= |run|
    ensures Kept(After(run, n))
  {
    hide Kept, Perform;
    if n > 0 {
      RunKeeps(run, n - 1);
      StepKeeps(After(run, n - 1), run[n - 1]);
    } else {
      assert Kept(START) by { StartKept(); }
    }
  }

  lemma StartKept()
    ensures Kept(START)
  {
  }

  // ---------------------------------------------------------------- consequences

  lemma {:induction false} StatesAlternate(own: seq<Transition>, k: nat)
    requires k < |own|
    requires forall i :: 0 <= i <= k ==> Follows(own, i)
    ensures own[k].to == if k % 2 == 0 then Quarantined else Trusted
  {
    assert Follows(own, k);
    if k > 0 { StatesAlternate(own, k - 1); }
  }

  /** In every run a row is trusted exactly at even revisions. */
  lemma TrustedAtEvenRevisions(run: seq<Action>, n: nat, id: RunId)
    requires n <= |run| && id in After(run, n).rows
    ensures After(run, n).rows[id].state == if After(run, n).rows[id].revision % 2 == 0 then Trusted else Quarantined
    ensures After(run, n).rows[id].revision == |LogOf(After(run, n).log, id)|
  {
    hide LogOf, After;
    RunKeeps(run, n);
    var own := LogOf(After(run, n).log, id);
    assert Ledger(After(run, n).rows[id], own);
    if own != [] { StatesAlternate(own, |own| - 1); }
  }

  /** Once an operation key is logged, no step of any call with that key changes a row or the log. */
  lemma LoggedKeyChangesNothing(w: World, a: Action)
    requires !a.CreateRun? && !a.Begin? && a.call < |w.calls| && WithKey(w.log, w.calls[a.call].operationKey).Some?
    ensures Perform(w, a).rows == w.rows && Perform(w, a).log == w.log
    ensures var call := w.calls[a.call];
      var t := WithKey(w.log, call.operationKey).value;
      a.ReadOperation? && call.phase == Begun ==>
        Perform(w, a).calls[a.call].phase
          == Done(if t.run == call.run && t.to == call.toState then Completed(false, t.revision, t.to) else Conflict)
  {
    hide WithKey, LogOf;
  }

  /** A change is logged once: no two entries share a key, and whoever reports a change has its entry. */
  lemma ChangesAreLoggedOnce(run: seq<Action>, n: nat, c: nat)
    requires n <= |run| && c < |After(run, n).calls|
    ensures var w := After(run, n); var call := w.calls[c];
      && DistinctKeys(KeyOf, w.log)
      && (call.phase.Done? && call.phase.result.Completed? && call.phase.result.changed ==>
            exists k :: 0 <= k < |w.log| && IsEntryOf(w.log[k], call))
  {
    hide After, LogOf;
    RunKeeps(run, n);
    assert Reported(After(run, n), After(run, n).calls[c]);
  }

  /** A row and its latest transition read at one moment are always consistent. */
  lemma ReadAtOneMomentPasses(run: seq<Action>, n: nat, id: RunId)
    requires n <= |run| && id in After(run, n).rows
    ensures ReadConsistent(After(run, n).rows[id], Latest(After(run, n).log, id))
  {
    hide LogOf, After;
    RunKeeps(run, n);
    var own := LogOf(After(run, n).log, id);
    assert Ledger(After(run, n).rows[id], own);
    assert own != [] ==> Follows(own, |own| - 1);
  }

  // ---------------------------------------------------------------- reads at two moments

  lemma {:induction false} LogOnlyGrows(run: seq<Action>, i: nat, j: nat)
    requires i <= j <= |run|
    ensures After(run, i).log <= After(run, j).log
    ensures forall id :: id in After(run, i).rows ==> id in After(run, j).rows
    decreases j
  {
    hide LogOf, WithKey;
    if i < j { LogOnlyGrows(run, i, j - 1); }
  }

  lemma {:induction false} LogOfPrefix(log: seq<Transition>, more: seq<Transition>, run: RunId)
    requires log <= more
    ensures LogOf(log, run) <= LogOf(more, run)
  {
    if |log| < |more| {
      LogOfPrefix(log, more[..|more| - 1], run);
    } else {
      assert log == more;
    }
  }

  /** A call that reads the row at one moment and the latest transition at a later one passes the check
      exactly when the run's log did not grow in between, or the row was still in its first state. */
  lemma StaleReadExactlyWhen(run: seq<Action>, i: nat, j: nat, id: RunId)
    requires i <= j <= |run| && id in After(run, i).rows
    ensures var row := After(run, i).rows[id];
      ReadConsistent(row, Latest(After(run, j).log, id)) <==>
        row == Row(0, Trusted) || |LogOf(After(run, j).log, id)| == |LogOf(After(run, i).log, id)|
  {
    hide LogOf, After;
    RunKeeps(run, i);
    RunKeeps(run, j);
    LogOnlyGrows(run, i, j);
    LogOfPrefix(After(run, i).log, After(run, j).log, id);
    var before, after := LogOf(After(run, i).log, id), LogOf(After(run, j).log, id);
    assert Ledger(After(run, i).rows[id], before) && Ledger(After(run, j).rows[id], after);
    assert after != [] ==> Follows(after, |after| - 1);
  }

  // ---------------------------------------------------------------- a stale read that fails

  const QUARANTINE := Transition(0, 1, Trusted, Quarantined, 1)
  const RESTORE := Transition(0, 2, Quarantined, Trusted, 2)

  /** A run is quarantined; two calls begin to restore it and read its row; the first one commits before the
      second one reads the latest transition. */
  const RACE: seq<Action> := [
    CreateRun(0), Begin(0, Quarantined, 1, true), ReadOperation(0), ReadRow(0), ReadLatest(0), Commit(0),
    Begin(0, Trusted, 2, true), Begin(0, Trusted, 3, true), ReadOperation(1), ReadRow(1), ReadOperation(2), ReadRow(2),
    ReadLatest(1), Commit(1), ReadLatest(2)]

  lemma LogLookups()
    ensures forall key :: WithKey([], key) == None
    ensures forall key :: key != 1 ==> WithKey([QUARANTINE], key) == None
    ensures Latest([], 0) == None && Latest([QUARANTINE], 0) == Some(QUARANTINE)
    ensures Latest([QUARANTINE, RESTORE], 0) == Some(RESTORE)
  {
    assert [QUARANTINE][..0] == [];
    LogGrows([], QUARANTINE, 0);
    LogGrows([QUARANTINE], RESTORE, 0);
    assert [] + [QUARANTINE] == [QUARANTINE] && [QUARANTINE] + [RESTORE] == [QUARANTINE, RESTORE];
    assert LogOf([], 0) == [];
  }

  lemma OneStep(n: nat, w: World)
    requires n < |RACE| && After(RACE, n) == w
    ensures After(RACE, n + 1) == Perform(w, RACE[n])
  {
  }

  function OneRun(row: Row, log: seq<Transition>, calls: seq<Call>): World {
    World(map[0 := row], log, calls)
  }

  const QUARANTINED_BY := Call(0, Quarantined, 1, Done(Completed(true, 1, Quarantined)))
  const RESTORED_BY := Call(0, Trusted, 2, Done(Completed(true, 2, Trusted)))

  lemma RaceQuarantines()
    ensures After(RACE, 6) == OneRun(Row(1, Quarantined), [QUARANTINE], [QUARANTINED_BY])
  {
    hide WithKey, Latest;
    LogLookups();
    var row := Row(0, Trusted);
    assert After(RACE, 0) == START;
    OneStep(0, START);
    assert After(RACE, 1) == OneRun(row, [], []);
    OneStep(1, OneRun(row, [], []));
    assert After(RACE, 2) == OneRun(row, [], [Call(0, Quarantined, 1, Begun)]);
    OneStep(2, After(RACE, 2));
    assert After(RACE, 3) == OneRun(row, [], [Call(0, Quarantined, 1, NoPriorOperation)]);
    OneStep(3, After(RACE, 3));
    assert After(RACE, 4) == OneRun(row, [], [Call(0, Quarantined, 1, RowRead(row))]);
    OneStep(4, After(RACE, 4));
    assert After(RACE, 5) == OneRun(row, [], [Call(0, Quarantined, 1, Ready(row))]);
    OneStep(5, After(RACE, 5));
  }

  /** The quarantined run with its two restoring calls in the phases given. */
  function TwoRestores(first: Phase, second: Phase): World {
    OneRun(Row(1, Quarantined), [QUARANTINE], [QUARANTINED_BY, Call(0, Trusted, 2, first), Call(0, Trusted, 3, second)])
  }

  lemma RaceReads()
    ensures After(RACE, 12) == TwoRestores(RowRead(Row(1, Quarantined)), RowRead(Row(1, Quarantined)))
  {
    hide WithKey, Latest, After;
    LogLookups();
    RaceQuarantines();
    var row := Row(1, Quarantined);
    OneStep(6, After(RACE, 6));
    OneStep(7, After(RACE, 7));
    assert After(RACE, 8) == TwoRestores(Begun, Begun);
    OneStep(8, After(RACE, 8));
    assert After(RACE, 9) == TwoRestores(NoPriorOperation, Begun);
    OneStep(9, After(RACE, 9));
    assert After(RACE, 10) == TwoRestores(RowRead(row), Begun);
    OneStep(10, After(RACE, 10));
    assert After(RACE, 11) == TwoRestores(RowRead(row), NoPriorOperation);
    OneStep(11, After(RACE, 11));
  }

  /** The second restoring call reports an inconsistency although every ledger is kept. */
  lemma RaceReportsInconsistency()
    ensures After(RACE, 12) == TwoRestores(RowRead(Row(1, Quarantined)), RowRead(Row(1, Quarantined)))
    ensures Kept(After(RACE, 14)) && !ReadConsistent(Row(1, Quarantined), Latest(After(RACE, 14).log, 0))
    ensures After(RACE, 15) == OneRun(Row(2, Trusted), [QUARANTINE, RESTORE],
      [QUARANTINED_BY, RESTORED_BY, Call(0, Trusted, 3, Done(Inconsistent))])
  {
    hide WithKey, Latest, After, Kept;
    LogLookups();
    RaceReads();
    RunKeeps(RACE, 14);
    var row := Row(1, Quarantined);
    OneStep(12, After(RACE, 12));
    assert After(RACE, 13) == TwoRestores(Ready(row), RowRead(row));
    OneStep(13, After(RACE, 13));
    assert [QUARANTINE] + [RESTORE] == [QUARANTINE, RESTORE];
    assert After(RACE, 14) == OneRun(Row(2, Trusted), [QUARANTINE, RESTORE],
                                     [QUARANTINED_BY, RESTORED_BY, Call(0, Trusted, 3, RowRead(row))]);
    OneStep(14, After(RACE, 14));
  }

  // ---------------------------------------------------------------- the paged lookup

  /** A succeeded run as the lookup selects it. */
  datatype Candidate = Candidate(id: RunId, row: Row, latest: Option<Transition>)

  datatype Lookup = Found(id: RunId) | NoneTrusted | Broken(id: RunId)

  /** The verdict of one scan of the whole ordered list, from the `n`th candidate on. */
  function Scan(list: seq<Candidate>, n: nat): Lookup
    requires n <= |list|
    decreases |list| - n
  {
    if n == |list| then NoneTrusted
    else if !ReadConsistent(list[n].row, list[n].latest) then Broken(list[n].id)
    else if list[n].row.state == Trusted then Found(list[n].id)
    else Scan(list, n + 1)
  }

  function IndexOf(list: seq<Candidate>, id: RunId): nat {
    if list == [] || list[0].id == id then 0 else 1 + IndexOf(list[1..], id)
  }

  /** The query for a page: the candidates after the cursor, at most `take`. */
  function Page(list: seq<Candidate>, cursor: Option<RunId>, take: nat): seq<Candidate> {
    var skip := if cursor.None? then 0 else IndexOf(list, cursor.value) + 1;
    if skip >= |list| then [] else if skip + take >= |list| then list[skip..] else list[skip..skip + take]
  }

  ghost predicate DistinctCandidates(list: seq<Candidate>) {
    forall i, j :: 0 <= i < j < |list| ==> list[i].id != list[j].id
  }

  lemma {:induction false} IndexOfNth(list: seq<Candidate>, k: nat)
    requires DistinctCandidates(list) && k < |list|
    ensures IndexOf(list, list[k].id) == k
  {
    if k > 0 { IndexOfNth(list[1..], k - 1); }
  }

  /** The page after the first `seen` candidates. */
  lemma PageAfter(list: seq<Candidate>, cursor: Option<RunId>, take: nat, seen: nat)
    requires DistinctCandidates(list) && seen <= |list|
    requires if seen == 0 then cursor == None else cursor == Some(list[seen - 1].id)
    ensures Page(list, cursor, take) == if seen + take >= |list| then list[seen..] else list[seen..seen + take]
  {
    hide IndexOf;
    if seen > 0 { IndexOfNth(list, seen - 1); }
  }

  method ScanPage(list: seq<Candidate>, ghost seen: nat, candidates: seq<Candidate>) returns (decided: Option<Lookup>)
    requires seen + |candidates| <= |list| && forall i :: 0 <= i < |candidates| ==> candidates[i] == list[seen + i]
    ensures decided.Some? ==> decided.value == Scan(list, seen)
    ensures decided.None? ==> Scan(list, seen) == Scan(list, seen + |candidates|)
  {
    hide ReadConsistent;
    for i := 0 to |candidates|
      invariant Scan(list, seen) == Scan(list, seen + i)
    {
      var candidate := candidates[i];
      if !ReadConsistent(candidate.row, candidate.latest) { return Some(Broken(candidate.id)); }
      if candidate.row.state == Trusted { return Some(Found(candidate.id)); }
    }
    decided := None;
  }

  /** Looking page by page gives the verdict of scanning the whole list, whatever the page size. */
  method FindCurrentTrusted(list: seq<Candidate>, batch: nat) returns (r: Lookup)
    requires DistinctCandidates(list) && batch >= 1
    ensures r == Scan(list, 0)
  {
    hide Page, Scan, DistinctCandidates;
    var cursor: Option<RunId> := None;
    ghost var seen: nat := 0;
    while true
      invariant seen <= |list| && Scan(list, 0) == Scan(list, seen)
      invariant if seen == 0 then cursor == None else cursor == Some(list[seen - 1].id)
      decreases |list| - seen
    {
      PageAfter(list, cursor, batch, seen);
      var candidates := Page(list, cursor, batch);
      var decided := ScanPage(list, seen, candidates);
      if decided.Some? { return decided.value; }
      seen := seen + |candidates|;
      if |candidates| < batch {
        ScanEnd(list);
        return NoneTrusted;
      }
      cursor := Some(candidates[|candidates| - 1].id);
    }
  }

  lemma ScanEnd(list: seq<Candidate>)
    ensures Scan(list, |list|) == NoneTrusted
  {
  }

  lemma {:induction false} ScanMeaning(list: seq<Candidate>, n: nat)
    requires n <= |list| && forall k :: 0 <= k < |list| ==> ReadConsistent(list[k].row, list[k].latest)
    ensures match Scan(list, n)
      case Found(id) => exists k :: n <= k < |list| && list[k].id == id && list[k].row.state == Trusted
                                    && forall j :: n <= j < k ==> list[j].row.state == Quarantined
      case NoneTrusted => forall j :: n <= j < |list| ==> list[j].row.state == Quarantined
      case Broken(_) => false
    decreases |list| - n
  {
    if n < |list| && list[n].row.state == Quarantined {
      ScanMeaning(list, n + 1);
    }
  }

  /** Over every run: the lookup over rows of one moment finds the first trusted run of the whole list, or
      that there is none; it never stops at an inconsistent one. */
  lemma LookupFindsFirstTrusted(run: seq<Action>, n: nat, list: seq<Candidate>)
    requires n <= |run|
    requires forall k :: 0 <= k < |list| ==>
      list[k].id in After(run, n).rows && list[k].row == After(run, n).rows[list[k].id]
      && list[k].latest == Latest(After(run, n).log, list[k].id)
    ensures match Scan(list, 0)
      case Found(id) => exists k :: 0 <= k < |list| && list[k].id == id && list[k].row.state == Trusted
                                    && forall j :: 0 <= j < k ==> list[j].row.state == Quarantined
      case NoneTrusted => forall j :: 0 <= j < |list| ==> list[j].row.state == Quarantined
      case Broken(_) => false
  {
    hide After, Latest, ReadConsistent;
    forall k | 0 <= k < |list| ensures ReadConsistent(list[k].row, list[k].latest) {
      ReadAtOneMomentPasses(run, n, list[k].id);
    }
    ScanMeaning(list, 0);
  }
}
