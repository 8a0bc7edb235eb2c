/** apps/worker/src/hyperliquid/keyed-serial-executor.ts: calls on one key chain on the tail of the call
    before them. */
module SerialExecutor {

  // A call arrives (everything up to its first `await`), starts its operation when the tail it waits for
  // has resolved, and finishes, by returning or throwing, in its `finally` block. A call is known by its
  // number in order of arrival, which also stands for its tail promise.

  import opened Sequences

  type Key = nat

  datatype Phase = Queued | Running | Finished(threw: bool)

  datatype Call = Call(key: Key, previous: Option<nat>, phase: Phase, started: Option<nat>, finished: Option<nat>)

  datatype World = World(tick: nat, tails: map<Key, nat>, calls: seq<Call>)

  datatype Action = Arrive(key: Key) | Start(call: nat) | Finish(call: nat, threw: bool)

  // ---------------------------------------------------------------- the steps

  /** The tail of a call resolves once the tail before it has and its own gate is open. */
  predicate TailResolved(w: World, c: nat)
    requires c < |w.calls|
    decreases c
  {
    && w.calls[c].phase.Finished?
    && match w.calls[c].previous
       case None => true
       case Some(p) => p < c && TailResolved(w, p)
  }

  predicate CanStart(w: World, c: nat) {
    && c < |w.calls| && w.calls[c].phase == Queued
    && match w.calls[c].previous
       case None => true
       case Some(p) => p < |w.calls| && TailResolved(w, p)
  }

  predicate CanFinish(w: World, c: nat) {
    c < |w.calls| && w.calls[c].phase == Running
  }

  function Arrived(w: World, key: Key): World {
    var previous := if key in w.tails then Some(w.tails[key]) else None;
    w.(tails := w.tails[key := |w.calls|], calls := w.calls + [Call(key, previous, Queued, None, None)])
  }

  function Ended(w: World, c: nat, threw: bool): World
    requires c < |w.calls|
  {
    var call := w.calls[c];
    var calls := w.calls[c := call.(phase := Finished(threw), finished := Some(w.tick))];
    if call.key in w.tails && w.tails[call.key] == c then w.(calls := calls, tails := w.tails - {call.key})
    else w.(calls := calls)
  }

  /** A step that is not enabled leaves the world as it is. */
  function Perform(w: World, a: Action): World {
    var next :=
      match a
      case Arrive(key) => Arrived(w, key)
      case Start(c) =>
        if CanStart(w, c) then w.(calls := w.calls[c := w.calls[c].(phase := Running, started := Some(w.tick))]) else w
      case Finish(c, threw) => if CanFinish(w, c) then Ended(w, c, threw) else w;
    next.(tick := w.tick + 1)
  }

  const START: World := World(0, map[], [])

  function After(run: seq<Action>, n: nat): World
    requires n <= |run|
  {
    if n == 0 then START else Perform(After(run, n - 1), run[n - 1])
  }

  // ---------------------------------------------------------------- what every step keeps

  /** Nothing on the key arrived after the call. */
  predicate Latest(w: World, c: nat)
    requires c < |w.calls|
  {
    forall d :: c < d < |w.calls| ==> w.calls[d].key != w.calls[c].key
  }

  /** A call waits for the call on its key just before it, or every earlier one had finished. */
  predicate Chained(w: World, c: nat)
    requires c < |w.calls|
  {
    match w.calls[c].previous
    case None => forall d :: 0 <= d < c && w.calls[d].key == w.calls[c].key ==> w.calls[d].phase.Finished?
    case Some(p) =>
      && p < c && w.calls[p].key == w.calls[c].key
      && forall d :: p < d < c ==> w.calls[d].key != w.calls[c].key
  }

  predicate Moments(call: Call, tick: nat) {
    && (call.phase == Queued <==> call.started.None?) && (call.phase.Finished? <==> call.finished.Some?)
    && (call.started.Some? ==> call.started.value < tick)
    && (call.finished.Some? ==> call.started.Some? && call.started.value < call.finished.value < tick)
  }

  /** A call that has started comes after the end of every earlier call on its key. */
  predicate AfterEarlier(w: World, c: nat)
    requires c < |w.calls|
  {
    w.calls[c].started.Some? ==>
      forall d :: 0 <= d < c && w.calls[d].key == w.calls[c].key ==>
        w.calls[d].finished.Some? && w.calls[d].finished.value < w.calls[c].started.value
  }

  predicate CallKept(w: World, c: nat)
    requires c < |w.calls|
  {
    Chained(w, c) && Moments(w.calls[c], w.tick) && AfterEarlier(w, c)
  }

  /** The stored tail of a key is its latest call, and unfinished. */
  predicate TailKept(w: World, key: Key) {
    key in w.tails ==>
      w.tails[key] < |w.calls| && w.calls[w.tails[key]].key == key && !w.calls[w.tails[key]].phase.Finished?
      && Latest(w, w.tails[key])
  }

  predicate Waited(w: World, c: nat)
    requires c < |w.calls|
  {
    w.calls[c].phase.Finished? || w.calls[c].key in w.tails
  }

  ghost predicate Kept(w: World) {
    && (forall c :: 0 <= c < |w.calls| ==> CallKept(w, c))
    && (forall key :: TailKept(w, key))
    && forall c :: 0 <= c < |w.calls| ==> Waited(w, c)
  }

  /** A call that can start finds every earlier call on its key finished. */
  lemma StartsInTurn(w: World, c: nat)
    requires Kept(w) && CanStart(w, c)
    ensures forall d :: 0 <= d < c && w.calls[d].key == w.calls[c].key ==>
      w.calls[d].finished.Some? && w.calls[d].finished.value < w.tick
  {
    assert CallKept(w, c);
    forall d | 0 <= d < c && w.calls[d].key == w.calls[c].key
      ensures w.calls[d].finished.Some? && w.calls[d].finished.value < w.tick
    {
      assert CallKept(w, d);
      if w.calls[c].previous.Some? {
        var p := w.calls[c].previous.value;
        assert CallKept(w, p) && w.calls[p].phase.Finished?;
        assert d <= p;
      }
    }
  }

  lemma LaterMoments(call: Call, tick: nat)
    requires Moments(call, tick)
    ensures Moments(call, tick + 1)
  {
  }

  lemma ArriveKeepsCall(w: World, key: Key, c: nat)
    requires Kept(w) && c < |w.calls|
    ensures var next := Perform(w, Arrive(key)); CallKept(next, c) && Waited(next, c)
  {
    hide Moments;
    assert CallKept(w, c) && Waited(w, c);
    LaterMoments(w.calls[c], w.tick);
  }

  lemma ArrivedKept(w: World, key: Key)
    requires Kept(w)
    ensures var next := Perform(w, Arrive(key)); CallKept(next, |w.calls|) && Waited(next, |w.calls|)
  {
    assert TailKept(w, key);
    forall d | 0 <= d < |w.calls| && w.calls[d].key == key ensures key in w.tails || w.calls[d].phase.Finished? {
      assert Waited(w, d);
    }
  }

  lemma ArriveKeeps(w: World, key: Key)
    requires Kept(w)
    ensures Kept(Perform(w, Arrive(key)))
  {
    hide CallKept, Waited;
    var next := Perform(w, Arrive(key));
    forall c | 0 <= c < |next.calls| ensures CallKept(next, c) && Waited(next, c) {
      if c < |w.calls| { ArriveKeepsCall(w, key, c); } else { ArrivedKept(w, key); }
    }
    forall k ensures TailKept(next, k) {
      assert TailKept(w, k);
    }
  }

  /** One call went on; all else in the list is as it was. */
  predicate Moved(w: World, next: World, c: nat) {
    && c < |w.calls| && next.tick == w.tick + 1 && |next.calls| == |w.calls|
    && (forall d :: 0 <= d < |w.calls| && d != c ==> next.calls[d] == w.calls[d])
    && next.calls[c].key == w.calls[c].key && next.calls[c].previous == w.calls[c].previous
    && !w.calls[c].phase.Finished? && Moments(next.calls[c], next.tick)
  }

  lemma MovedKeepsChain(w: World, next: World, c: nat, d: nat)
    requires Moved(w, next, c) && d < |w.calls| && Chained(w, d)
    ensures Chained(next, d)
  {
    hide Moments;
  }

  lemma MovedKeepsOrder(w: World, next: World, c: nat, d: nat)
    requires Moved(w, next, c) && d < |w.calls| && AfterEarlier(w, d) && Moments(w.calls[c], w.tick)
    requires next.calls[c].started != w.calls[c].started ==> d != c
    ensures AfterEarlier(next, d)
  {
  }

  lemma MovedKeepsTails(w: World, next: World, c: nat, key: Key)
    requires Moved(w, next, c) && TailKept(w, key)
      && (key in next.tails ==> key in w.tails && next.tails[key] == w.tails[key])
    requires key in next.tails && next.tails[key] == c ==> !next.calls[c].phase.Finished?
    ensures TailKept(next, key)
  {
    hide Moments;
  }

  lemma StartKeeps(w: World, c: nat)
    requires Kept(w)
    ensures Kept(Perform(w, Start(c)))
  {
    hide Moments, TailResolved;
    var next := Perform(w, Start(c));
    if CanStart(w, c) {
      StartsInTurn(w, c);
      StartMoments(w, c);
      assert Moved(w, next, c);
    }
    forall d | 0 <= d < |next.calls| ensures CallKept(next, d) && Waited(next, d) {
      assert CallKept(w, d) && Waited(w, d);
      LaterMoments(w.calls[d], w.tick);
      if CanStart(w, c) {
        MovedKeepsChain(w, next, c, d);
        if d != c {
          assert CallKept(w, c);
          MovedKeepsOrder(w, next, c, d);
        }
      }
    }
    forall key ensures TailKept(next, key) {
      assert TailKept(w, key);
      if CanStart(w, c) { MovedKeepsTails(w, next, c, key); }
    }
  }

  lemma StartMoments(w: World, c: nat)
    requires Kept(w) && c < |w.calls| && w.calls[c].phase == Queued
    ensures Moments(w.calls[c].(phase := Running, started := Some(w.tick)), w.tick + 1)
  {
    assert CallKept(w, c);
  }

  lemma FinishMoments(w: World, c: nat, threw: bool)
    requires Kept(w) && CanFinish(w, c)
    ensures Moments(w.calls[c].(phase := Finished(threw), finished := Some(w.tick)), w.tick + 1)
  {
    assert CallKept(w, c);
  }

  lemma FinishKeeps(w: World, c: nat, threw: bool)
    requires Kept(w)
    ensures Kept(Perform(w, Finish(c, threw)))
  {
    hide Moments;
    var next := Perform(w, Finish(c, threw));
    if CanFinish(w, c) {
      FinishMoments(w, c, threw);
      LastOneOut(w, c);
      assert Moved(w, next, c);
    }
    forall d | 0 <= d < |next.calls| ensures CallKept(next, d) && Waited(next, d) {
      assert CallKept(w, d) && Waited(w, d);
      LaterMoments(w.calls[d], w.tick);
      if CanFinish(w, c) {
        assert CallKept(w, c);
        MovedKeepsChain(w, next, c, d);
        MovedKeepsOrder(w, next, c, d);
      }
    }
    forall key ensures TailKept(next, key) {
      assert TailKept(w, key);
      if CanFinish(w, c) { MovedKeepsTails(w, next, c, key); }
    }
  }

  /** When the running call's own tail is the stored one, no other call on its key is left. */
  lemma LastOneOut(w: World, c: nat)
    requires Kept(w) && CanFinish(w, c)
    ensures var key := w.calls[c].key;
      key in w.tails && (w.tails[key] == c ==>
        forall d :: 0 <= d < |w.calls| && d != c && w.calls[d].key == key ==> w.calls[d].phase.Finished?)
  {
    var key := w.calls[c].key;
    assert CallKept(w, c) && Waited(w, c) && TailKept(w, key);
    if w.tails[key] == c {
      forall d | 0 <= d < |w.calls| && d != c && w.calls[d].key == key ensures w.calls[d].phase.Finished? {
        assert CallKept(w, d);
      }
    }
  }

  lemma {:induction false} RunKeeps(run: seq<Action>, n: nat)
    requires n <= |run|
    ensures Kept(After(run, n)) && After(run, n).tick == n
  {
    hide Kept;
    if n > 0 {
      RunKeeps(run, n - 1);
      match run[n - 1] {
        case Arrive(key) => ArriveKeeps(After(run, n - 1), key);
        case Start(c) => StartKeeps(After(run, n - 1), c);
        case Finish(c, threw) => FinishKeeps(After(run, n - 1), c, threw);
      }
    } else {
      assert Kept(START) by { NothingKept(); }
    }
  }

  lemma NothingKept()
    ensures Kept(START)
  {
  }

  // ---------------------------------------------------------------- the theorems

  /** In every run, of two calls on a key the later one starts only after the earlier one has finished,
      whether that returned or threw: operations never overlap and start in order of arrival. */
  lemma OneAtATimeInOrder(run: seq<Action>, n: nat, c: nat, d: nat)
    requires n <= |run| && c < d < |After(run, n).calls| && After(run, n).calls[c].key == After(run, n).calls[d].key
    ensures var x, y := After(run, n).calls[c], After(run, n).calls[d];
      && !(x.phase == Running && y.phase == Running)
      && (y.started.Some? ==> x.started.Some? && x.finished.Some?
                              && x.started.value < x.finished.value < y.started.value)
  {
    RunKeeps(run, n);
    var w := After(run, n);
    assert CallKept(w, d) && CallKept(w, c);
  }

  /** The map holds a tail for a key exactly while a call on it is queued or running. */
  lemma TailsHoldWaitingKeys(run: seq<Action>, n: nat, key: Key)
    requires n <= |run|
    ensures key in After(run, n).tails <==>
      exists c :: 0 <= c < |After(run, n).calls| && After(run, n).calls[c].key == key
          && !After(run, n).calls[c].phase.Finished?
  {
    RunKeeps(run, n);
    var w := After(run, n);
    assert TailKept(w, key);
    if c :| 0 <= c < |w.calls| && w.calls[c].key == key && !w.calls[c].phase.Finished? { assert Waited(w, c); }
  }

  /** How many starts and finishes of a call are still to come. */
  function Left(call: Call): nat {
    match call.phase
    case Queued => 2
    case Running => 1
    case Finished(_) => 0
  }

  function Work(calls: seq<Call>): nat {
    if calls == [] then 0 else Work(calls[..|calls| - 1]) + Left(calls[|calls| - 1])
  }

  lemma {:induction false} WorkUpdate(calls: seq<Call>, c: nat, call: Call)
    requires c < |calls|
    requires (calls[c].phase == Queued && call.phase == Running) || (calls[c].phase == Running && call.phase.Finished?)
    ensures Work(calls[c := call]) == Work(calls) - 1
  {
    var n := |calls| - 1;
    if c < n {
      assert calls[c := call][..n] == calls[..n][c := call];
      WorkUpdate(calls[..n], c, call);
    } else {
      assert calls[c := call][..n] == calls[..n];
    }
  }

  lemma {:induction false} NoWorkLeft(calls: seq<Call>)
    ensures Work(calls) == 0 <==> forall c :: 0 <= c < |calls| ==> calls[c].phase.Finished?
  {
    if calls != [] {
      NoWorkLeft(calls[..|calls| - 1]);
      assert forall c :: 0 <= c < |calls| - 1 ==> calls[..|calls| - 1][c] == calls[c];
    }
  }

  /** The tail of a finished call has resolved. */
  lemma {:induction false} FinishedResolves(w: World, c: nat)
    requires Kept(w) && c < |w.calls| && w.calls[c].phase.Finished?
    ensures TailResolved(w, c)
    decreases c
  {
    assert CallKept(w, c);
    if w.calls[c].previous.Some? {
      var p := w.calls[c].previous.value;
      assert CallKept(w, p);
      FinishedResolves(w, p);
    }
  }

  /** The first unfinished call on a key runs or can start. */
  lemma {:induction false} SomeoneCanMove(w: World, c: nat) returns (d: nat)
    requires Kept(w) && c < |w.calls| && !w.calls[c].phase.Finished?
    ensures d < |w.calls| && w.calls[d].key == w.calls[c].key && (CanStart(w, d) || CanFinish(w, d))
    decreases c
  {
    assert CallKept(w, c);
    if w.calls[c].phase == Queued && w.calls[c].previous.Some? && !w.calls[w.calls[c].previous.value].phase.Finished? {
      d := SomeoneCanMove(w, w.calls[c].previous.value);
    } else {
      d := c;
      if w.calls[c].phase == Queued && w.calls[c].previous.Some? { FinishedResolves(w, w.calls[c].previous.value); }
    }
  }

  /** A start or finish that is enabled. */
  predicate Useful(w: World, a: Action) {
    match a
    case Arrive(_) => false
    case Start(c) => CanStart(w, c)
    case Finish(c, _) => CanFinish(w, c)
  }

  lemma UsefulTakesWork(w: World, a: Action)
    requires Useful(w, a)
    ensures Work(Perform(w, a).calls) == Work(w.calls) - 1
  {
    hide Work, TailResolved;
    match a {
      case Start(c) => WorkUpdate(w.calls, c, w.calls[c].(phase := Running, started := Some(w.tick)));
      case Finish(c, threw) => WorkUpdate(w.calls, c, w.calls[c].(phase := Finished(threw), finished := Some(w.tick)));
    }
  }

  /** No deadlock: in every run, a key with an unfinished call has one that can start or finish. */
  lemma NoDeadlock(run: seq<Action>, n: nat, c: nat) returns (a: Action)
    requires n <= |run| && c < |After(run, n).calls| && !After(run, n).calls[c].phase.Finished?
    ensures Useful(After(run, n), a)
    ensures After(run, n).calls[a.call].key == After(run, n).calls[c].key
  {
    hide TailResolved;
    RunKeeps(run, n);
    var w := After(run, n);
    var d := SomeoneCanMove(w, c);
    a := if CanStart(w, d) then Start(d) else Finish(d, false);
  }

  function From(w: World, steps: seq<Action>, n: nat): World
    requires n <= |steps|
  {
    if n == 0 then w else Perform(From(w, steps, n - 1), steps[n - 1])
  }

  lemma {:induction false} UsefulSteps(w: World, steps: seq<Action>, n: nat)
    requires n <= |steps| && forall i :: 0 <= i < n ==> Useful(From(w, steps, i), steps[i])
    ensures Work(From(w, steps, n).calls) == Work(w.calls) - n
  {
    hide Work, Perform, Useful;
    if n > 0 {
      UsefulSteps(w, steps, n - 1);
      UsefulTakesWork(From(w, steps, n - 1), steps[n - 1]);
    }
  }

  /** Every call runs if operations finish: from any world, useful steps are at most `Work` many, and
      once there have been that many every call has finished. */
  lemma EveryCallRuns(w: World, steps: seq<Action>)
    requires forall i :: 0 <= i < |steps| ==> Useful(From(w, steps, i), steps[i])
    ensures |steps| <= Work(w.calls)
    ensures |steps| == Work(w.calls) <==>
      forall c :: 0 <= c < |From(w, steps, |steps|).calls| ==> From(w, steps, |steps|).calls[c].phase.Finished?
  {
    hide Work, Perform, Useful, From;
    UsefulSteps(w, steps, |steps|);
    NoWorkLeft(From(w, steps, |steps|).calls);
  }

  // ---------------------------------------------------------------- progress while calls keep arriving

  /** A start or finish on a key that is enabled. */
  predicate UsefulOn(w: World, a: Action, key: Key) {
    Useful(w, a) && w.calls[a.call].key == key
  }

  /** The work left on the key of a call among the first `n` calls. */
  function Ahead(calls: seq<Call>, c: nat, n: nat): nat
    requires c < |calls| && n <= |calls|
  {
    if n == 0 then 0
    else Ahead(calls, c, n - 1) + if calls[n - 1].key == calls[c].key then Left(calls[n - 1]) else 0
  }

  /** The unfinished calls on the key of a call among the first `n` calls. */
  function Waiting(calls: seq<Call>, c: nat, n: nat): nat
    requires c < |calls| && n <= |calls|
  {
    if n == 0 then 0
    else Waiting(calls, c, n - 1)
         + if calls[n - 1].key == calls[c].key && !calls[n - 1].phase.Finished? then 1 else 0
  }

  lemma {:induction false} TwoStepsEach(calls: seq<Call>, c: nat, n: nat)
    requires c < |calls| && n <= |calls|
    ensures Ahead(calls, c, n) <= 2 * Waiting(calls, c, n)
    ensures c < n && Ahead(calls, c, n) == 0 ==> calls[c].phase.Finished?
  {
    if n > 0 { TwoStepsEach(calls, c, n - 1); }
  }

  lemma {:induction false} AheadSame(calls: seq<Call>, more: seq<Call>, c: nat, n: nat)
    requires c < |calls| && c < |more| && n <= |calls| && n <= |more| && more[c].key == calls[c].key
    requires forall d :: 0 <= d < n ==>
      more[d].key == calls[d].key && (calls[d].key == calls[c].key ==> Left(more[d]) == Left(calls[d]))
    ensures Ahead(more, c, n) == Ahead(calls, c, n)
  {
    hide Left;
    if n > 0 { AheadSame(calls, more, c, n - 1); }
  }

  lemma {:induction false} AheadUpdate(calls: seq<Call>, c: nat, n: nat, d: nat, call: Call)
    requires c < |calls| && d < n <= |calls| && call.key == calls[d].key == calls[c].key
    requires Left(call) == Left(calls[d]) - 1
    ensures Ahead(calls[d := call], c, n) == Ahead(calls, c, n) - 1
  {
    hide Left;
    if d < n - 1 {
      AheadUpdate(calls, c, n - 1, d, call);
    } else {
      AheadSame(calls, calls[d := call], c, n - 1);
    }
  }

  /** While a call is unfinished, no later call on its key can start or finish. */
  lemma LaterCannotMove(w: World, a: Action, c: nat)
    requires Kept(w) && c < |w.calls| && !w.calls[c].phase.Finished? && UsefulOn(w, a, w.calls[c].key)
    ensures a.call <= c
  {
    hide TailResolved;
    assert CallKept(w, c) && CallKept(w, a.call);
    if CanStart(w, a.call) { StartsInTurn(w, a.call); }
  }

  /** Every useful step on the key of an unfinished call lowers the work ahead of it by one, and no other
      step, an arrival included, changes it. */
  lemma StepAhead(w: World, a: Action, c: nat)
    requires Kept(w) && c < |w.calls| && !w.calls[c].phase.Finished?
    ensures var next := Perform(w, a);
      && c < |next.calls| && next.calls[c].key == w.calls[c].key
      && Ahead(next.calls, c, c + 1) == Ahead(w.calls, c, c + 1) - if UsefulOn(w, a, w.calls[c].key) then 1 else 0
  {
    hide Kept, TailResolved;
    var next := Perform(w, a);
    if UsefulOn(w, a, w.calls[c].key) {
      LaterCannotMove(w, a, c);
      AheadUpdate(w.calls, c, c + 1, a.call, next.calls[a.call]);
      assert next.calls == w.calls[a.call := next.calls[a.call]];
    } else {
      AheadSame(w.calls, next.calls, c, c + 1);
    }
  }

  /** How many useful steps on a key a run takes from its `n`th world to its `m`th. */
  function UsefulBetween(run: seq<Action>, n: nat, m: nat, key: Key): nat
    requires n <= m <= |run|
    decreases m
  {
    if n == m then 0
    else UsefulBetween(run, n, m - 1, key) + if UsefulOn(After(run, m - 1), run[m - 1], key) then 1 else 0
  }

  lemma FinishedStays(w: World, a: Action, c: nat)
    requires c < |w.calls|
    ensures c < |Perform(w, a).calls| && Perform(w, a).calls[c].key == w.calls[c].key
    ensures w.calls[c].phase.Finished? ==> Perform(w, a).calls[c].phase.Finished?
  {
    hide TailResolved;
  }

  lemma {:induction false} AheadAfter(run: seq<Action>, n: nat, m: nat, c: nat)
    requires n <= m <= |run| && c < |After(run, n).calls|
    ensures var w, later := After(run, n), After(run, m);
      && c < |later.calls| && later.calls[c].key == w.calls[c].key
      && (!later.calls[c].phase.Finished? ==>
            Ahead(later.calls, c, c + 1) == Ahead(w.calls, c, c + 1) - UsefulBetween(run, n, m, w.calls[c].key))
    decreases m
  {
    hide Ahead, Kept, UsefulOn, Perform;
    if n < m {
      AheadAfter(run, n, m - 1, c);
      RunKeeps(run, m - 1);
      var w := After(run, m - 1);
      FinishedStays(w, run[m - 1], c);
      if !w.calls[c].phase.Finished? { StepAhead(w, run[m - 1], c); }
    }
  }

  /** In any run, whatever arrives meanwhile: a call with `k` unfinished calls on its key before it has
      finished once there have been `2 * k + 2` useful steps on that key. */
  lemma CallFinishes(run: seq<Action>, n: nat, m: nat, c: nat)
    requires n <= m <= |run| && c < |After(run, n).calls|
    requires var w := After(run, n);
      UsefulBetween(run, n, m, w.calls[c].key) >= 2 * Waiting(w.calls, c, c) + 2
    ensures c < |After(run, m).calls| && After(run, m).calls[c].phase.Finished?
  {
    hide After, UsefulBetween;
    AheadAfter(run, n, m, c);
    TwoStepsEach(After(run, n).calls, c, c + 1);
    TwoStepsEach(After(run, m).calls, c, c + 1);
  }
}
