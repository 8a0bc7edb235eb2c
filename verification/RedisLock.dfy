/** apps/worker/src/hyperliquid/lock.ts: `withRedisLock` as a protocol. Any number of calls share a store
    of expiring keys. */
module RedisLock {

  // The sending of a command, its execution by the server, its reply and its failure are separate steps,
  // and a command whose client gave up may still be executed later. A call is known by its number, which
  // also stands for its fresh random token.

  import opened Sequences

  type Key = nat

  /** A stored key: whose token it holds and when it expires. */
  datatype Entry = Entry(owner: nat, expiresAt: int)

  datatype Options = Options(acquisitionTimeoutMs: int, retryDelayMs: int, ttlMs: int)

  datatype Outcome = Returned | OperationFailed | LockLost | Unavailable | CommandFailed | InvalidOptions

  datatype Phase =
    | Waiting
    | Denied
    | Granted
    | Running
    | Ended(ok: bool)
    | Releasing(ok: bool, answer: Option<bool>)
    | Done(outcome: Outcome)

  datatype Renewal = Idle | InFlight(answer: Option<bool>)

  /** A call: where it stands, which of its commands the server may still execute, and at which steps it
      acquired the key, ran its operation and released the key. */
  datatype Call = Call(
    key: Key, options: Options, deadline: int, phase: Phase, renewal: Renewal, renewalError: bool,
    setSent: bool, renewalsSent: nat, releaseSent: bool,
    acquired: Option<nat>, started: Option<nat>, ended: Option<nat>, released: Option<nat>)

  datatype World = World(now: int, tick: nat, store: map<Key, Entry>, calls: seq<Call>)

  datatype Action =
    | Elapse(ms: nat)
    | Vanish(key: Key)
    | Begin(key: Key, options: Options)
    | SendSet(call: nat)
    | ExecuteSet(call: nat)
    | SetFails(call: nat)
    | Start(call: nat)
    | Retry(call: nat)
    | GiveUp(call: nat)
    | SendRenewal(call: nat)
    | ExecuteRenewal(call: nat, answers: bool)
    | RenewalReplies(call: nat)
    | RenewalFails(call: nat)
    | EndOperation(call: nat, ok: bool)
    | SendRelease(call: nat)
    | ExecuteRelease(call: nat)
    | ReleaseReplies(call: nat)
    | ReleaseFails(call: nat)

  predicate ValidOptions(o: Options) {
    o.acquisitionTimeoutMs >= 0 && o.retryDelayMs > 0 && o.ttlMs >= 3_000
  }

  // ---------------------------------------------------------------- the store

  predicate Live(w: World, key: Key) {
    key in w.store && w.now < w.store[key].expiresAt
  }

  /** The store holds the token of the call, unexpired. */
  predicate Holds(w: World, c: nat) {
    c < |w.calls| && Live(w, w.calls[c].key) && w.store[w.calls[c].key].owner == c
  }

  // ---------------------------------------------------------------- the steps

  function Put(w: World, c: nat, call: Call): World
    requires c < |w.calls|
  {
    w.(calls := w.calls[c := call])
  }

  /** SET key token PX ttl NX, executed by the server. */
  function SetNx(w: World, c: nat): World
    requires c < |w.calls|
  {
    var call := w.calls[c].(setSent := false);
    if Live(w, call.key) then Put(w, c, if call.phase == Waiting then call.(phase := Denied) else call)
    else
      var won := call.(acquired := Some(w.tick));
      Put(w.(store := w.store[call.key := Entry(c, w.now + call.options.ttlMs)]), c,
          if call.phase == Waiting then won.(phase := Granted) else won)
  }

  /** The renewal script: the expiry moves only when the token is still there. */
  function Renew(w: World, c: nat, answers: bool): World
    requires c < |w.calls| && w.calls[c].renewalsSent > 0
  {
    var call := w.calls[c].(renewalsSent := w.calls[c].renewalsSent - 1);
    var answered :=
      if answers && call.renewal == InFlight(None) then call.(renewal := InFlight(Some(Holds(w, c)))) else call;
    var store := if Holds(w, c) then w.store[call.key := Entry(c, w.now + call.options.ttlMs)] else w.store;
    Put(w.(store := store), c, answered)
  }

  /** The release script: the key goes only when the token is still there. */
  function Release(w: World, c: nat): World
    requires c < |w.calls|
  {
    var call := w.calls[c].(releaseSent := false);
    var answered := if call.phase.Releasing? then call.(phase := Releasing(call.phase.ok, Some(Holds(w, c)))) else call;
    if Holds(w, c) then Put(w.(store := w.store - {call.key}), c, answered.(released := Some(w.tick)))
    else Put(w, c, answered)
  }

  /** How a call ends once the release has been answered or has failed. */
  function OutcomeOf(ok: bool, renewalError: bool, released: bool): Outcome {
    if !ok then OperationFailed else if renewalError || !released then LockLost else Returned
  }

  /** The step of one call; a step that is not enabled leaves the world as it is. */
  function CallStep(w: World, c: nat, a: Action): World
    requires c < |w.calls|
  {
    var call := w.calls[c];
    match a
    case SendSet(_) => if call.phase == Waiting && !call.setSent then Put(w, c, call.(setSent := true)) else w
    case ExecuteSet(_) => if call.setSent then SetNx(w, c) else w
    case SetFails(_) =>
      if call.phase == Waiting || call.phase == Denied || call.phase == Granted
      then Put(w, c, call.(phase := Done(CommandFailed))) else w
    case Start(_) => if call.phase == Granted then Put(w, c, call.(phase := Running, started := Some(w.tick))) else w
    case Retry(_) => if call.phase == Denied && w.now < call.deadline then Put(w, c, call.(phase := Waiting)) else w
    case GiveUp(_) =>
      if call.phase == Denied && w.now >= call.deadline then Put(w, c, call.(phase := Done(Unavailable))) else w
    case SendRenewal(_) =>
      if call.phase == Running && call.renewal == Idle && !call.renewalError
      then Put(w, c, call.(renewal := InFlight(None), renewalsSent := call.renewalsSent + 1)) else w
    case ExecuteRenewal(_, answers) => if call.renewalsSent > 0 then Renew(w, c, answers) else w
    case RenewalReplies(_) =>
      if call.renewal.InFlight? && call.renewal.answer.Some?
      then Put(w, c, call.(renewal := Idle, renewalError := call.renewalError || !call.renewal.answer.value)) else w
    case RenewalFails(_) =>
      if call.renewal.InFlight? then Put(w, c, call.(renewal := Idle, renewalError := true)) else w
    case EndOperation(_, ok) =>
      if call.phase == Running then Put(w, c, call.(phase := Ended(ok), ended := Some(w.tick))) else w
    case SendRelease(_) =>
      if call.phase.Ended? && call.renewal == Idle
      then Put(w, c, call.(phase := Releasing(call.phase.ok, None), releaseSent := true)) else w
    case ExecuteRelease(_) => if call.releaseSent then Release(w, c) else w
    case ReleaseReplies(_) =>
      if call.phase.Releasing? && call.phase.answer.Some?
      then Put(w, c, call.(phase := Done(OutcomeOf(call.phase.ok, call.renewalError, call.phase.answer.value)))) else w
    case ReleaseFails(_) =>
      if !call.phase.Releasing? then w
      else Put(w, c, call.(phase := Done(OutcomeOf(call.phase.ok, call.renewalError, false))))
    case _ => w
  }

  function NewCall(w: World, key: Key, o: Options): Call {
    Call(key, o, w.now + o.acquisitionTimeoutMs, if ValidOptions(o) then Waiting else Done(InvalidOptions), Idle, false,
         false, 0, false, None, None, None, None)
  }

  predicate ByCall(a: Action) {
    !a.Elapse? && !a.Vanish? && !a.Begin?
  }

  function Perform(w: World, a: Action): World {
    var next :=
      match a
      case Elapse(ms) => w.(now := w.now + ms)
      case Vanish(key) => w.(store := w.store - {key})
      case Begin(key, o) => w.(calls := w.calls + [NewCall(w, key, o)])
      case _ => if a.call < |w.calls| then CallStep(w, a.call, a) else w;
    next.(tick := w.tick + 1)
  }

  const START: World := World(0, 0, map[], [])

  /** The world after the first `n` actions of a run. */
  function After(run: seq<Action>, n: nat): World
    requires n <= |run|
  {
    if n == 0 then START else Perform(After(run, n - 1), run[n - 1])
  }

  // ---------------------------------------------------------------- what every step keeps

  predicate Acquiring(p: Phase) {
    p == Waiting || p == Denied
  }

  /** The record of a call agrees with its phase, and its moments are in order and in the past. */
  predicate CallKept(call: Call, tick: nat) {
    && (Acquiring(call.phase) ==> call.acquired.None?)
    && (call.setSent ==> call.phase == Waiting || call.phase.Done?)
    && (call.acquired.Some? ==> !call.setSent && call.acquired.value < tick)
    && (call.phase == Granted ==> call.acquired.Some? && call.started.None?)
    && (call.phase == Granted || Acquiring(call.phase) ==> call.started.None? && call.ended.None? && !call.releaseSent)
    && (call.phase == Running ==> call.started.Some? && call.ended.None? && !call.releaseSent)
    && (call.phase.Ended? ==> call.ended.Some? && call.released.None? && !call.releaseSent)
    && (call.phase.Releasing? ==> call.ended.Some? && (call.phase.answer.None? <==> call.releaseSent))
    && (call.releaseSent ==> call.ended.Some?)
    && (call.phase.Releasing? && call.phase.answer == Some(true) ==> call.released.Some?)
    && (call.phase == Done(Returned) ==> call.released.Some?)
    && (call.started.Some? ==> call.acquired.Some? && call.acquired.value < call.started.value < tick)
    && (call.ended.Some? ==> call.started.Some? && call.started.value < call.ended.value < tick)
    && (call.released.Some? ==> call.ended.Some? && call.ended.value < call.released.value < tick)
  }

  ghost predicate Kept(w: World) {
    && (forall c :: 0 <= c < |w.calls| ==> CallKept(w.calls[c], w.tick))
    && forall key :: key in w.store ==>
         w.store[key].owner < |w.calls| && w.calls[w.store[key].owner].key == key
         && w.calls[w.store[key].owner].acquired.Some?
  }

  lemma LaterKept(call: Call, tick: nat)
    requires CallKept(call, tick)
    ensures CallKept(call, tick + 1)
  {
  }

  predicate Recorded(before: Call, after: Call, tick: nat) {
    CallKept(after, tick + 1) && after.key == before.key
        && (before.acquired.Some? ==> after.acquired == before.acquired)
  }

  predicate Acquisition(a: Action) {
    a.SendSet? || a.ExecuteSet? || a.SetFails? || a.Start? || a.Retry? || a.GiveUp?
  }

  predicate Renewing(a: Action) {
    a.SendRenewal? || a.ExecuteRenewal? || a.RenewalReplies? || a.RenewalFails?
  }

  lemma AcquisitionRecorded(w: World, c: nat, a: Action)
    requires c < |w.calls| && CallKept(w.calls[c], w.tick) && Acquisition(a)
    ensures |CallStep(w, c, a).calls| == |w.calls| && Recorded(w.calls[c], CallStep(w, c, a).calls[c], w.tick)
  {
    hide Live, Holds;
  }

  lemma RenewalRecorded(w: World, c: nat, a: Action)
    requires c < |w.calls| && CallKept(w.calls[c], w.tick) && Renewing(a)
    ensures |CallStep(w, c, a).calls| == |w.calls| && Recorded(w.calls[c], CallStep(w, c, a).calls[c], w.tick)
  {
    hide Live, Holds;
  }

  lemma ReleaseRecorded(w: World, c: nat, a: Action)
    requires c < |w.calls| && CallKept(w.calls[c], w.tick) && ByCall(a) && !Acquisition(a) && !Renewing(a)
    ensures |CallStep(w, c, a).calls| == |w.calls| && Recorded(w.calls[c], CallStep(w, c, a).calls[c], w.tick)
  {
    hide Live, Holds;
  }

  /** A call's own step changes no other call and no clock. */
  lemma OwnStep(w: World, c: nat, a: Action)
    requires c < |w.calls| && CallKept(w.calls[c], w.tick) && ByCall(a)
    ensures var next := CallStep(w, c, a);
      && |next.calls| == |w.calls| && next.now == w.now && next.tick == w.tick
      && (forall d :: 0 <= d < |w.calls| && d != c ==> next.calls[d] == w.calls[d])
      && Recorded(w.calls[c], next.calls[c], w.tick)
  {
    hide CallKept, Recorded, Live, Holds;
    if Acquisition(a) {
      AcquisitionRecorded(w, c, a);
    } else if Renewing(a) {
      RenewalRecorded(w, c, a);
    } else {
      ReleaseRecorded(w, c, a);
    }
  }

  /** A call's own step touches no key but its own, and that one only if it is free or holds its token. */
  lemma OwnKey(w: World, c: nat, a: Action)
    requires c < |w.calls| && ByCall(a)
    ensures var next, key := CallStep(w, c, a), w.calls[c].key;
      && (forall k :: k != key ==>
          (k in next.store <==> k in w.store) && (k in w.store ==> next.store[k] == w.store[k]))
      && (next.store == w.store || !Live(w, key) || Holds(w, c))
      && (key in next.store ==> next.store[key].owner == c || (key in w.store && next.store[key] == w.store[key]))
      && (!a.ExecuteSet? && next.store != w.store ==> Holds(w, c))
      && (key in next.store && (key !in w.store || next.store[key] != w.store[key]) ==>
            next.store[key].owner == c && (Holds(w, c) || next.calls[c].acquired.Some?))
  {
  }

  lemma StepKeeps(w: World, a: Action)
    requires Kept(w)
    ensures Kept(Perform(w, a)) && Perform(w, a).tick == w.tick + 1
  {
    hide CallKept, CallStep;
    forall c | 0 <= c < |w.calls| ensures CallKept(w.calls[c], w.tick + 1) { LaterKept(w.calls[c], w.tick); }
    if a.Begin? {
      assert CallKept(NewCall(w, a.key, a.options), w.tick + 1) by { NewKept(w, a.key, a.options); }
    } else if ByCall(a) && a.call < |w.calls| {
      OwnStep(w, a.call, a);
      OwnKey(w, a.call, a);
    }
  }

  lemma NewKept(w: World, key: Key, o: Options)
    ensures CallKept(NewCall(w, key, o), w.tick + 1)
  {
  }

  lemma {:induction false} RunKeeps(run: seq<Action>, n: nat)
    requires n <= |run|
    ensures Kept(After(run, n)) && After(run, n).tick == n
  {
    hide Perform, Kept;
    if n > 0 {
      RunKeeps(run, n - 1);
      StepKeeps(After(run, n - 1), run[n - 1]);
    } else {
      assert Kept(START) by { StartKept(); }
    }
  }

  lemma StartKept()
    ensures Kept(START)
  {
  }
}
