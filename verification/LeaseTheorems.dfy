/** Safety of the lease over every run: whatever expiries, losses, renewals, delays and failures occur,
    a call that returns held the key from its SET to its release, and no two such calls overlap. */
module LeaseTheorems {

  import opened Sequences
  import opened RedisLock

  // ---------------------------------------------------------------- a loss is for good

  lemma CallsStay(w: World, a: Action, c: nat)
    requires Kept(w) && c < |w.calls|
    ensures c < |Perform(w, a).calls| && Perform(w, a).calls[c].key == w.calls[c].key
    ensures w.calls[c].acquired.Some? ==> Perform(w, a).calls[c].acquired == w.calls[c].acquired
  {
    hide CallKept, CallStep;
    if ByCall(a) && a.call < |w.calls| { OwnStep(w, a.call, a); }
  }

  /** A call that has acquired the key and no longer holds it never holds it again. */
  lemma LossIsPermanent(w: World, a: Action, c: nat)
    requires Kept(w) && c < |w.calls| && w.calls[c].acquired.Some? && !Holds(w, c)
    ensures c < |Perform(w, a).calls| && !Holds(Perform(w, a), c)
  {
    hide CallStep;
    CallsStay(w, a, c);
    assert CallKept(w.calls[c], w.tick);
    if ByCall(a) && a.call < |w.calls| {
      OwnStep(w, a.call, a);
      OwnKey(w, a.call, a);
      if a.call == c && a.ExecuteSet? { SetAlreadyUsed(w, c); }
    }
  }

  lemma SetAlreadyUsed(w: World, c: nat)
    requires c < |w.calls| && CallKept(w.calls[c], w.tick) && w.calls[c].acquired.Some?
    ensures CallStep(w, c, ExecuteSet(c)) == w
  {
  }

  lemma {:induction false} LostForGood(run: seq<Action>, i: nat, j: nat, c: nat)
    requires i <= j <= |run| && c < |After(run, i).calls|
    requires After(run, i).calls[c].acquired.Some? && !Holds(After(run, i), c)
    ensures c < |After(run, j).calls| && After(run, j).calls[c].acquired.Some? && !Holds(After(run, j), c)
    decreases j
  {
    hide Perform, Kept;
    if i < j {
      LostForGood(run, i, j - 1, c);
      RunKeeps(run, j - 1);
      LossIsPermanent(After(run, j - 1), run[j - 1], c);
      CallsStay(After(run, j - 1), run[j - 1], c);
    }
  }

  // ---------------------------------------------------------------- the recorded moments

  /** The store gained the call's token at step `k`: the key was free. */
  ghost predicate SetAt(run: seq<Action>, k: nat, c: nat) {
    && k < |run| && c < |After(run, k).calls| && !Live(After(run, k), After(run, k).calls[c].key)
    && c < |After(run, k + 1).calls| && After(run, k + 1).calls[c].acquired == Some(k)
  }

  /** The release script found the call's token at step `k`. */
  ghost predicate ReleasedAt(run: seq<Action>, k: nat, c: nat) {
    k < |run| && c < |After(run, k).calls| && Holds(After(run, k), c)
  }

  lemma MomentsGrow(w: World, a: Action, c: nat)
    requires Kept(w) && c < |Perform(w, a).calls|
    ensures c < |w.calls| || (Perform(w, a).calls[c].acquired.None? && Perform(w, a).calls[c].released.None?)
    ensures c < |w.calls| ==> var before, after := w.calls[c], Perform(w, a).calls[c];
      && (after.acquired == before.acquired || (after.acquired == Some(w.tick) && !Live(w, before.key)))
      && (after.released == before.released || (after.released == Some(w.tick) && Holds(w, c)))
  {
    hide CallKept, CallStep, Live, Holds;
    if ByCall(a) && a.call < |w.calls| {
      OwnStep(w, a.call, a);
      OwnMoments(w, a.call, a);
    }
  }

  lemma OwnMoments(w: World, c: nat, a: Action)
    requires c < |w.calls| && ByCall(a)
    ensures |CallStep(w, c, a).calls| == |w.calls|
    ensures var before, after := w.calls[c], CallStep(w, c, a).calls[c];
      && (after.acquired == before.acquired || (after.acquired == Some(w.tick) && !Live(w, before.key)))
      && (after.released == before.released || (after.released == Some(w.tick) && Holds(w, c)))
  {
    hide Live, Holds;
  }

  lemma {:induction false} MomentsMeaning(run: seq<Action>, n: nat, c: nat)
    requires n <= |run| && c < |After(run, n).calls|
    ensures var call := After(run, n).calls[c];
      && (call.acquired.Some? ==> call.acquired.value < n && SetAt(run, call.acquired.value, c))
      && (call.released.Some? ==> call.released.value < n && ReleasedAt(run, call.released.value, c))
  {
    hide Perform, Kept, Live, Holds;
    if n > 0 {
      RunKeeps(run, n - 1);
      var w, a := After(run, n - 1), run[n - 1];
      MomentsGrow(w, a, c);
      if c < |w.calls| { MomentsMeaning(run, n - 1, c); }
    }
  }

  // ---------------------------------------------------------------- holding the key

  lemma {:induction false} CallsNeverVanish(run: seq<Action>, i: nat, j: nat, c: nat)
    requires i <= j <= |run| && c < |After(run, i).calls|
    ensures c < |After(run, j).calls| && After(run, j).calls[c].key == After(run, i).calls[c].key
    ensures After(run, i).calls[c].acquired.Some? ==> After(run, j).calls[c].acquired == After(run, i).calls[c].acquired
    decreases j
  {
    hide Perform, Kept;
    if i < j {
      CallsNeverVanish(run, i, j - 1, c);
      RunKeeps(run, j - 1);
      CallsStay(After(run, j - 1), run[j - 1], c);
    }
  }

  /** A call whose release found its token held the key at every step from its SET to that release. */
  lemma HeldThroughout(run: seq<Action>, n: nat, c: nat, k: nat)
    requires n <= |run| && c < |After(run, n).calls|
    requires var call := After(run, n).calls[c];
      call.acquired.Some? && call.released.Some? && call.acquired.value < k <= call.released.value
    ensures k <= |run| && c < |After(run, k).calls| && Holds(After(run, k), c)
  {
    hide Perform, Kept, Live, Holds, After;
    var call := After(run, n).calls[c];
    var a, r := call.acquired.value, call.released.value;
    MomentsMeaning(run, n, c);
    CallsNeverVanish(run, a + 1, k, c);
    if !Holds(After(run, k), c) { LostForGood(run, k, r, c); }
  }

  /** A call that returns normally: acquired, ran and released, in this order. */
  lemma ReturnedMoments(run: seq<Action>, n: nat, c: nat)
    requires n <= |run| && c < |After(run, n).calls| && After(run, n).calls[c].phase == Done(Returned)
    ensures var call := After(run, n).calls[c];
      && call.acquired.Some? && call.started.Some? && call.ended.Some? && call.released.Some?
      && call.acquired.value < call.started.value < call.ended.value < call.released.value < n
  {
    hide Perform, After;
    RunKeeps(run, n);
    assert CallKept(After(run, n).calls[c], After(run, n).tick);
  }

  /** Lease safety: if a call returns a value, the store held its token, unexpired, at every step from its
      successful SET through its whole operation up to its release. */
  lemma LeaseIsContinuous(run: seq<Action>, n: nat, c: nat)
    requires n <= |run| && c < |After(run, n).calls| && After(run, n).calls[c].phase == Done(Returned)
    ensures var call := After(run, n).calls[c];
      && call.acquired.Some? && call.started.Some? && call.ended.Some? && call.released.Some?
      && call.acquired.value < call.started.value < call.ended.value < call.released.value < n
      && forall k :: call.acquired.value < k <= call.released.value ==>
           c < |After(run, k).calls| && Holds(After(run, k), c)
  {
    hide Perform, Kept, Live, Holds, After;
    ReturnedMoments(run, n, c);
    var call := After(run, n).calls[c];
    forall k | call.acquired.value < k <= call.released.value
      ensures c < |After(run, k).calls| && Holds(After(run, k), c)
    {
      HeldThroughout(run, n, c, k);
    }
  }

  /** While a call that later returns holds the key, no other call's SET succeeds. */
  lemma SetsOutside(run: seq<Action>, n: nat, c: nat, d: nat)
    requires n <= |run| && c < |After(run, n).calls| && d < |After(run, n).calls| && c != d
    requires After(run, n).calls[c].phase == Done(Returned) && After(run, n).calls[c].key == After(run, n).calls[d].key
    ensures var x, y := After(run, n).calls[c], After(run, n).calls[d];
      && x.acquired.Some? && x.released.Some?
      && (y.acquired.Some? ==> !(x.acquired.value < y.acquired.value <= x.released.value))
  {
    hide Perform, Kept, After;
    ReturnedMoments(run, n, c);
    var x, y := After(run, n).calls[c], After(run, n).calls[d];
    MomentsMeaning(run, n, d);
    if y.acquired.Some? {
      var k := y.acquired.value;
      CallsNeverVanish(run, k, n, d);
      if x.acquired.value < k <= x.released.value {
        MomentsMeaning(run, n, c);
        CallsNeverVanish(run, x.acquired.value + 1, k, c);
        CallsNeverVanish(run, k, n, c);
        HeldThroughout(run, n, c, k);
      }
    }
  }

  /** Two calls on one key that both return never overlap: one released before the other acquired. */
  lemma ReturnedCallsDoNotOverlap(run: seq<Action>, n: nat, c: nat, d: nat)
    requires n <= |run| && c < |After(run, n).calls| && d < |After(run, n).calls| && c != d
    requires After(run, n).calls[c].phase == Done(Returned) && After(run, n).calls[d].phase == Done(Returned)
    requires After(run, n).calls[c].key == After(run, n).calls[d].key
    ensures var x, y := After(run, n).calls[c], After(run, n).calls[d];
      && x.acquired.Some? && x.released.Some? && y.acquired.Some? && y.released.Some?
      && (x.released.value < y.acquired.value || y.released.value < x.acquired.value)
  {
    hide Perform, Kept, After;
    ReturnedMoments(run, n, c);
    ReturnedMoments(run, n, d);
    var x, y := After(run, n).calls[c], After(run, n).calls[d];
    SetsOutside(run, n, c, d);
    SetsOutside(run, n, d, c);
    MomentsMeaning(run, n, c);
    MomentsMeaning(run, n, d);
    OneSetAtATime(run, x.acquired.value, c, d);
  }

  /** One step sets the token of one call only. */
  lemma OneSetAtATime(run: seq<Action>, k: nat, c: nat, d: nat)
    requires k < |run| && SetAt(run, k, c)
    ensures SetAt(run, k, d) ==> c == d
  {
    hide Perform;
    RunKeeps(run, k);
    var w, a := After(run, k), run[k];
    if SetAt(run, k, d) { OneChanges(w, a, c, d); }
  }

  lemma OneChanges(w: World, a: Action, c: nat, d: nat)
    requires Kept(w) && c < |w.calls| && d < |w.calls|
    ensures |Perform(w, a).calls| >= |w.calls|
    ensures c == d || Perform(w, a).calls[c] == w.calls[c] || Perform(w, a).calls[d] == w.calls[d]
  {
    hide CallStep, CallKept;
    if ByCall(a) && a.call < |w.calls| { OwnStep(w, a.call, a); }
  }

  /** No renewal and no release, in time or late, ever changes an entry that is not the caller's own. */
  lemma ScriptsTouchOwnKeyOnly(w: World, a: Action, key: Key)
    requires a.ExecuteRenewal? || a.ExecuteRelease?
    ensures var next := Perform(w, a);
      (key in next.store) != (key in w.store) || (key in w.store && next.store[key] != w.store[key]) ==>
        a.call < |w.calls| && w.calls[a.call].key == key && Holds(w, a.call)
  {
    hide CallStep, Holds, Live;
    if a.call < |w.calls| { OwnKey(w, a.call, a); }
  }
}
