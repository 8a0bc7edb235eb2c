/** What an aggregated bucket guarantees: it is blocked exactly when something is wrong with its
    events, its totals partition, it does not depend on the delivery, and it is a fixed point. */
module AggregationTheorems {

  import opened Sequences
  import opened Aggregation

  // ---------------------------------------------------------------- the kept events

  lemma {:induction false} FindMeaning(kept: seq<Event>, p: Id)
    ensures match Find(kept, p)
      case None => forall k :: 0 <= k < |kept| ==> kept[k].fingerprint != p
      case Some(e) => e in kept && e.fingerprint == p
  {
    if kept != [] {
      FindMeaning(kept[..|kept| - 1], p);
      assert kept == kept[..|kept| - 1] + [kept[|kept| - 1]];
    }
  }

  lemma {:induction false} KeptDistinct(b: Bucket, hash: Hash, n: nat)
    requires n <= |b.events|
    ensures DistinctKeys(PrintOf, Collect(b, hash, n).kept)
    ensures |Collect(b, hash, n).kept| <= n
  {
    hide Admit;
    if n > 0 {
      KeptDistinct(b, hash, n - 1);
      AdmitDistinct(b, hash, Collect(b, hash, n - 1), b.events[n - 1]);
    }
  }

  lemma AdmitDistinct(b: Bucket, hash: Hash, c: Collected, e: Event)
    requires DistinctKeys(PrintOf, c.kept)
    ensures var d := Admit(b, hash, c, e); DistinctKeys(PrintOf, d.kept) && |d.kept| <= |c.kept| + 1
  {
    hide EventIssues, AmountValid;
    FindMeaning(c.kept, e.fingerprint);
  }

  ghost predicate IsCanonicalEvent(b: Bucket, n: nat, e: Event)
    requires n <= |b.events|
  {
    exists i :: 0 <= i < n && e == Canonical(b.events[i])
  }

  /** The kept events have their issues reported. */
  ghost predicate Reported(b: Bucket, hash: Hash, c: Collected) {
    b.issues <= c.issues && forall e :: e in c.kept ==> EventIssues(b, e, hash) <= c.issues
  }

  /** The kept events are canonical input events, their issues are reported, and every input event has
      a kept one with its fingerprint. */
  lemma {:induction false} KeptMeaning(b: Bucket, hash: Hash, n: nat)
    requires n <= |b.events|
    ensures var c := Collect(b, hash, n);
      && (forall e :: e in c.kept ==> IsCanonicalEvent(b, n, e))
      && Reported(b, hash, c)
      && forall i :: 0 <= i < n ==> Find(c.kept, b.events[i].fingerprint).Some?
  {
    hide Admit, Reported, Canonical;
    if n > 0 {
      KeptMeaning(b, hash, n - 1);
      var c, d, e := Collect(b, hash, n - 1), Collect(b, hash, n), b.events[n - 1];
      AdmitKept(b, hash, c, e);
      AdmitReported(b, hash, c, e);
      forall x | x in d.kept ensures IsCanonicalEvent(b, n, x) {
        if x in c.kept { assert IsCanonicalEvent(b, n - 1, x); }
      }
    } else {
      assert Reported(b, hash, Collect(b, hash, 0)) by { NothingReported(b, hash); }
    }
  }

  lemma NothingReported(b: Bucket, hash: Hash)
    ensures Reported(b, hash, Collected(b.issues, []))
  {
  }

  lemma AdmitKept(b: Bucket, hash: Hash, c: Collected, e: Event)
    ensures var d := Admit(b, hash, c, e);
      && (forall x :: x in d.kept ==> x in c.kept || x == Canonical(e))
      && Find(d.kept, e.fingerprint).Some?
      && forall p :: Find(c.kept, p).Some? ==> Find(d.kept, p).Some?
  {
    hide EventIssues, AmountValid;
    FindAppend(c.kept, Canonical(e));
  }

  lemma AdmitReported(b: Bucket, hash: Hash, c: Collected, e: Event)
    requires Reported(b, hash, c)
    ensures Reported(b, hash, Admit(b, hash, c, e))
  {
    hide EventIssues, Canonical, Find;
    CanonicalIssues(b, e, hash);
  }

  lemma CanonicalIssues(b: Bucket, e: Event, hash: Hash)
    ensures EventIssues(b, Canonical(e), hash) == EventIssues(b, e, hash)
    ensures Canonical(Canonical(e)) == Canonical(e)
  {
  }

  // ---------------------------------------------------------------- fail-closed, exactly

  /** Every event passes its own checks and agrees with the others of its fingerprint. */
  ghost predicate Clean(b: Bucket, hash: Hash, n: nat)
    requires n <= |b.events|
  {
    && b.issues == {}
    && (forall i :: 0 <= i < n ==> EventIssues(b, b.events[i], hash) == {})
    && Agreeing(b.events, n)
  }

  predicate SameDelivery(e: Event, f: Event) {
    e.fingerprint == f.fingerprint ==> Canonical(e) == Canonical(f)
  }

  /** Deliveries of one fingerprint agree. */
  ghost predicate Agreeing(events: seq<Event>, n: nat)
    requires n <= |events|
  {
    forall i, j :: 0 <= i < j < n ==> SameDelivery(events[i], events[j])
  }

  lemma {:induction false} CleanExactly(b: Bucket, hash: Hash, n: nat)
    requires n <= |b.events|
    ensures Collect(b, hash, n).issues == {} <==> Clean(b, hash, n)
    ensures Clean(b, hash, n) ==> forall i :: 0 <= i < n ==> Canonical(b.events[i]) in Collect(b, hash, n).kept
  {
    hide EventIssues, Canonical, Admit;
    if n > 0 {
      CleanExactly(b, hash, n - 1);
      CleanStep(b, hash, n);
      var c, e := Collect(b, hash, n - 1), b.events[n - 1];
      AdmitClean(b, hash, c, e);
      if Clean(b, hash, n - 1) {
        KeptDecides(b, hash, n);
      }
    }
  }

  lemma AdmitClean(b: Bucket, hash: Hash, c: Collected, e: Event)
    ensures var d, kept := Admit(b, hash, c, e), Find(c.kept, e.fingerprint);
      && (d.issues == {} <==> c.issues == {} && EventIssues(b, e, hash) == {}
                               && (kept.None? || kept.value == Canonical(e)))
      && (forall x :: x in c.kept ==> x in d.kept)
      && (kept.None? ==> Canonical(e) in d.kept)
  {
    hide EventIssues, Canonical, Find;
  }

  lemma CleanStep(b: Bucket, hash: Hash, n: nat)
    requires 0 < n <= |b.events|
    ensures Clean(b, hash, n) <==>
      && Clean(b, hash, n - 1) && EventIssues(b, b.events[n - 1], hash) == {}
      && forall i :: 0 <= i < n - 1 ==> SameDelivery(b.events[i], b.events[n - 1])
  {
    hide EventIssues, Canonical;
  }

  lemma KeptDecides(b: Bucket, hash: Hash, n: nat)
    requires 0 < n <= |b.events| && Agreeing(b.events, n - 1)
    requires forall i :: 0 <= i < n - 1 ==> Canonical(b.events[i]) in Collect(b, hash, n - 1).kept
    ensures var e := b.events[n - 1]; var kept := Find(Collect(b, hash, n - 1).kept, e.fingerprint);
      && ((kept.None? || kept.value == Canonical(e)) <==> forall i :: 0 <= i < n - 1 ==> SameDelivery(b.events[i], e))
      && (kept.Some? ==> kept.value in Collect(b, hash, n - 1).kept)
  {
    hide EventIssues, Collect;
    var c, e := Collect(b, hash, n - 1), b.events[n - 1];
    KeptMeaning(b, hash, n - 1);
    KeptDistinct(b, hash, n - 1);
    FindMeaning(c.kept, e.fingerprint);
    var kept := Find(c.kept, e.fingerprint);
    if kept.Some? {
      assert IsCanonicalEvent(b, n - 1, kept.value);
      var j :| 0 <= j < n - 1 && kept.value == Canonical(b.events[j]);
      assert b.events[j].fingerprint == e.fingerprint;
      forall i | 0 <= i < n - 1 && b.events[i].fingerprint == e.fingerprint
        ensures Canonical(b.events[i]) == kept.value
      {
        assert i == j || SameDelivery(b.events[i], b.events[j]) by {
          if i < j { assert SameDelivery(b.events[i], b.events[j]); }
          else if j < i { assert SameDelivery(b.events[j], b.events[i]); }
        }
      }
    } else {
      forall i | 0 <= i < n - 1 ensures b.events[i].fingerprint != e.fingerprint {
        var x := Canonical(b.events[i]);
        assert x in c.kept;
        var k :| 0 <= k < |c.kept| && c.kept[k] == x;
      }
    }
  }

  /** A bucket is blocked exactly when an issue was handed in, an event fails a check, or two
      deliveries of one fingerprint differ; totals exist exactly when it is not blocked. */
  lemma BlockedExactlyWhen(b: Bucket, hash: Hash)
    requires KeyValid(b)
    ensures AggregateBucket(b, hash).Some?
    ensures var a := AggregateBucket(b, hash).value;
      && (a.status == Blocked <==> !Clean(b, hash, |b.events|))
      && (a.totals.Some? <==> a.status != Blocked)
      && (a.status == Empty ==> b.events == [])
      && (a.status == Valid ==> b.events != [])
  {
    hide Collect, Clean, SortBy, TotalsOf, KeyValid;
    var c := Collect(b, hash, |b.events|);
    CleanExactly(b, hash, |b.events|);
    SortElements(PrintOf, c.kept);
    KeptDistinct(b, hash, |b.events|);
    if b.events != [] && c.issues == {} {
      assert Canonical(b.events[0]) in c.kept;
    }
  }

  // ---------------------------------------------------------------- fixed point

  lemma {:induction false} Recollects(s: Bucket, hash: Hash, n: nat)
    requires n <= |s.events| && DistinctKeys(PrintOf, s.events)
    requires forall e :: e in s.events ==> Canonical(e) == e && EventIssues(s, e, hash) <= s.issues
    ensures Collect(s, hash, n) == Collected(s.issues, s.events[..n])
  {
    hide EventIssues, Canonical, Admit;
    if n > 0 {
      Recollects(s, hash, n - 1);
      var e := s.events[n - 1];
      assert e in s.events;
      NotFound(s.events, n - 1, e.fingerprint);
      AdmitNew(s, hash, Collected(s.issues, s.events[..n - 1]), e);
      assert s.events[..n] == s.events[..n - 1] + [e];
    }
  }

  lemma AdmitNew(b: Bucket, hash: Hash, c: Collected, e: Event)
    requires Find(c.kept, e.fingerprint).None? && Canonical(e) == e && EventIssues(b, e, hash) <= c.issues
    ensures Admit(b, hash, c, e) == Collected(c.issues, c.kept + [e])
  {
    hide EventIssues, Canonical, Find;
    assert c.issues + EventIssues(b, e, hash) == c.issues;
  }

  lemma NotFound(events: seq<Event>, n: nat, p: Id)
    requires n < |events| && DistinctKeys(PrintOf, events) && events[n].fingerprint == p
    ensures Find(events[..n], p) == None
  {
    FindMeaning(events[..n], p);
    assert forall k :: 0 <= k < n ==> PrintOf(events[k]) != PrintOf(events[n]);
  }

  /** Sorting the members changes neither what they admit nor whether they are valid. */
  lemma MembersSorted(ms: seq<Member>)
    requires ScopeValid(ms)
    ensures var sorted := SortBy(WalletOf, ms);
      && ScopeValid(sorted) && SortBy(WalletOf, sorted) == sorted
      && forall w :: InScope(sorted, w) <==> InScope(ms, w)
  {
    hide SortBy;
    var sorted := SortBy(WalletOf, ms);
    SortElements(WalletOf, ms);
    SortIncreases(WalletOf, ms);
    SortIdempotent(WalletOf, sorted);
    forall i | 0 <= i < |sorted|
      ensures sorted[i].selectionRunId == ms[0].selectionRunId && sorted[i].performanceRunId.Some?
        && sorted[i].address.Hex?
    {
      assert sorted[i] in ms;
    }
    forall i, j | 0 <= i < j < |sorted| ensures sorted[i].walletAddressId != sorted[j].walletAddressId {
      assert WalletOf(sorted[i]) < WalletOf(sorted[j]);
    }
    forall w ensures InScope(sorted, w) <==> InScope(ms, w) {
      ScopeByMembers(ms, w);
      ScopeByMembers(sorted, w);
    }
  }

  lemma ScopeByMembers(ms: seq<Member>, w: Id)
    ensures InScope(ms, w) <==> exists m :: m in ms && m.walletAddressId == w
  {
    if m :| m in ms && m.walletAddressId == w {
      var i :| 0 <= i < |ms| && ms[i] == m;
    }
    if i :| 0 <= i < |ms| && ms[i].walletAddressId == w {
      assert ms[i] in ms;
    }
  }

  lemma SameScopeIssues(b: Bucket, s: Bucket, e: Event, hash: Hash)
    requires s.coin == b.coin && s.start == b.start && forall w :: InScope(s.members, w) <==> InScope(b.members, w)
    ensures EventIssues(s, e, hash) == EventIssues(b, e, hash)
  {
    hide SemanticFor, AmountValid, InScope;
  }

  /** Aggregating the snapshot of a result reproduces the result, blocked or not. */
  lemma FixedPoint(b: Bucket, hash: Hash)
    requires AggregateBucket(b, hash).Some?
    ensures AggregateBucket(AggregateBucket(b, hash).value.snapshot, hash) == AggregateBucket(b, hash)
  {
    hide Collect, SortBy, TotalsOf, EventIssues, Canonical, ScopeValid, InScope, BucketStart;
    var n := |b.events|;
    var c := Collect(b, hash, n);
    var s := AggregateBucket(b, hash).value.snapshot;
    KeptMeaning(b, hash, n);
    KeptDistinct(b, hash, n);
    MembersSorted(b.members);
    SortElements(PrintOf, c.kept);
    SortIncreases(PrintOf, c.kept);
    SortIdempotent(PrintOf, s.events);
    forall e | e in s.events ensures Canonical(e) == e && EventIssues(s, e, hash) <= s.issues {
      assert IsCanonicalEvent(b, n, e);
      var i :| 0 <= i < n && e == Canonical(b.events[i]);
      CanonicalIssues(b, b.events[i], hash);
      SameScopeIssues(b, s, e, hash);
    }
    Recollects(s, hash, |s.events|);
    assert s.events[..|s.events|] == s.events;
  }

  // ---------------------------------------------------------------- freedom from the delivery

  /** The issues of the first `n` events. */
  function EveryIssue(b: Bucket, hash: Hash, n: nat): set<Issue>
    requires n <= |b.events|
  {
    if n == 0 then {} else EveryIssue(b, hash, n - 1) + EventIssues(b, b.events[n - 1], hash)
  }

  lemma {:induction false} EveryIssueMembers(b: Bucket, hash: Hash, n: nat, x: Issue)
    requires n <= |b.events|
    ensures x in EveryIssue(b, hash, n) <==> exists i :: 0 <= i < n && x in EventIssues(b, b.events[i], hash)
  {
    hide EventIssues;
    if n > 0 { EveryIssueMembers(b, hash, n - 1, x); }
  }

  /** Of agreeing events all issues are reported and all canonical forms are kept. */
  lemma {:induction false} AgreeingCollected(b: Bucket, hash: Hash, n: nat)
    requires n <= |b.events| && Agreeing(b.events, n)
    ensures var c := Collect(b, hash, n);
      && c.issues == b.issues + EveryIssue(b, hash, n)
      && forall i :: 0 <= i < n ==> Canonical(b.events[i]) in c.kept
  {
    hide EventIssues, Canonical, Find;
    if n > 0 {
      AgreeingCollected(b, hash, n - 1);
      KeptDecides(b, hash, n);
      var e := b.events[n - 1];
      assert forall i :: 0 <= i < n - 1 ==> SameDelivery(b.events[i], e);
    }
  }

  lemma AgreeingElements(b: Bucket, hash: Hash)
    requires Agreeing(b.events, |b.events|)
    ensures forall x :: x in Collect(b, hash, |b.events|).kept <==> exists e :: e in b.events && x == Canonical(e)
  {
    hide EventIssues, Canonical, Collect, Agreeing;
    var n := |b.events|;
    KeptMeaning(b, hash, n);
    AgreeingCollected(b, hash, n);
    var kept := Collect(b, hash, n).kept;
    forall x | x in kept ensures exists e :: e in b.events && x == Canonical(e) {
      assert IsCanonicalEvent(b, n, x);
    }
    forall x | exists e :: e in b.events && x == Canonical(e) ensures x in kept {
      var e :| e in b.events && x == Canonical(e);
      var i :| 0 <= i < n && b.events[i] == e;
    }
  }

  /** Two deliveries of the same bucket: the same members and events, in any order and repeated. */
  ghost predicate SameBucket(b: Bucket, d: Bucket) {
    && b.coin == d.coin && b.start == d.start && b.issues == d.issues
    && |b.members| == |d.members| && (forall m :: m in b.members <==> m in d.members)
    && (forall e :: e in b.events <==> e in d.events)
  }

  lemma AgreeingIgnoresDelivery(events: seq<Event>, more: seq<Event>)
    requires Agreeing(events, |events|) && forall e :: e in more ==> e in events
    ensures Agreeing(more, |more|)
  {
    hide Canonical;
    forall i, j | 0 <= i < j < |more| ensures SameDelivery(more[i], more[j]) {
      assert more[i] in events && more[j] in events;
      var k :| 0 <= k < |events| && events[k] == more[i];
      var m :| 0 <= m < |events| && events[m] == more[j];
      if k < m { assert SameDelivery(events[k], events[m]); }
      else if m < k { assert SameDelivery(events[m], events[k]); }
    }
  }

  lemma IssuesIgnoreDelivery(b: Bucket, d: Bucket, hash: Hash)
    requires SameBucket(b, d)
    ensures EveryIssue(d, hash, |d.events|) <= EveryIssue(b, hash, |b.events|)
  {
    hide EventIssues, EveryIssue, InScope;
    forall w ensures InScope(d.members, w) <==> InScope(b.members, w) {
      ScopeByMembers(b.members, w);
      ScopeByMembers(d.members, w);
    }
    forall x | x in EveryIssue(d, hash, |d.events|) ensures x in EveryIssue(b, hash, |b.events|) {
      EveryIssueMembers(d, hash, |d.events|, x);
      EveryIssueMembers(b, hash, |b.events|, x);
      var i :| 0 <= i < |d.events| && x in EventIssues(d, d.events[i], hash);
      assert d.events[i] in b.events;
      var k :| 0 <= k < |b.events| && b.events[k] == d.events[i];
      SameScopeIssues(b, d, d.events[i], hash);
    }
  }

  /** Where the deliveries of each fingerprint agree, the result, blocked or not, is unchanged by reordering
      or repeating the events and by reordering the members. */
  lemma DeliveryFree(b: Bucket, d: Bucket, hash: Hash)
    requires KeyValid(b) && SameBucket(b, d) && |d.events| <= MAX_EVENTS
    requires Agreeing(b.events, |b.events|)
    ensures AggregateBucket(d, hash) == AggregateBucket(b, hash)
  {
    hide Collect, SortBy, TotalsOf, EventIssues, EveryIssue, Canonical, BucketStart, InScope, Agreeing, ScopeValid;
    AgreeingIgnoresDelivery(b.events, d.events);
    AgreeingCollected(b, hash, |b.events|);
    AgreeingCollected(d, hash, |d.events|);
    IssuesIgnoreDelivery(b, d, hash);
    IssuesIgnoreDelivery(d, b, hash);
    assert EveryIssue(b, hash, |b.events|) == EveryIssue(d, hash, |d.events|);
    AgreeingElements(b, hash);
    AgreeingElements(d, hash);
    KeptDistinct(b, hash, |b.events|);
    KeptDistinct(d, hash, |d.events|);
    SortIgnoresListing(PrintOf, Collect(b, hash, |b.events|).kept, Collect(d, hash, |d.events|).kept);
    MembersIgnoreListing(b.members, d.members);
  }

  // ---------------------------------------------------------------- dependence on the delivery

  lemma {:induction false} FirstStays(b: Bucket, hash: Hash, n: nat)
    requires 0 < n <= |b.events|
    ensures Find(Collect(b, hash, n).kept, b.events[0].fingerprint) == Some(Canonical(b.events[0]))
  {
    hide EventIssues, AmountValid, Find;
    var first := b.events[0];
    if n == 1 {
      assert Collect(b, hash, 0) == Collected(b.issues, []);
      assert Find([], first.fingerprint) == None by { FindMeaning([], first.fingerprint); }
      FindAppend([], Canonical(first));
    } else {
      FirstStays(b, hash, n - 1);
      FindAppend(Collect(b, hash, n - 1).kept, Canonical(b.events[n - 1]));
    }
  }

  /** A canonical form is in the snapshot exactly when it is the one kept of its fingerprint. */
  lemma InSnapshot(b: Bucket, hash: Hash, e: Event)
    requires KeyValid(b)
    ensures AggregateBucket(b, hash).Some?
    ensures e in AggregateBucket(b, hash).value.snapshot.events <==>
      Find(Collect(b, hash, |b.events|).kept, e.fingerprint) == Some(e)
  {
    hide Collect, SortBy, TotalsOf, KeyValid, Find;
    var kept := Collect(b, hash, |b.events|).kept;
    SortElements(PrintOf, kept);
    KeptDistinct(b, hash, |b.events|);
    FindMeaning(kept, e.fingerprint);
    if e in kept {
      var k :| 0 <= k < |kept| && kept[k] == e;
      var f := Find(kept, e.fingerprint).value;
      var m :| 0 <= m < |kept| && kept[m] == f;
      assert PrintOf(kept[k]) == PrintOf(kept[m]);
    }
  }

  function ToFront(events: seq<Event>, m: nat): seq<Event>
    requires m < |events|
  {
    [events[m]] + events[..m] + events[m + 1..]
  }

  lemma ToFrontSame(b: Bucket, m: nat)
    requires m < |b.events|
    ensures SameBucket(b, b.(events := ToFront(b.events, m))) && |ToFront(b.events, m)| == |b.events|
    ensures multiset(ToFront(b.events, m)) == multiset(b.events)
  {
    assert b.events == b.events[..m] + [b.events[m]] + b.events[m + 1..];
    var events, moved := b.events, ToFront(b.events, m);
    forall e ensures e in events <==> e in moved {
      assert e in multiset(events) <==> e in multiset(moved);
    }
  }

  /** Delivered first, an event is the one kept of its fingerprint. */
  lemma FrontIsKept(b: Bucket, hash: Hash, m: nat)
    requires KeyValid(b) && m < |b.events|
    ensures var d := b.(events := ToFront(b.events, m));
      KeyValid(d) && Canonical(b.events[m]) in AggregateBucket(d, hash).value.snapshot.events
  {
    hide Collect, AggregateBucket, ScopeValid, BucketStart, AmountValid, Find;
    var d := b.(events := ToFront(b.events, m));
    FirstStays(d, hash, |d.events|);
    InSnapshot(d, hash, Canonical(b.events[m]));
  }

  /** Of two conflicting deliveries one is not in the snapshot; delivering that one first puts it there. */
  lemma ConflictDependsOnDelivery(b: Bucket, hash: Hash, i: nat, j: nat) returns (d: Bucket)
    requires KeyValid(b) && i < j < |b.events| && !SameDelivery(b.events[i], b.events[j])
    ensures SameBucket(b, d) && KeyValid(d) && multiset(d.events) == multiset(b.events)
    ensures AggregateBucket(d, hash).value.snapshot.events != AggregateBucket(b, hash).value.snapshot.events
  {
    hide KeyValid, AggregateBucket, AmountValid, SameBucket, ToFront;
    var e, f := Canonical(b.events[i]), Canonical(b.events[j]);
    InSnapshot(b, hash, e);
    InSnapshot(b, hash, f);
    var m := if e in AggregateBucket(b, hash).value.snapshot.events then j else i;
    d := b.(events := ToFront(b.events, m));
    ToFrontSame(b, m);
    FrontIsKept(b, hash, m);
  }

  /** A result is the same for every delivery of its bucket if and only if the deliveries of each
      fingerprint agree. */
  lemma DeliveryFreeExactlyWhen(b: Bucket, hash: Hash)
    requires KeyValid(b)
    ensures (forall d :: SameBucket(b, d) && |d.events| <= MAX_EVENTS ==>
              AggregateBucket(d, hash) == AggregateBucket(b, hash))
      <==> Agreeing(b.events, |b.events|)
  {
    hide AggregateBucket, SameBucket, Canonical;
    if Agreeing(b.events, |b.events|) {
      forall d | SameBucket(b, d) && |d.events| <= MAX_EVENTS
        ensures AggregateBucket(d, hash) == AggregateBucket(b, hash)
      {
        DeliveryFree(b, d, hash);
      }
    } else {
      var i, j :| 0 <= i < j < |b.events| && !SameDelivery(b.events[i], b.events[j]);
      var d := ConflictDependsOnDelivery(b, hash, i, j);
    }
  }

  lemma MembersIgnoreListing(a: seq<Member>, b: seq<Member>)
    requires ScopeValid(a) && |a| == |b| && forall m :: m in a <==> m in b
    ensures ScopeValid(b) && SortBy(WalletOf, a) == SortBy(WalletOf, b)
  {
    hide SortBy;
    assert DistinctKeys(WalletOf, a);
    SameLengthDistinct(WalletOf, a, b);
    forall i | 0 <= i < |b|
      ensures b[i].selectionRunId == a[0].selectionRunId && b[i].performanceRunId.Some? && b[i].address.Hex?
    {
      assert b[i] in a;
    }
    SortIgnoresListing(WalletOf, a, b);
    assert forall i, j :: 0 <= i < j < |b| ==> WalletOf(b[i]) != WalletOf(b[j]);
  }

  // ---------------------------------------------------------------- totals

  const DIRECTIONS: seq<string> := ["LONG", "SHORT"]
  const ACTIONS: seq<string> := ["OPEN", "INCREASE", "REDUCE", "CLOSE"]

  /** A text with one separator splits in one way. */
  lemma SplitsOnce(d: string, r: string, head: string, tail: string)
    requires d + "_" + r == head + "_" + tail && '_' !in head && '_' !in tail
    ensures d == head && r == tail
  {
    var s, m, n := head + "_" + tail, |d|, |head|;
    assert s[m] == '_' && s[n] == '_';
    assert forall k :: 0 <= k < n ==> s[k] == head[k] != '_';
    assert forall k :: n < k < |s| ==> s[k] == tail[k - n - 1] != '_';
    assert d == s[..m] && head == s[..n] && r == s[m + 1..] && tail == s[n + 1..];
  }

  lemma NoSeparators()
    ensures forall i :: 0 <= i < 2 ==> '_' !in DIRECTIONS[i]
    ensures forall i :: 0 <= i < 4 ==> '_' !in ACTIONS[i]
  {
    assert '_' !in "LONG" && '_' !in "SHORT";
    assert '_' !in "OPEN" && '_' !in "INCREASE" && '_' !in "REDUCE" && '_' !in "CLOSE";
  }

  lemma SemanticsJoined(i: nat, j: nat)
    requires i < 2 && j < 4
    ensures SEMANTICS[4 * i + j] == DIRECTIONS[i] + "_" + ACTIONS[j]
  {
    assert "LONG_OPEN" == "LONG" + "_" + "OPEN" && "LONG_INCREASE" == "LONG" + "_" + "INCREASE";
    assert "LONG_REDUCE" == "LONG" + "_" + "REDUCE" && "LONG_CLOSE" == "LONG" + "_" + "CLOSE";
    assert "SHORT_OPEN" == "SHORT" + "_" + "OPEN" && "SHORT_INCREASE" == "SHORT" + "_" + "INCREASE";
    assert "SHORT_REDUCE" == "SHORT" + "_" + "REDUCE" && "SHORT_CLOSE" == "SHORT" + "_" + "CLOSE";
  }

  /** The semantics are those of the two directions and four event types, and no other spelling. */
  lemma SemanticMeaning(e: Event)
    ensures SemanticFor(e).Some? <==>
      e.direction in DIRECTIONS && exists a :: a in ACTIONS && e.eventType == PREFIX + a
  {
    if SemanticFor(e).Some? {
      var rest := e.eventType[|PREFIX|..];
      assert e.eventType == PREFIX + rest;
      var k :| 0 <= k < 8 && e.direction + "_" + rest == SEMANTICS[k];
      SemanticsJoined(k / 4, k % 4);
      NoSeparators();
      SplitsOnce(e.direction, rest, DIRECTIONS[k / 4], ACTIONS[k % 4]);
      assert rest in ACTIONS;
    }
    if e.direction in DIRECTIONS && exists a :: a in ACTIONS && e.eventType == PREFIX + a {
      var a :| a in ACTIONS && e.eventType == PREFIX + a;
      var i :| 0 <= i < 2 && DIRECTIONS[i] == e.direction;
      var j :| 0 <= j < 4 && ACTIONS[j] == a;
      SemanticsJoined(i, j);
      assert e.eventType[|PREFIX|..] == a;
      assert SEMANTICS[4 * i + j] in SEMANTICS;
    }
  }

  lemma SemanticsDistinct()
    ensures Distinct(SEMANTICS)
  {
    forall i, j | 0 <= i < j < 8 ensures SEMANTICS[i] != SEMANTICS[j] {
      SemanticsJoined(i / 4, i % 4);
      SemanticsJoined(j / 4, j % 4);
      NoSeparators();
      if SEMANTICS[i] == SEMANTICS[j] {
        SplitsOnce(DIRECTIONS[i / 4], ACTIONS[i % 4], DIRECTIONS[j / 4], ACTIONS[j % 4]);
        PartsDiffer(i / 4, j / 4, i % 4, j % 4);
      }
    }
  }

  lemma PartsDiffer(a: nat, b: nat, c: nat, d: nat)
    requires a < 2 && b < 2 && c < 4 && d < 4
    ensures DIRECTIONS[a] == DIRECTIONS[b] ==> a == b
    ensures ACTIONS[c] == ACTIONS[d] ==> c == d
  {
    assert "LONG"[0] != "SHORT"[0];
    assert "OPEN"[0] == 'O' && "INCREASE"[0] == 'I' && "REDUCE"[0] == 'R' && "CLOSE"[0] == 'C';
  }

  function CountIn(events: seq<Event>): string -> int {
    s => |WithSemantic(events, s)|
  }

  function NotionalIn(events: seq<Event>): string -> int {
    s => Sum(UnitsOf, WithSemantic(events, s))
  }

  /** The eight cells partition the events: each event is in exactly one, and counts and notionals add
      up to the totals. */
  lemma CellsPartition(events: seq<Event>)
    requires forall e :: e in events ==> SemanticFor(e).Some?
    ensures Sum(CountIn(events), SEMANTICS) == |events|
    ensures Sum(NotionalIn(events), SEMANTICS) == Sum(UnitsOf, events)
  {
    hide SemanticFor, Sum;
    SemanticsDistinct();
    forall e | e in events ensures SemanticFor(e).Some? && SemanticFor(e).value in SEMANTICS {
      SemanticListed(e);
    }
    CellsOver(events, SEMANTICS);
  }

  lemma {:induction false} CellsOver(events: seq<Event>, cells: seq<string>)
    requires Distinct(cells)
    requires forall e :: e in events ==> SemanticFor(e).Some? && SemanticFor(e).value in cells
    ensures Sum(CountIn(events), cells) == |events|
    ensures Sum(NotionalIn(events), cells) == Sum(UnitsOf, events)
  {
    hide SemanticFor, Sum, WithSemantic, UnitsOf;
    if events == [] {
      EmptyCells(cells);
      EmptySum();
    } else {
      var n := |events| - 1;
      var front, e := events[..n], events[n];
      assert forall x :: x in front ==> x in events;
      CellsOver(front, cells);
      SumAppend(UnitsOf, front, e);
      assert events == front + [e];
      assert e in events;
      var own := SemanticFor(e).value;
      forall k | 0 <= k < |cells|
        ensures CountIn(events)(cells[k]) == CountIn(front)(cells[k]) + if cells[k] == own then 1 else 0
        ensures NotionalIn(events)(cells[k]) == NotionalIn(front)(cells[k]) + if cells[k] == own then UnitsOf(e) else 0
      {
        CellGrows(events, cells[k]);
      }
      SumPoint(CountIn(front), CountIn(events), own, 1, cells);
      SumPoint(NotionalIn(front), NotionalIn(events), own, UnitsOf(e), cells);
    }
  }

  lemma SemanticListed(e: Event)
    requires SemanticFor(e).Some?
    ensures SemanticFor(e).value in SEMANTICS
  {
  }

  lemma CellGrows(events: seq<Event>, semantic: string)
    requires events != []
    ensures var n := |events| - 1; var own := SemanticFor(events[n]) == Some(semantic);
      && |WithSemantic(events, semantic)| == |WithSemantic(events[..n], semantic)| + (if own then 1 else 0)
      && Sum(UnitsOf, WithSemantic(events, semantic))
         == Sum(UnitsOf, WithSemantic(events[..n], semantic)) + if own then UnitsOf(events[n]) else 0
  {
    hide SemanticFor, UnitsOf;
    var n := |events| - 1;
    if SemanticFor(events[n]) == Some(semantic) {
      SumAppend(UnitsOf, WithSemantic(events[..n], semantic), events[n]);
    } else {
      assert WithSemantic(events, semantic) == WithSemantic(events[..n], semantic);
    }
  }

  lemma EmptySum()
    ensures Sum(UnitsOf, []) == 0
  {
  }

  lemma {:induction false} EmptyCells(cells: seq<string>)
    ensures Sum(CountIn([]), cells) == 0 && Sum(NotionalIn([]), cells) == 0
  {
    if cells != [] { EmptyCells(cells[..|cells| - 1]); }
  }

  /** The cell of a semantic holds exactly its events, so the wallets of the cells are those of the total. */
  lemma {:induction false} CellMembers(events: seq<Event>, semantic: string)
    ensures forall e :: e in WithSemantic(events, semantic) <==> e in events && SemanticFor(e) == Some(semantic)
  {
    hide SemanticFor;
    if events != [] {
      var n := |events| - 1;
      CellMembers(events[..n], semantic);
      assert events == events[..n] + [events[n]];
    }
  }

  /** 10^42: sums of amounts need at most 42 digits, so 80-digit sums are exact. */
  const SUM_LIMIT: int := 1_000_000_000_000_000_000_000_000_000_000_000_000_000_000

  lemma {:induction false} SumsStayExact(events: seq<Event>)
    requires forall e :: e in events ==> AmountValid(e.notional)
    ensures 0 <= Sum(UnitsOf, events) <= |events| * AMOUNT_LIMIT
    ensures |events| <= MAX_EVENTS ==> Sum(UnitsOf, events) <= SUM_LIMIT
  {
    if events != [] {
      var n := |events| - 1;
      assert events[n] in events;
      assert forall x :: x in events[..n] ==> x in events;
      SumsStayExact(events[..n]);
    }
  }

  /** The totals of a bucket that is not blocked: exact, and partitioned by the eight cells. */
  lemma TotalsAddUp(b: Bucket, hash: Hash)
    requires AggregateBucket(b, hash).Some? && AggregateBucket(b, hash).value.totals.Some?
    ensures var a := AggregateBucket(b, hash).value; var events, t := a.snapshot.events, a.totals.value;
      && t.all.eventCount == |events| == Sum(CountIn(events), SEMANTICS)
      && t.all.notional == Sum(UnitsOf, events) == Sum(NotionalIn(events), SEMANTICS)
      && 0 <= t.all.notional <= SUM_LIMIT
      && forall k :: 0 <= k < |SEMANTICS| ==>
           SEMANTICS[k] in t.semantics && t.semantics[SEMANTICS[k]] == CellOf(WithSemantic(events, SEMANTICS[k]))
  {
    hide Collect, SortBy, EventIssues, Canonical, BucketStart, ScopeValid, Sum, SemanticFor;
    var n := |b.events|;
    var events := AggregateBucket(b, hash).value.snapshot.events;
    KeptMeaning(b, hash, n);
    KeptDistinct(b, hash, n);
    SortElements(PrintOf, Collect(b, hash, n).kept);
    forall e | e in events ensures SemanticFor(e).Some? && AmountValid(e.notional) {
      assert EventIssues(b, e, hash) <= {};
      NoIssues(b, e, hash);
    }
    CellsPartition(events);
    SumsStayExact(events);
  }

  lemma NoIssues(b: Bucket, e: Event, hash: Hash)
    requires EventIssues(b, e, hash) <= {}
    ensures SemanticFor(e).Some? && AmountValid(e.notional) && InScope(b.members, e.walletAddressId)
  {
    hide SemanticFor, InScope;
    var issues := EventIssues(b, e, hash);
    assert InvalidSemantic(e.id) !in issues && InvalidDecimal(e.id) !in issues
        && InconsistentProvenance(e.id) !in issues;
  }

  /** The wallets of the total are those of the cells. */
  lemma WalletsOfCells(events: seq<Event>, w: Id)
    requires forall e :: e in events ==> SemanticFor(e).Some?
    ensures w in CellOf(events).walletIds <==>
      exists k :: 0 <= k < |SEMANTICS| && w in CellOf(WithSemantic(events, SEMANTICS[k])).walletIds
  {
    hide SemanticFor, Sum;
    if w in CellOf(events).walletIds {
      var i :| 0 <= i < |events| && events[i].walletAddressId == w;
      assert events[i] in events;
      SemanticListed(events[i]);
      var k :| 0 <= k < |SEMANTICS| && SEMANTICS[k] == SemanticFor(events[i]).value;
      CellMembers(events, SEMANTICS[k]);
      assert events[i] in WithSemantic(events, SEMANTICS[k]);
    }
    if k :| 0 <= k < |SEMANTICS| && w in CellOf(WithSemantic(events, SEMANTICS[k])).walletIds {
      var cell := WithSemantic(events, SEMANTICS[k]);
      var i :| 0 <= i < |cell| && cell[i].walletAddressId == w;
      CellMembers(events, SEMANTICS[k]);
      assert cell[i] in cell;
      var j :| 0 <= j < |events| && events[j] == cell[i];
    }
  }
}
