/** packages/analytics/src/behavior-aggregation.ts: the events of one coin and one 15-minute bucket
    are validated, deduplicated by fingerprint and totalled, or the bucket is blocked. */
module Aggregation {

  // Identifiers and texts are natural numbers ordered as their text is; a sorted array of distinct texts
  // is the set of them; the hash of an event identity is a parameter.

  import opened Sequences

  type Id = nat

  const BUCKET_MS: int := 900_000
  const MAX_EVENTS: nat := 10_000
  const MAX_MEMBERS: nat := 200
  const BEHAVIOR_VERSION: Id := 1

  /** 10^38: amounts below 10^20 with 18 decimals. */
  const AMOUNT_LIMIT: int := 100_000_000_000_000_000_000_000_000_000_000_000_000

  /** A decimal text: a value of at most 18 decimals and how it is spelled, or anything else. */
  datatype Amount = Plain(units: int, spelling: nat) | Unreadable(text: nat)

  /** A canonical UTC millisecond text, or anything else. */
  datatype Stamp = At(ms: int) | Malformed(text: nat)

  datatype Address = Hex(value: Id) | NotHex(text: nat)

  datatype Member = Member(walletAddressId: Id, address: Address, selectionRunId: Id, performanceRunId: Option<Id>)

  datatype Event = Event(
    id: Id, fingerprint: Id, behaviorVersion: Id, walletAddressId: Id, coin: string, occurredAt: Stamp,
    eventType: string, direction: string, notional: Amount, sourceEventId: Id, sourceOrdinal: int,
    normalizationRunId: Option<Id>, generationSelectionRunId: Option<Id>, generationPerformanceRunId: Option<Id>)

  datatype Issue =
    | Upstream(text: Id)
    | InvalidDecimal(id: Id)
    | InvalidTimestamp(id: Id)
    | InconsistentProvenance(id: Id)
    | InvalidIdentity(id: Id)
    | InvalidSemantic(id: Id)
    | ConflictingDuplicate(fingerprint: Id)

  /** The input of the aggregate and, with sorted members and events, the snapshot it returns. */
  datatype Bucket = Bucket(coin: string, start: Stamp, members: seq<Member>, events: seq<Event>, issues: set<Issue>)

  type Hash = (Id, Id, int) -> Id

  // ---------------------------------------------------------------- keys and scope

  function BucketStart(s: Stamp): Option<int> {
    match s
    case At(ms) => Some(ms / BUCKET_MS * BUCKET_MS)
    case Malformed(_) => None
  }

  function WalletOf(m: Member): int {
    m.walletAddressId
  }

  predicate ScopeValid(ms: seq<Member>) {
    && 0 < |ms| <= MAX_MEMBERS
    && (forall i, j :: 0 <= i < j < |ms| ==> ms[i].walletAddressId != ms[j].walletAddressId)
    && (forall i :: 0 <= i < |ms| ==> ms[i].selectionRunId == ms[0].selectionRunId)
    && (forall i :: 0 <= i < |ms| ==> ms[i].performanceRunId.Some? && ms[i].address.Hex?)
  }

  predicate InScope(ms: seq<Member>, wallet: Id) {
    exists i :: 0 <= i < |ms| && ms[i].walletAddressId == wallet
  }

  // ---------------------------------------------------------------- semantics

  const SEMANTICS: seq<string> := [
    "LONG_OPEN", "LONG_INCREASE", "LONG_REDUCE", "LONG_CLOSE",
    "SHORT_OPEN", "SHORT_INCREASE", "SHORT_REDUCE", "SHORT_CLOSE"]

  const PREFIX: string := "POSITION_"

  function SemanticFor(e: Event): Option<string> {
    var rest := if PREFIX <= e.eventType then e.eventType[|PREFIX|..] else e.eventType;
    var mapped := e.direction + "_" + rest;
    if PREFIX <= e.eventType && mapped in SEMANTICS then Some(mapped) else None
  }

  // ---------------------------------------------------------------- one event

  predicate AmountValid(a: Amount) {
    a.Plain? && 0 <= a.units < AMOUNT_LIMIT
  }

  function Canonical(e: Event): Event {
    if AmountValid(e.notional) then e.(notional := Plain(e.notional.units, 0)) else e
  }

  function Raise(broken: bool, issue: Issue): set<Issue> {
    if broken then {issue} else {}
  }

  function EventIssues(b: Bucket, e: Event, hash: Hash): set<Issue> {
    Raise(!AmountValid(e.notional), InvalidDecimal(e.id))
    + Raise(BucketStart(e.occurredAt).None? || BucketStart(e.occurredAt) != BucketStart(b.start),
            InvalidTimestamp(e.id))
    + Raise(e.coin != b.coin || e.behaviorVersion != BEHAVIOR_VERSION || !InScope(b.members, e.walletAddressId)
            || e.generationSelectionRunId.None? || e.generationPerformanceRunId.None? || e.normalizationRunId.None?,
            InconsistentProvenance(e.id))
    + Raise(e.sourceOrdinal !in {0, 1} || e.fingerprint != hash(e.behaviorVersion, e.sourceEventId, e.sourceOrdinal),
            InvalidIdentity(e.id))
    + Raise(SemanticFor(e).None?, InvalidSemantic(e.id))
  }

  // ---------------------------------------------------------------- the loop over the events

  datatype Collected = Collected(issues: set<Issue>, kept: seq<Event>)

  function Find(kept: seq<Event>, fingerprint: Id): Option<Event> {
    if kept == [] then None
    else if kept[|kept| - 1].fingerprint == fingerprint then Some(kept[|kept| - 1])
    else Find(kept[..|kept| - 1], fingerprint)
  }

  /** One event: its issues are added; the first of a fingerprint is kept, a differing one conflicts. */
  function Admit(b: Bucket, hash: Hash, c: Collected, e: Event): Collected {
    var issues := c.issues + EventIssues(b, e, hash);
    match Find(c.kept, e.fingerprint)
    case None => Collected(issues, c.kept + [Canonical(e)])
    case Some(previous) =>
      if previous == Canonical(e) then Collected(issues, c.kept)
      else Collected(issues + {ConflictingDuplicate(e.fingerprint)}, c.kept)
  }

  function Collect(b: Bucket, hash: Hash, n: nat): Collected
    requires n <= |b.events|
  {
    if n == 0 then Collected(b.issues, []) else Admit(b, hash, Collect(b, hash, n - 1), b.events[n - 1])
  }

  function PrintOf(e: Event): int {
    e.fingerprint
  }

  // ---------------------------------------------------------------- totals

  datatype Cell = Cell(eventCount: nat, walletIds: set<Id>, notional: int)

  function UnitsOf(e: Event): int {
    if e.notional.Plain? then e.notional.units else 0
  }

  function CellOf(events: seq<Event>): Cell {
    Cell(|events|, set k | 0 <= k < |events| :: events[k].walletAddressId, Sum(UnitsOf, events))
  }

  function WithSemantic(events: seq<Event>, semantic: string): seq<Event> {
    if events == [] then []
    else
      var n := |events| - 1;
      WithSemantic(events[..n], semantic) + if SemanticFor(events[n]) == Some(semantic) then [events[n]] else []
  }

  datatype Totals = Totals(all: Cell, semantics: map<string, Cell>)

  function TotalsOf(events: seq<Event>): Totals {
    Totals(CellOf(events), map s | s in SEMANTICS :: CellOf(WithSemantic(events, s)))
  }

  datatype Status = Blocked | Valid | Empty

  datatype Aggregate = Aggregate(snapshot: Bucket, status: Status, totals: Option<Totals>)

  predicate KeyValid(b: Bucket) {
    && BucketStart(b.start).Some? && b.start == At(BucketStart(b.start).value)
    && 0 < |b.coin| <= 100
    && ScopeValid(b.members) && |b.events| <= MAX_EVENTS
  }

  /** The aggregate of a bucket; `None` where the source throws. */
  function AggregateBucket(b: Bucket, hash: Hash): Option<Aggregate> {
    if !KeyValid(b) then None
    else
      var c := Collect(b, hash, |b.events|);
      var ordered := SortBy(PrintOf, c.kept);
      var snapshot := b.(members := SortBy(WalletOf, b.members), events := ordered, issues := c.issues);
      Some(Aggregate(snapshot,
                     if c.issues != {} then Blocked else if ordered != [] then Valid else Empty,
                     if c.issues != {} then None else Some(TotalsOf(ordered))))
  }

  method AggregateBehaviorBucket(b: Bucket, hash: Hash) returns (r: Option<Aggregate>)
    ensures r == AggregateBucket(b, hash)
  {
    hide Collect, SortBy, TotalsOf, KeyValid;
    if !KeyValid(b) { return None; }
    var collected := CollectEvents(b, hash);
    var issues, ordered := collected.issues, SortBy(PrintOf, collected.kept);
    var snapshot := b.(members := SortBy(WalletOf, b.members), events := ordered, issues := issues);
    var totals: Option<Totals> := None;
    if issues == {} {
      totals := Some(TotalsOf(ordered));
    }
    r := Some(Aggregate(snapshot, if issues != {} then Blocked else if ordered != [] then Valid else Empty, totals));
  }

  method CollectEvents(b: Bucket, hash: Hash) returns (c: Collected)
    ensures c == Collect(b, hash, |b.events|)
  {
    hide EventIssues, AmountValid;
    var issues := b.issues;
    var events: map<Id, Event> := map[];
    var kept: seq<Event> := [];
    for n := 0 to |b.events|
      invariant Collect(b, hash, n) == Collected(issues, kept)
      invariant forall p :: Find(kept, p) == if p in events then Some(events[p]) else None
    {
      var event := b.events[n];
      var canonical := Canonical(event);
      assert Find(kept, event.fingerprint) ==
          if event.fingerprint in events then Some(events[event.fingerprint]) else None;
      issues := issues + EventIssues(b, event, hash);
      if event.fingerprint in events && events[event.fingerprint] != canonical {
        issues := issues + {ConflictingDuplicate(event.fingerprint)};
      } else {
        if event.fingerprint !in events {
          FindAppend(kept, canonical);
          kept := kept + [canonical];
        }
        events := events[event.fingerprint := canonical];
      }
    }
    c := Collected(issues, kept);
  }

  lemma FindAppend(kept: seq<Event>, e: Event)
    ensures forall p :: Find(kept + [e], p) == if p == e.fingerprint then Some(e) else Find(kept, p)
  {
    assert (kept + [e])[..|kept|] == kept;
  }
}
