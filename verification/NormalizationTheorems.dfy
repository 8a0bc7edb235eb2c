/** What a normalised timestamp group guarantees: acceptance in declarative terms, conservation of
    the position, and freedom from the order and the repetition of the delivered fills. */
module NormalizationTheorems {

  import opened Sequences
  import opened Decimals
  import opened CausalSearch
  import opened BehaviorNormalization

  // ---------------------------------------------------------------- which groups are collected

  /** No negative quantity, and deliveries of one source event agree. */
  ghost predicate Consistent(fills: seq<Fill>, n: nat)
    requires n <= |fills|
  {
    && (forall i :: 0 <= i < n ==> fills[i].quantity >= 0)
    && forall i, j :: 0 <= i < j < n ==> Agree(fills[i], fills[j])
  }

  predicate Agree(f: Fill, g: Fill) {
    f.sourceEventId == g.sourceEventId ==> SnapshotOf(f) == SnapshotOf(g)
  }

  /** The kept edges come from the fills, and every fill agrees with a kept edge of its source event. */
  ghost predicate Covers(es: seq<Edge<Fill>>, fills: seq<Fill>, n: nat)
    requires n <= |fills|
  {
    && (forall k :: 0 <= k < |es| ==> FromFill(es[k], fills, n))
    && (forall i :: 0 <= i < n ==> HasEdge(es, fills[i]))
  }

  ghost predicate FromFill(e: Edge<Fill>, fills: seq<Fill>, n: nat)
    requires n <= |fills|
  {
    exists i :: 0 <= i < n && e == EdgeOf(fills[i])
  }

  ghost predicate HasEdge(es: seq<Edge<Fill>>, f: Fill) {
    exists k :: 0 <= k < |es| && es[k].fill.sourceEventId == f.sourceEventId
                && SnapshotOf(es[k].fill) == SnapshotOf(f)
  }

  lemma {:induction false} CollectMeaning(fills: seq<Fill>, n: nat)
    requires n <= |fills|
    ensures var c := Collect(fills, n);
      (c.Edges? <==> Consistent(fills, n)) && (c.Edges? ==> Covers(c.edges, fills, n))
  {
    if n == 0 {
      NothingCollected(fills);
    } else {
      hide Consistent, Covers, Round20;
      CollectMeaning(fills, n - 1);
      ConsistentStep(fills, n);
      var c := Collect(fills, n - 1);
      if c.Edges? { CollectStep(fills, n, c.edges); }
    }
  }

  lemma NothingCollected(fills: seq<Fill>)
    ensures Consistent(fills, 0) && Covers([], fills, 0)
  {
  }

  lemma CollectStep(fills: seq<Fill>, n: nat, es: seq<Edge<Fill>>)
    requires 0 < n <= |fills| && Collect(fills, n - 1) == Edges(es)
    requires Consistent(fills, n - 1) && Covers(es, fills, n - 1)
    ensures var c := Collect(fills, n);
      (c.Edges? <==> Consistent(fills, n)) && (c.Edges? ==> Covers(c.edges, fills, n))
  {
    hide Round20, Consistent, Covers;
    var f := fills[n - 1];
    ConsistentStep(fills, n);
    KeptDecides(fills, n, es);
    if Kept(es, f.sourceEventId).None? {
      CoversMore(es, fills, n);
    } else if SnapshotOf(Kept(es, f.sourceEventId).value) == SnapshotOf(f) {
      CoversSame(es, fills, n);
    }
  }

  lemma ConsistentStep(fills: seq<Fill>, n: nat)
    requires 0 < n <= |fills|
    ensures Consistent(fills, n) <==>
      && Consistent(fills, n - 1) && fills[n - 1].quantity >= 0
      && forall i :: 0 <= i < n - 1 ==> Agree(fills[i], fills[n - 1])
  {
  }

  lemma CoversSame(es: seq<Edge<Fill>>, fills: seq<Fill>, n: nat)
    requires 0 < n <= |fills| && Covers(es, fills, n - 1) && HasEdge(es, fills[n - 1])
    ensures Covers(es, fills, n)
  {
    hide Round20;
    forall k | 0 <= k < |es| ensures FromFill(es[k], fills, n) {
      assert FromFill(es[k], fills, n - 1);
    }
  }

  /** The fill agrees with all earlier ones exactly when it agrees with the kept edge, if any. */
  lemma KeptDecides(fills: seq<Fill>, n: nat, es: seq<Edge<Fill>>)
    requires 0 < n <= |fills| && Covers(es, fills, n - 1) && Consistent(fills, n - 1)
    ensures var f := fills[n - 1]; var kept := Kept(es, f.sourceEventId);
      && ((kept.None? || SnapshotOf(kept.value) == SnapshotOf(f))
          <==> forall i :: 0 <= i < n - 1 ==> Agree(fills[i], f))
      && (kept.Some? && SnapshotOf(kept.value) == SnapshotOf(f) ==> HasEdge(es, f))
  {
    var f := fills[n - 1];
    KeptMeaning(es, f.sourceEventId);
    var kept := Kept(es, f.sourceEventId);
    if kept.Some? {
      var k :| 0 <= k < |es| && es[k].fill == kept.value;
      assert FromFill(es[k], fills, n - 1);
      var j :| 0 <= j < n - 1 && es[k] == EdgeOf(fills[j]);
      assert fills[j] == kept.value;
      forall i | 0 <= i < n - 1 && SnapshotOf(kept.value) == SnapshotOf(f) ensures Agree(fills[i], f) {
        assert if i < j then Agree(fills[i], fills[j]) else i == j || Agree(fills[j], fills[i]);
      }
    } else {
      forall i | 0 <= i < n - 1 ensures Agree(fills[i], f) {
        assert HasEdge(es, fills[i]);
        var k :| 0 <= k < |es| && es[k].fill.sourceEventId == fills[i].sourceEventId;
        assert es[k] in es;
      }
    }
  }

  lemma CoversMore(es: seq<Edge<Fill>>, fills: seq<Fill>, n: nat)
    requires 0 < n <= |fills| && Covers(es, fills, n - 1)
    ensures Covers(es + [EdgeOf(fills[n - 1])], fills, n)
  {
    hide Round20;
    var more := es + [EdgeOf(fills[n - 1])];
    forall k | 0 <= k < |more| ensures FromFill(more[k], fills, n) {
      if k < |es| { assert FromFill(es[k], fills, n - 1); }
    }
    forall i | 0 <= i < n ensures HasEdge(more, fills[i]) {
      if i < n - 1 {
        assert HasEdge(es, fills[i]);
        var k :| 0 <= k < |es| && es[k].fill.sourceEventId == fills[i].sourceEventId
                 && SnapshotOf(es[k].fill) == SnapshotOf(fills[i]);
        assert more[k] == es[k];
      } else {
        assert more[|es|].fill == fills[i];
      }
    }
  }

  // ---------------------------------------------------------------- when a group is accepted

  predicate Moves(e: Edge<Fill>) {
    e.before != e.after
  }

  /** A transition is refused exactly when the position does not change. */
  lemma TransitionMoves(f: Fill, before: int, after: int)
    ensures EventsForTransition(f, before, after).None? <==> before == after
  {
    hide Round20;
  }

  lemma {:induction false} LegsDefined(boundary: int, w: seq<Edge<Fill>>, n: nat)
    requires Chained(boundary, w) && n <= |w|
    ensures LegsAlong(boundary, w, n).Some? <==> forall k :: 0 <= k < n ==> Moves(w[k])
  {
    if n > 0 {
      LegsDefined(boundary, w, n - 1);
      TransitionMoves(w[n - 1].fill, w[n - 1].before, w[n - 1].after);
    }
  }

  /** The deduplicated edges of a group; none when the deliveries are refused. */
  function KeptEdges(fills: seq<Fill>): seq<Edge<Fill>> {
    match Collect(fills, |fills|)
    case Edges(es) => es
    case Refused(_) => []
  }

  /** Exactly when a non-empty group is normalised: supported quote, one timestamp, consistent
      deliveries, every fill moves the position, one causal order, and a search within its budget. */
  lemma AcceptedExactlyWhen(boundary: int, fills: seq<Fill>, market: Market)
    requires fills != []
    ensures Normalize(Some(boundary), fills, market).Normalized? <==>
      && QuoteSupported(market) && OneTimestamp(fills) && Consistent(fills, |fills|)
      && (forall e :: e in KeptEdges(fills) ==> Moves(e))
      && OneOrder(KeptEdges(fills), boundary)
      && TreeSize(KeptEdges(fills), boundary) <= MAX_BRANCH_SEARCH_STEPS
  {
    hide OneOrder, TreeSize, Solve, Consistent;
    CollectMeaning(fills, |fills|);
    CollectDistinct(fills, |fills|);
    SolvedExactlyWhen(KeptEdges(fills), boundary);
  }

  lemma SolvedExactlyWhen(es: seq<Edge<Fill>>, boundary: int)
    requires Distinct(es)
    ensures Solve(es, boundary).Normalized? <==>
      (forall e :: e in es ==> Moves(e)) && OneOrder(es, boundary)
      && TreeSize(es, boundary) <= MAX_BRANCH_SEARCH_STEPS
    ensures Solve(es, boundary).Normalized? ==>
      exists w :: IsOrder(es, boundary, w) && Solve(es, boundary) == Ordered(boundary, w)
  {
    SearchVerdict(es, boundary, MAX_BRANCH_SEARCH_STEPS);
    var chains := Scan(Nodes(es, boundary, []), 0, |es|, [], MAX_BRANCH_SEARCH_STEPS);
    if |chains| == 1 {
      SearchOrder(es, boundary, MAX_BRANCH_SEARCH_STEPS);
      var w := Along(es, chains[0]);
      LegsDefined(boundary, w, |w|);
      OrderUsesAll(es, boundary, w);
    }
  }

  /** A causal order holds every edge. */
  lemma OrderUsesAll(es: seq<Edge<Fill>>, boundary: int, w: seq<Edge<Fill>>)
    requires Distinct(es) && IsOrder(es, boundary, w)
    ensures forall e :: e in es <==> e in w
  {
    forall e | e in es ensures e in w {
      if e !in w {
        ConcatDistinct(w, [e]);
        DistinctBound(w + [e], es);
      }
    }
  }

  // ---------------------------------------------------------------- conservation

  /** The events lead from one position to the other, each starting where the previous one ended. */
  ghost predicate Telescopes(from: int, events: seq<Event>, to: int) {
    if events == [] then from == to
    else
      var last := events[|events| - 1];
      last.afterPosition == to && Telescopes(from, events[..|events| - 1], last.beforePosition)
  }

  lemma TransitionTelescopes(from: int, events: seq<Event>, f: Fill, before: int, after: int)
    requires Telescopes(from, events, before) && EventsForTransition(f, before, after).Some?
    ensures Telescopes(from, events + EventsForTransition(f, before, after).value, after)
  {
    hide Round20;
    var legs := EventsForTransition(f, before, after).value;
    if |legs| == 1 {
      assert (events + legs)[..|events|] == events;
    } else {
      assert (events + legs)[..|events| + 1] == events + [legs[0]];
      assert (events + [legs[0]])[..|events|] == events;
    }
  }

  lemma {:induction false} LegsTelescope(boundary: int, w: seq<Edge<Fill>>, n: nat)
    requires n <= |w| && LegsAlong(boundary, w, n).Some?
    ensures Telescopes(boundary, LegsAlong(boundary, w, n).value, if n == 0 then boundary else w[n - 1].after)
  {
    if n > 0 {
      LegsTelescope(boundary, w, n - 1);
      TransitionTelescopes(boundary, LegsAlong(boundary, w, n - 1).value, w[n - 1].fill,
                           if n == 1 then boundary else w[n - 2].after, w[n - 1].after);
    }
  }

  /** The 20-digit addition recorded the fill's change of the position without rounding. */
  predicate Exact(f: Fill) {
    Fits20(f.startPosition + SignedDelta(f))
  }

  lemma ExactEdge(f: Fill)
    ensures Exact(f) <==> EdgeOf(f).after == EdgeOf(f).before + SignedDelta(f)
  {
    Round20Exact(f.startPosition + SignedDelta(f));
  }

  function Deltas(fills: seq<Fill>): int {
    Sum(SignedDelta, fills)
  }

  function FillsOf(w: seq<Edge<Fill>>): seq<Fill> {
    seq(|w|, k requires 0 <= k < |w| => w[k].fill)
  }

  lemma {:induction false} ChainConserves(boundary: int, w: seq<Edge<Fill>>, n: nat)
    requires Chained(boundary, w) && n <= |w|
    requires forall k :: 0 <= k < n ==> w[k].after == w[k].before + SignedDelta(w[k].fill)
    ensures (if n == 0 then boundary else w[n - 1].after) == boundary + Deltas(FillsOf(w)[..n])
  {
    if n > 0 {
      ChainConserves(boundary, w, n - 1);
      SumAppend(SignedDelta, FillsOf(w)[..n - 1], w[n - 1].fill);
      assert FillsOf(w)[..n] == FillsOf(w)[..n - 1] + [w[n - 1].fill];
    }
  }

  /** With one row per source event nothing is dropped. */
  lemma {:induction false} AllKept(fills: seq<Fill>, n: nat)
    requires n <= |fills| && Collect(fills, n).Edges?
    requires forall i, j :: 0 <= i < j < n ==> fills[i].sourceEventId != fills[j].sourceEventId
    ensures FillsOf(Collect(fills, n).edges) == fills[..n]
  {
    if n > 0 {
      hide KeptEdges, EdgeOf, FillsOf, Kept;
      AllKept(fills, n - 1);
      var es := Collect(fills, n - 1).edges;
      NotKeptYet(es, fills, n);
      OneMoreFill(es, fills[n - 1]);
      assert fills[..n] == fills[..n - 1] + [fills[n - 1]];
    } else {
      assert FillsOf([]) == [];
    }
  }

  lemma NotKeptYet(es: seq<Edge<Fill>>, fills: seq<Fill>, n: nat)
    requires 0 < n <= |fills| && FillsOf(es) == fills[..n - 1]
    requires forall i, j :: 0 <= i < j < n ==> fills[i].sourceEventId != fills[j].sourceEventId
    ensures Kept(es, fills[n - 1].sourceEventId).None?
  {
    KeptMeaning(es, fills[n - 1].sourceEventId);
    forall k | 0 <= k < |es| ensures es[k].fill == fills[k] {
      assert FillsOf(es)[k] == es[k].fill;
    }
  }

  lemma OneMoreFill(es: seq<Edge<Fill>>, f: Fill)
    ensures FillsOf(es + [EdgeOf(f)]) == FillsOf(es) + [f]
  {
    hide Round20;
  }

  /** An accepted group: its events telescope from the boundary to the position reported, along the
      causal order of its fills; when every addition was exact that position is the boundary plus
      the signed quantities of the kept fills. */
  lemma AcceptedConserves(boundary: int, fills: seq<Fill>, market: Market)
    requires fills != [] && Normalize(Some(boundary), fills, market).Normalized?
    ensures var r, es := Normalize(Some(boundary), fills, market), KeptEdges(fills);
      && Telescopes(boundary, r.events, r.afterPosition)
      && (exists w :: IsOrder(es, boundary, w) && r == Ordered(boundary, w))
      && ((forall f :: f in fills ==> Exact(f)) ==> r.afterPosition == boundary + Deltas(FillsOf(es)))
  {
    hide TreeSize, Solve, Consistent, Exact;
    var es := KeptEdges(fills);
    CollectMeaning(fills, |fills|);
    CollectDistinct(fills, |fills|);
    SolvedExactlyWhen(es, boundary);
    var w :| IsOrder(es, boundary, w) && Solve(es, boundary) == Ordered(boundary, w);
    LegsTelescope(boundary, w, |w|);
    if forall f :: f in fills ==> Exact(f) {
      OrderConserves(boundary, fills, es, w);
    }
  }

  /** Along a causal order of exact fills every edge moves the position by its signed quantity. */
  lemma OrderIsExact(boundary: int, fills: seq<Fill>, es: seq<Edge<Fill>>, w: seq<Edge<Fill>>)
    requires IsOrder(es, boundary, w) && Covers(es, fills, |fills|)
    requires forall f :: f in fills ==> Exact(f)
    ensures forall k :: 0 <= k < |w| ==> w[k].after == w[k].before + SignedDelta(w[k].fill)
  {
    hide Exact, EdgeOf, SignedDelta;
    forall k | 0 <= k < |w| ensures w[k].after == w[k].before + SignedDelta(w[k].fill) {
      assert w[k] in es;
      var j :| 0 <= j < |es| && es[j] == w[k];
      assert FromFill(es[j], fills, |fills|);
      var i :| 0 <= i < |fills| && w[k] == EdgeOf(fills[i]);
      assert fills[i] in fills;
      ExactEdge(fills[i]);
      EdgeFill(fills[i]);
    }
  }

  lemma OrderConserves(boundary: int, fills: seq<Fill>, es: seq<Edge<Fill>>, w: seq<Edge<Fill>>)
    requires Distinct(es) && IsOrder(es, boundary, w) && Covers(es, fills, |fills|)
    requires forall f :: f in fills ==> Exact(f)
    ensures (if w == [] then boundary else w[|w| - 1].after) == boundary + Deltas(FillsOf(es))
  {
    OrderIsExact(boundary, fills, es, w);
    ChainConserves(boundary, w, |w|);
    assert FillsOf(w)[..|w|] == FillsOf(w);
    OrderUsesAll(es, boundary, w);
    SameElements(w, es);
    SumOverEdges(w);
    SumOverEdges(es);
    SumPermuted(EdgeDelta, w, es);
  }

  lemma EdgeFill(f: Fill)
    ensures EdgeOf(f).fill == f
  {
  }

  function EdgeDelta(e: Edge<Fill>): int {
    SignedDelta(e.fill)
  }

  lemma {:induction false} SumOverEdges(w: seq<Edge<Fill>>)
    ensures Sum(EdgeDelta, w) == Deltas(FillsOf(w))
  {
    if w != [] {
      var n := |w| - 1;
      SumOverEdges(w[..n]);
      assert FillsOf(w)[..n] == FillsOf(w[..n]);
    }
  }

  // ---------------------------------------------------------------- order and repetition

  /** Two deliveries of one source event are the same fill, unless its quantity is zero. */
  ghost predicate IdenticalDeliveries(fills: seq<Fill>) {
    forall f, g :: f in fills && g in fills && f.sourceEventId == g.sourceEventId && f.quantity == 0 ==> f == g
  }

  lemma AgreeingFillsAreIdentical(f: Fill, g: Fill)
    requires f.sourceEventId == g.sourceEventId && SnapshotOf(f) == SnapshotOf(g)
    requires f.quantity > 0 && g.quantity >= 0
    ensures f == g
  {
  }

  lemma EdgesAreTheFills(fills: seq<Fill>)
    requires Consistent(fills, |fills|) && IdenticalDeliveries(fills)
    ensures forall f :: f in fills ==> EdgeOf(f) in KeptEdges(fills)
    ensures forall e :: e in KeptEdges(fills) ==> e.fill in fills && e == EdgeOf(e.fill)
  {
    hide Round20, Consistent;
    CollectMeaning(fills, |fills|);
    var es := KeptEdges(fills);
    forall e | e in es ensures e.fill in fills && e == EdgeOf(e.fill) {
      var k :| 0 <= k < |es| && es[k] == e;
      assert FromFill(es[k], fills, |fills|);
    }
    forall f | f in fills ensures EdgeOf(f) in es {
      var i :| 0 <= i < |fills| && fills[i] == f;
      assert HasEdge(es, fills[i]);
      var k :| 0 <= k < |es| && es[k].fill.sourceEventId == f.sourceEventId && SnapshotOf(es[k].fill) == SnapshotOf(f);
      assert es[k] in es;
      var g := es[k].fill;
      assert g in fills;
      QuantityNonNegative(fills, f);
      QuantityNonNegative(fills, g);
      if f.quantity > 0 { AgreeingFillsAreIdentical(f, g); }
      assert es[k] == EdgeOf(f);
    }
  }

  lemma QuantityNonNegative(fills: seq<Fill>, f: Fill)
    requires Consistent(fills, |fills|) && f in fills
    ensures f.quantity >= 0
  {
  }

  lemma ConsistentIgnoresListing(fills: seq<Fill>, more: seq<Fill>)
    requires Consistent(fills, |fills|) && forall f :: f in more ==> f in fills
    ensures Consistent(more, |more|)
  {
    forall i | 0 <= i < |more| ensures more[i].quantity >= 0 {
      assert more[i] in fills;
    }
    forall i, j | 0 <= i < j < |more| ensures Agree(more[i], more[j]) {
      assert more[i] in fills && more[j] in fills;
      var k :| 0 <= k < |fills| && fills[k] == more[i];
      var m :| 0 <= m < |fills| && fills[m] == more[j];
      assert k == m || Agree(fills[k], fills[m]) || Agree(fills[m], fills[k]);
      if k < m { assert Agree(fills[k], fills[m]); } else if m < k { assert Agree(fills[m], fills[k]); }
    }
  }

  /** Of deliveries that are identical per source event, the listing and the repetition do not matter. */
  lemma ListingFree(boundary: int, fills: seq<Fill>, more: seq<Fill>, market: Market)
    requires forall f :: f in fills <==> f in more
    requires IdenticalDeliveries(fills)
    requires Normalize(Some(boundary), fills, market).Normalized?
    ensures Normalize(Some(boundary), more, market) == Normalize(Some(boundary), fills, market)
  {
    hide TreeSize, Solve, Consistent, OneOrder, EdgeOf, Moves;
    NothingListed(fills, more);
    if fills != [] {
      AcceptedExactlyWhen(boundary, fills, market);
      assert fills[0] in more;
      ConsistentIgnoresListing(fills, more);
      OneTimestampIgnoresListing(fills, more);
      CollectMeaning(fills, |fills|);
      CollectMeaning(more, |more|);
      CollectDistinct(fills, |fills|);
      CollectDistinct(more, |more|);
      SameEdges(fills, more);
      SolveIgnoresListing(KeptEdges(fills), KeptEdges(more), boundary);
    }
  }

  lemma NothingListed(fills: seq<Fill>, more: seq<Fill>)
    requires forall f :: f in more ==> f in fills
    ensures fills == [] ==> more == []
  {
    if more != [] { assert more[0] in more; }
  }

  lemma OneTimestampIgnoresListing(fills: seq<Fill>, more: seq<Fill>)
    requires OneTimestamp(fills) && forall f :: f in more ==> f in fills
    ensures OneTimestamp(more)
  {
    forall k | 0 <= k < |more| ensures more[k].occurredAt == more[0].occurredAt {
      assert more[k] in fills && more[0] in fills;
    }
  }

  lemma SameEdges(fills: seq<Fill>, more: seq<Fill>)
    requires Consistent(fills, |fills|) && Consistent(more, |more|) && IdenticalDeliveries(fills)
    requires forall f :: f in fills <==> f in more
    ensures forall e :: e in KeptEdges(fills) <==> e in KeptEdges(more)
  {
    hide Consistent, EdgeOf;
    assert IdenticalDeliveries(more);
    EdgesAreTheFills(fills);
    EdgesAreTheFills(more);
  }

  lemma SolveIgnoresListing(es: seq<Edge<Fill>>, fs: seq<Edge<Fill>>, boundary: int)
    requires Distinct(es) && Distinct(fs) && forall e :: e in es <==> e in fs
    requires Solve(es, boundary).Normalized?
    ensures Solve(fs, boundary) == Solve(es, boundary)
  {
    hide Solve, TreeSize;
    SolvedExactlyWhen(es, boundary);
    SolvedExactlyWhen(fs, boundary);
    TreeSizeIgnoresListing(es, fs, boundary);
    SameLength(es, fs);
    OrdersIgnoreListing(es, fs, boundary);
    var w :| IsOrder(es, boundary, w) && Solve(es, boundary) == Ordered(boundary, w);
    var v :| IsOrder(fs, boundary, v) && Solve(fs, boundary) == Ordered(boundary, v);
    assert IsOrder(es, boundary, v);
  }

  lemma OrdersIgnoreListing(es: seq<Edge<Fill>>, fs: seq<Edge<Fill>>, boundary: int)
    requires |es| == |fs| && forall e :: e in es <==> e in fs
    ensures forall w :: IsOrder(es, boundary, w) <==> IsOrder(fs, boundary, w)
    ensures OneOrder(es, boundary) ==> OneOrder(fs, boundary)
  {
  }

  // ---------------------------------------------------------------- fills without a side

  /** A quantity of zero bought is the same fill as a quantity of zero sold. */
  function Plain(f: Fill): Fill {
    if f.quantity == 0 then f.(side := Buy) else f
  }

  function Plains(fills: seq<Fill>): seq<Fill> {
    seq(|fills|, k requires 0 <= k < |fills| => Plain(fills[k]))
  }

  function PlainEdges(es: seq<Edge<Fill>>): seq<Edge<Fill>> {
    seq(|es|, k requires 0 <= k < |es| => es[k].(fill := Plain(es[k].fill)))
  }

  lemma PlainFields(f: Fill)
    ensures SnapshotOf(Plain(f)) == SnapshotOf(f) && Plain(f).quantity == f.quantity
    ensures Plain(f).sourceEventId == f.sourceEventId && Plain(f).occurredAt == f.occurredAt
    ensures EdgeOf(Plain(f)) == EdgeOf(f).(fill := Plain(f))
  {
    hide Round20;
  }

  lemma {:induction false} KeptPlain(es: seq<Edge<Fill>>, id: Id)
    ensures Kept(PlainEdges(es), id)
         == match Kept(es, id) { case Some(f) => Some(Plain(f)) case None => None }
  {
    if es != [] {
      var n := |es| - 1;
      assert PlainEdges(es)[..n] == PlainEdges(es[..n]);
      KeptPlain(es[..n], id);
    }
  }

  lemma {:induction false} CollectPlain(fills: seq<Fill>, n: nat)
    requires n <= |fills|
    ensures Collect(Plains(fills), n)
         == match Collect(fills, n) { case Edges(es) => Edges(PlainEdges(es)) case Refused(r) => Refused(r) }
  {
    hide Kept, EdgeOf, SnapshotOf, Plain;
    if n == 0 {
      assert PlainEdges([]) == [];
    } else {
      CollectPlain(fills, n - 1);
      var f, c := fills[n - 1], Collect(fills, n - 1);
      PlainFields(f);
      if c.Edges? {
        KeptPlain(c.edges, f.sourceEventId);
        assert PlainEdges(c.edges + [EdgeOf(f)]) == PlainEdges(c.edges) + [EdgeOf(Plain(f))] by { EdgeFill(f); }
        if Kept(c.edges, f.sourceEventId).Some? { PlainFields(Kept(c.edges, f.sourceEventId).value); }
      }
    }
  }

  lemma PlainLegs(f: Fill, before: int, after: int)
    ensures EventsForTransition(Plain(f), before, after) == EventsForTransition(f, before, after)
  {
    hide Round20;
  }

  lemma {:induction false} LegsPlain(boundary: int, w: seq<Edge<Fill>>, n: nat)
    requires n <= |w|
    ensures LegsAlong(boundary, PlainEdges(w), n) == LegsAlong(boundary, w, n)
  {
    hide EventsForTransition, Plain;
    if n > 0 {
      LegsPlain(boundary, w, n - 1);
      PlainLegs(w[n - 1].fill, if n == 1 then boundary else w[n - 2].after, w[n - 1].after);
    }
  }

  lemma OrderedPlain(boundary: int, w: seq<Edge<Fill>>)
    ensures Ordered(boundary, PlainEdges(w)) == Ordered(boundary, w)
  {
    hide LegsAlong;
    LegsPlain(boundary, w, |w|);
    assert SourceIds(PlainEdges(w)) == SourceIds(w);
  }

  lemma SolvePlain(es: seq<Edge<Fill>>, boundary: int)
    requires Distinct(es) && Distinct(PlainEdges(es))
    ensures Solve(PlainEdges(es), boundary) == Solve(es, boundary)
  {
    hide Nodes, Scan, Ordered;
    NodesByMoves(es, PlainEdges(es), boundary, []);
    var chains := Scan(Nodes(es, boundary, []), 0, |es|, [], MAX_BRANCH_SEARCH_STEPS);
    if |chains| == 1 {
      SearchOrder(es, boundary, MAX_BRANCH_SEARCH_STEPS);
      var w := Along(es, chains[0]);
      assert Along(PlainEdges(es), chains[0]) == PlainEdges(w);
      OrderedPlain(boundary, w);
    }
  }

  /** The side of a fill of quantity zero does not show in the output. */
  lemma NormalizePlain(boundary: int, fills: seq<Fill>, market: Market)
    ensures Normalize(Some(boundary), Plains(fills), market) == Normalize(Some(boundary), fills, market)
  {
    hide Solve, Collect, Plain;
    CollectPlain(fills, |fills|);
    CollectDistinct(fills, |fills|);
    CollectDistinct(Plains(fills), |fills|);
    forall k | 0 <= k < |fills| ensures Plains(fills)[k].occurredAt == fills[k].occurredAt { PlainFields(fills[k]); }
    if Collect(fills, |fills|).Edges? { SolvePlain(Collect(fills, |fills|).edges, boundary); }
  }

  lemma PlainsAreIdentical(fills: seq<Fill>)
    requires Consistent(fills, |fills|)
    ensures IdenticalDeliveries(Plains(fills))
  {
    var ps := Plains(fills);
    forall f, g | f in ps && g in ps && f.sourceEventId == g.sourceEventId && f.quantity == 0 ensures f == g {
      var i :| 0 <= i < |fills| && ps[i] == f;
      var j :| 0 <= j < |fills| && ps[j] == g;
      assert if i < j then Agree(fills[i], fills[j]) else i == j || Agree(fills[j], fills[i]);
    }
  }

  lemma SamePlains(fills: seq<Fill>, more: seq<Fill>)
    requires forall f :: f in fills ==> f in more
    ensures forall f :: f in Plains(fills) ==> f in Plains(more)
  {
    hide Plain;
    forall f | f in Plains(fills) ensures f in Plains(more) {
      var i :| 0 <= i < |fills| && Plains(fills)[i] == f;
      assert fills[i] in more;
      var j :| 0 <= j < |more| && more[j] == fills[i];
      assert Plains(more)[j] == f;
    }
  }

  /** The whole output of an accepted group is unchanged by permuting its fills and by repeating them. */
  lemma OrderAndRepetitionFree(boundary: int, fills: seq<Fill>, more: seq<Fill>, market: Market)
    requires forall f :: f in fills <==> f in more
    requires Normalize(Some(boundary), fills, market).Normalized?
    ensures Normalize(Some(boundary), more, market) == Normalize(Some(boundary), fills, market)
  {
    hide Normalize, Consistent, Moves, OneOrder, TreeSize, Plains, IdenticalDeliveries;
    NothingListed(fills, more);
    if fills != [] {
      AcceptedExactlyWhen(boundary, fills, market);
      PlainsAreIdentical(fills);
      SamePlains(fills, more);
      SamePlains(more, fills);
      NormalizePlain(boundary, fills, market);
      NormalizePlain(boundary, more, market);
      ListingFree(boundary, Plains(fills), Plains(more), market);
    }
  }

  // ---------------------------------------------------------------- a group of one fill

  lemma OneEdge(e: Edge<Fill>, boundary: int)
    ensures TreeSize([e], boundary) <= 2
    ensures forall w :: IsOrder([e], boundary, w) <==> w == [e] && e.before == boundary
  {
    hide Nodes;
    var nodes: seq<seq<nat>>, both: seq<seq<nat>> := Nodes([e], boundary, []), [[], [0]];
    NodesDistinct([e], boundary, []);
    forall q | q in nodes ensures q in both {
      NodesSound([e], boundary, [], q);
      assert q == both[|q|];
    }
    DistinctBound(nodes, both);
    forall w | IsOrder([e], boundary, w) ensures w == [e] && e.before == boundary {
      assert w[0] in w;
    }
  }

  lemma SingleFill(boundary: int, f: Fill, market: Market)
    requires QuoteSupported(market) && f.quantity >= 0
    ensures var r := Normalize(Some(boundary), [f], market);
      if f.startPosition == boundary then r == Ordered(boundary, [EdgeOf(f)])
      else r == Rejected(ImpossibleTransition)
  {
    hide Round20, TreeSize, Nodes, Ordered;
    var es := [EdgeOf(f)];
    assert Collect([f], 1) == Edges(es) by { assert Collect([f], 0) == Edges([]); assert [] + es == es; }
    OneEdge(EdgeOf(f), boundary);
    SearchVerdict(es, boundary, MAX_BRANCH_SEARCH_STEPS);
    if f.startPosition == boundary {
      assert IsOrder(es, boundary, es);
      SearchOrder(es, boundary, MAX_BRANCH_SEARCH_STEPS);
    }
  }

  /** For one fill the reported position is the exact one if and only if the sum fits 20 digits. */
  lemma SingleFillConserves(boundary: int, f: Fill, market: Market)
    requires Normalize(Some(boundary), [f], market).Normalized?
    ensures Normalize(Some(boundary), [f], market).afterPosition == boundary + SignedDelta(f) <==> Exact(f)
  {
    hide Exact;
    AcceptedExactlyWhen(boundary, [f], market);
    assert [f][0].quantity >= 0;
    SingleFill(boundary, f, market);
    ExactEdge(f);
  }

  /** A position of 100 units that grows by 15 times 10^-18 is recorded 20 times 10^-18 larger. */
  lemma RoundingLosesDigits() returns (f: Fill)
    ensures var r := Normalize(Some(LIMIT), [f], Market("USDC", true));
      f.startPosition == LIMIT && f.quantity == 15 && f.side == Buy && r.Normalized? && r.afterPosition == LIMIT + 20
  {
    f := Fill(1, None, 0, Buy, 15, 1, LIMIT, 0);
    assert Excess(LIMIT + 15) == 1 by { assert Excess((LIMIT + 15) / 10) == 0; }
    assert Pow10(1) == 10 by { assert Pow10(0) == 1; }
    assert Round20(LIMIT + 15) == LIMIT + 20;
    assert QuoteSupported(Market("USDC", true)) by { UpperUsdc(); }
    SingleFill(LIMIT, f, Market("USDC", true));
    LegsDefined(LIMIT, [EdgeOf(f)], 1);
  }

  lemma UpperUsdc()
    ensures Upper("USDC") == "USDC"
  {
    assert Upper("") == "";
    assert Upper("C") == "C";
    assert Upper("DC") == "DC";
    assert Upper("SDC") == "SDC";
  }
}
