/** A group with exactly one causal order that the search gives up on: 450 units bought one by one and
    sold one by one at one time. */
module BudgetExample {

  import opened Sequences
  import opened Decimals
  import opened CausalSearch
  import opened BehaviorNormalization
  import opened NormalizationTheorems

  const STEPS: nat := 450

  // ---------------------------------------------------------------- up and down again

  /** The first `m` fills buy from 0 to `m`, the other `m` sell back; the fill from `i + 1` to `i` is the
      `m + i`th. */
  function FillAt(m: nat, k: nat): Fill {
    if k < m then Fill(k, None, 0, Buy, 1, 1, k, 0) else Fill(k, None, 0, Sell, 1, 1, k - m + 1, 0)
  }

  function EdgeAt(m: nat, k: nat): Edge<Fill> {
    if k < m then Edge(FillAt(m, k), k, k + 1) else Edge(FillAt(m, k), k - m + 1, k - m)
  }

  function RoundTrip(m: nat): (es: seq<Edge<Fill>>)
    ensures |es| == 2 * m && Distinct(es)
  {
    seq(2 * m, k requires 0 <= k < 2 * m => EdgeAt(m, k))
  }

  /** Up by `k`, then down by `j`. */
  function Trip(m: nat, k: nat, j: nat): (path: seq<nat>)
    requires j <= k <= m
    ensures |path| == k + j && ValidPath(RoundTrip(m), path)
  {
    seq(k + j, t requires 0 <= t < k + j => if t < k then t else m + k - 1 - (t - k))
  }

  lemma TripIsWalk(m: nat, k: nat, j: nat)
    requires 1 <= j <= k <= m
    ensures IsWalk(RoundTrip(m), 0, Along(RoundTrip(m), Trip(m, k, j)))
  {
    var es, path := RoundTrip(m), Trip(m, k, j);
    var w := Along(es, path);
    forall a, b | 0 <= a < b < |w| ensures w[a] != w[b] {
      assert path[a] != path[b] && w[a] == es[path[a]] && w[b] == es[path[b]];
    }
    forall e | e in w ensures e in es {
      var t :| 0 <= t < |w| && w[t] == e;
      assert w[t] == es[path[t]];
    }
    assert w[0] == es[0];
    forall t | 1 <= t < |w| ensures w[t - 1].after == w[t].before {
      assert w[t - 1] == EdgeAt(m, path[t - 1]) && w[t] == EdgeAt(m, path[t]);
    }
  }

  // ---------------------------------------------------------------- the size of the search tree

  function TripsUpTo(m: nat, k: nat): seq<seq<nat>>
    requires k <= m
  {
    seq(k, i requires 0 <= i < k => Trip(m, k, i + 1))
  }

  function Trips(m: nat, n: nat): seq<seq<nat>>
    requires n <= m
  {
    if n == 0 then [] else Trips(m, n - 1) + TripsUpTo(m, n)
  }

  ghost predicate IsTrip(m: nat, n: nat, path: seq<nat>)
    requires n <= m
  {
    exists k, j :: 1 <= j <= k <= n && path == Trip(m, k, j)
  }

  lemma TripsDiffer(m: nat, k: nat, j: nat, n: nat, i: nat)
    requires 1 <= j <= k <= m && 1 <= i <= n <= m && k <= n && (k != n || j != i)
    ensures Trip(m, k, j) != Trip(m, n, i)
  {
    var p, q := Trip(m, k, j), Trip(m, n, i);
    if k < n {
      assert p[k] == m + k - 1 && q[k] == k;
    }
  }

  lemma NextTrips(m: nat, front: nat, n: nat)
    requires n == front + 1 && n <= m && forall path :: path in Trips(m, front) ==> IsTrip(m, front, path)
    ensures Distinct(TripsUpTo(m, n))
    ensures forall path :: path in TripsUpTo(m, n) ==> IsTrip(m, n, path) && path !in Trips(m, front)
    ensures forall path :: path in Trips(m, front) ==> IsTrip(m, n, path)
  {
    hide Trip, Trips;
    var last := TripsUpTo(m, n);
    forall i, j | 0 <= i < j < n ensures last[i] != last[j] { TripsDiffer(m, n, i + 1, n, j + 1); }
    forall path | path in last ensures IsTrip(m, n, path) && path !in Trips(m, front) {
      var i :| 0 <= i < n && last[i] == path;
      assert path == Trip(m, n, i + 1);
      if path in Trips(m, front) {
        var k, j :| 1 <= j <= k <= front && path == Trip(m, k, j);
        TripsDiffer(m, k, j, n, i + 1);
      }
    }
  }

  lemma {:induction false} ManyTrips(m: nat, n: nat)
    requires n <= m
    ensures Distinct(Trips(m, n)) && 2 * |Trips(m, n)| == n * (n + 1)
    ensures forall path :: path in Trips(m, n) ==> IsTrip(m, n, path)
  {
    hide IsTrip;
    if n > 0 {
      ManyTrips(m, n - 1);
      NextTrips(m, n - 1, n);
      hide Distinct;
      ConcatDistinct(Trips(m, n - 1), TripsUpTo(m, n));
    }
  }

  /** Every trip is a node of the tree. */
  lemma TreeIsLarge(m: nat)
    ensures 2 * TreeSize(RoundTrip(m), 0) >= m * (m + 1)
  {
    hide Trip, Nodes, IsWalk, Trips;
    var es := RoundTrip(m);
    ManyTrips(m, m);
    NodesAreTheWalks(es, 0);
    forall path | path in Trips(m, m) ensures path in Nodes(es, 0, []) {
      var k, j :| 1 <= j <= k <= m && path == Trip(m, k, j);
      TripIsWalk(m, k, j);
    }
    DistinctBound(Trips(m, m), Nodes(es, 0, []));
  }

  // ---------------------------------------------------------------- the only order

  lemma NextEdge(m: nat, w: seq<Edge<Fill>>, i: nat) returns (c: nat)
    requires IsOrder(RoundTrip(m), 0, w) && i < |w|
    ensures c < 2 * m && w[i] == RoundTrip(m)[c]
    ensures var p := if i == 0 then 0 else w[i - 1].after;
      (c == p && p < m) || (c == m + p - 1 && p >= 1)
  {
    var es := RoundTrip(m);
    assert w[i] in es;
    c :| c < |es| && es[c] == w[i];
    assert es[c] == EdgeAt(m, c);
    if i > 0 { assert w[i - 1].after == w[i].before; }
  }

  /** Once an order turns back it goes down to the start. */
  lemma {:induction false} GoesDown(m: nat, w: seq<Edge<Fill>>, i: nat, t: nat)
    requires IsOrder(RoundTrip(m), 0, w) && 1 <= i <= m && t < i
    requires forall a :: 0 <= a < i ==> w[a] == RoundTrip(m)[a]
    requires w[i] == RoundTrip(m)[m + i - 1]
    ensures w[i + t] == RoundTrip(m)[m + i - 1 - t]
  {
    if t > 0 {
      GoesDown(m, w, i, t - 1);
      var es := RoundTrip(m);
      assert w[i + t - 1] == EdgeAt(m, m + i - t);
      assert w[i - t] == es[i - t] && w[i - t] != w[i + t];
      var c := NextEdge(m, w, i + t);
    }
  }

  lemma {:induction false} GoesUp(m: nat, w: seq<Edge<Fill>>, i: nat)
    requires IsOrder(RoundTrip(m), 0, w) && i <= m
    ensures forall a :: 0 <= a < i ==> w[a] == RoundTrip(m)[a]
  {
    if i > 0 {
      GoesUp(m, w, i - 1);
      var es, n := RoundTrip(m), i - 1;
      if n > 0 { assert w[n - 1] == EdgeAt(m, n - 1); }
      var c := NextEdge(m, w, n);
      if c != n { TurnsTooEarly(m, w, n); }
    }
  }

  lemma TurnsTooEarly(m: nat, w: seq<Edge<Fill>>, n: nat)
    requires IsOrder(RoundTrip(m), 0, w) && 1 <= n < m
    requires forall a :: 0 <= a < n ==> w[a] == RoundTrip(m)[a]
    ensures w[n] != RoundTrip(m)[m + n - 1]
  {
    if w[n] == RoundTrip(m)[m + n - 1] {
      GoesDown(m, w, n, n - 1);
      assert w[2 * n - 1] == EdgeAt(m, m);
      assert w[0] == RoundTrip(m)[0] && w[0] != w[2 * n];
      var c := NextEdge(m, w, 2 * n);
      assert false;
    }
  }

  lemma OnlyOrder(m: nat)
    requires m >= 1
    ensures OneOrder(RoundTrip(m), 0)
  {
    var es, path := RoundTrip(m), Trip(m, m, m);
    var order := Along(es, path);
    TripIsWalk(m, m, m);
    forall w | IsOrder(es, 0, w) ensures w == order {
      GoesUp(m, w, m);
      assert w[m - 1] == EdgeAt(m, m - 1);
      var c := NextEdge(m, w, m);
      forall t | 0 <= t < 2 * m ensures w[t] == order[t] {
        if t >= m { GoesDown(m, w, m, t - m); }
        assert order[t] == es[path[t]];
      }
    }
    assert IsOrder(es, 0, order);
  }

  // ---------------------------------------------------------------- the group

  function Fills(m: nat): seq<Fill> {
    seq(2 * m, k requires 0 <= k < 2 * m => FillAt(m, k))
  }

  lemma EdgeOfFill(m: nat, k: nat)
    requires m < 1_000 && k < 2 * m
    ensures EdgeOf(FillAt(m, k)) == EdgeAt(m, k)
  {
  }

  lemma AllConsistent(m: nat)
    ensures Consistent(Fills(m), 2 * m)
  {
  }

  lemma SourcesDiffer(m: nat)
    ensures forall i, j :: 0 <= i < j < 2 * m ==> Fills(m)[i].sourceEventId != Fills(m)[j].sourceEventId
  {
  }

  lemma AllCollected(m: nat)
    ensures Collect(Fills(m), 2 * m).Edges? && FillsOf(KeptEdges(Fills(m))) == Fills(m)
    ensures forall e :: e in KeptEdges(Fills(m)) ==> e == EdgeOf(e.fill)
  {
    hide Kept, Consistent, EdgeOf, Collect, FillAt;
    var fills := Fills(m);
    AllConsistent(m);
    SourcesDiffer(m);
    CollectMeaning(fills, |fills|);
    AllKept(fills, |fills|);
    assert fills[..|fills|] == fills;
    var es := KeptEdges(fills);
    forall e | e in es ensures e == EdgeOf(e.fill) {
      var k :| 0 <= k < |es| && es[k] == e;
      assert FromFill(es[k], fills, |fills|);
      var i :| 0 <= i < |fills| && es[k] == EdgeOf(fills[i]);
      EdgeFill(fills[i]);
    }
  }

  lemma RoundTripKept(m: nat)
    requires m < 1_000
    ensures KeptEdges(Fills(m)) == RoundTrip(m)
  {
    hide EdgeOf, KeptEdges, EdgeAt, FillAt;
    AllCollected(m);
    var es := KeptEdges(Fills(m));
    forall k | 0 <= k < |es| ensures es[k] == EdgeAt(m, k) {
      assert es[k] in es;
      assert FillsOf(es)[k] == FillAt(m, k);
      EdgeOfFill(m, k);
    }
  }

  /** The 900 fills have exactly one causal order, and the search gives up before it has proved that:
      the group is rejected as impossible. */
  lemma BudgetRejectsTheOnlyOrder()
    ensures OneOrder(KeptEdges(Fills(STEPS)), 0)
    ensures Normalize(Some(0), Fills(STEPS), Market("USDC", true)) == Rejected(ImpossibleTransition)
  {
    hide Solve, TreeSize, OneOrder, Consistent, RoundTrip, Scan, Nodes;
    var market := Market("USDC", true);
    assert QuoteSupported(market) by { UpperUsdc(); }
    RoundTripKept(STEPS);
    OnlyOrder(STEPS);
    TreeIsLarge(STEPS);
    AllCollected(STEPS);
    GivesUp(RoundTrip(STEPS), 0);
  }

  /** Beyond the budget one order is never reported, and two are not found where there is one. */
  lemma GivesUp(es: seq<Edge<Fill>>, boundary: int)
    requires Distinct(es) && OneOrder(es, boundary) && TreeSize(es, boundary) > MAX_BRANCH_SEARCH_STEPS
    ensures Solve(es, boundary) == Rejected(ImpossibleTransition)
  {
    hide TreeSize, Nodes, Scan, IsOrder;
    SearchVerdict(es, boundary, MAX_BRANCH_SEARCH_STEPS);
  }
}
