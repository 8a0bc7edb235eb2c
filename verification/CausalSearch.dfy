/** The backtracking search of packages/analytics/src/behavior-normalization.ts for a causal order. */
module CausalSearch {

  // Fills that share one timestamp are edges from the position before a fill to the position after it; a
  // causal order is a walk from the trusted boundary that uses every edge exactly once.

  import opened Sequences

  datatype Edge<T> = Edge(fill: T, before: int, after: int)

  // ---------------------------------------------------------------- walks

  /** Each edge starts where the previous one ended, the first one at the boundary. */
  ghost predicate Chained<T>(boundary: int, w: seq<Edge<T>>) {
    && (w != [] ==> w[0].before == boundary)
    && forall k :: 1 <= k < |w| ==> w[k - 1].after == w[k].before
  }

  /** `w` follows the positions from `boundary` and uses no edge of `pool` twice. */
  ghost predicate IsWalk<T>(pool: seq<Edge<T>>, boundary: int, w: seq<Edge<T>>) {
    Chained(boundary, w) && Distinct(w) && (forall e :: e in w ==> e in pool)
  }

  /** A complete causal order: a walk over all the edges. */
  ghost predicate IsOrder<T>(pool: seq<Edge<T>>, boundary: int, w: seq<Edge<T>>) {
    IsWalk(pool, boundary, w) && |w| == |pool|
  }

  // ---------------------------------------------------------------- the search tree

  predicate ValidPath<T>(es: seq<Edge<T>>, path: seq<nat>) {
    forall k :: 0 <= k < |path| ==> path[k] < |es|
  }

  function Along<T>(es: seq<Edge<T>>, path: seq<nat>): (w: seq<Edge<T>>)
    requires ValidPath(es, path)
    ensures |w| == |path|
  {
    seq(|path|, k requires 0 <= k < |path| => es[path[k]])
  }

  /** The position reached from `boundary` along `path`. */
  function EndOf<T>(es: seq<Edge<T>>, boundary: int, path: seq<nat>): int
    requires ValidPath(es, path)
  {
    if path == [] then boundary else es[path[|path| - 1]].after
  }

  /** The ascending indices below `k` of the edges that leave `position`. */
  function Outgoing<T>(es: seq<Edge<T>>, position: int, k: nat): (s: seq<nat>)
    requires k <= |es|
    ensures ValidPath(es, s)
  {
    if k == 0 then []
    else if es[k - 1].before == position then Outgoing(es, position, k - 1) + [k - 1]
    else Outgoing(es, position, k - 1)
  }

  function Unused<T>(es: seq<Edge<T>>, s: seq<nat>, used: set<nat>): (r: seq<nat>)
    requires ValidPath(es, s)
    ensures ValidPath(es, r)
  {
    if s == [] then []
    else
      var front := Unused(es, s[..|s| - 1], used);
      if s[|s| - 1] in used then front else front + [s[|s| - 1]]
  }

  function Candidates<T>(es: seq<Edge<T>>, boundary: int, path: seq<nat>): (r: seq<nat>)
    requires ValidPath(es, path)
    ensures ValidPath(es, r)
  {
    Unused(es, Outgoing(es, EndOf(es, boundary, path), |es|), Used(path))
  }

  function Used(path: seq<nat>): set<nat> {
    set i | i in path
  }

  /** The paths the search visits below `path`, in the order a stack visits them: the last
      candidate pushed is the first one popped. */
  function Nodes<T>(es: seq<Edge<T>>, boundary: int, path: seq<nat>): seq<seq<nat>>
    requires ValidPath(es, path) && |path| <= |es|
    decreases |es| - |path|, 1, 0
  {
    if |path| == |es| then [path]
    else
      var next := Candidates(es, boundary, path);
      [path] + Subtrees(es, boundary, path, next, |next|)
  }

  /** The listings below the first `k` candidates, the last candidate first. */
  function Subtrees<T>(es: seq<Edge<T>>, boundary: int, path: seq<nat>, next: seq<nat>, k: nat): seq<seq<nat>>
    requires ValidPath(es, path) && |path| < |es| && ValidPath(es, next) && k <= |next|
    decreases |es| - |path|, 0, k
  {
    if k == 0 then []
    else Nodes(es, boundary, path + [next[k - 1]]) + Subtrees(es, boundary, path, next, k - 1)
  }

  /** Everything listed below `path`, except `path` itself. */
  function Successors<T>(es: seq<Edge<T>>, boundary: int, path: seq<nat>): seq<seq<nat>>
    requires ValidPath(es, path) && |path| < |es|
  {
    var next := Candidates(es, boundary, path);
    Subtrees(es, boundary, path, next, |next|)
  }

  /** What the loop returns when it has met the first `i` of `nodes` and found `found` among them:
      it stops at two complete paths, and gives up with nothing when it would need a step beyond
      `maxSteps`. */
  function Scan(nodes: seq<seq<nat>>, i: nat, n: nat, found: seq<seq<nat>>, maxSteps: nat): seq<seq<nat>>
    requires i <= |nodes|
    decreases |nodes| - i
  {
    if i == |nodes| || |found| >= 2 then found
    else if i >= maxSteps then []
    else Scan(nodes, i + 1, n, if |nodes[i]| == n then found + [nodes[i]] else found, maxSteps)
  }

  // ---------------------------------------------------------------- the loop of the source

  datatype SearchState = SearchState(current: int, path: seq<nat>, used: set<nat>)

  predicate Agrees<T>(es: seq<Edge<T>>, boundary: int, s: SearchState) {
    && ValidPath(es, s.path) && |s.path| <= |es|
    && s.used == Used(s.path)
    && s.current == EndOf(es, boundary, s.path)
  }

  ghost predicate AllAgree<T>(es: seq<Edge<T>>, boundary: int, stack: seq<SearchState>) {
    forall k :: 0 <= k < |stack| ==> Agrees(es, boundary, stack[k])
  }

  /** The nodes still to visit below a stack, top (last) first. */
  ghost function Pending<T>(es: seq<Edge<T>>, boundary: int, stack: seq<SearchState>): seq<seq<nat>>
    requires AllAgree(es, boundary, stack)
  {
    if stack == [] then []
    else Nodes(es, boundary, stack[|stack| - 1].path) + Pending(es, boundary, stack[..|stack| - 1])
  }

  lemma PushOne<T>(es: seq<Edge<T>>, boundary: int, stack: seq<SearchState>, next: SearchState)
    requires AllAgree(es, boundary, stack) && Agrees(es, boundary, next)
    ensures AllAgree(es, boundary, stack + [next])
    ensures Pending(es, boundary, stack + [next])
         == Nodes(es, boundary, next.path) + Pending(es, boundary, stack)
  {
    assert (stack + [next])[..|stack|] == stack;
  }

  lemma PopOne<T>(es: seq<Edge<T>>, boundary: int, stack: seq<SearchState>)
    requires stack != [] && AllAgree(es, boundary, stack)
    ensures var state, below := stack[|stack| - 1], stack[..|stack| - 1];
      && AllAgree(es, boundary, below)
      && Pending(es, boundary, stack) == [state.path] +
        if |state.path| == |es| then Pending(es, boundary, below)
        else Successors(es, boundary, state.path) + Pending(es, boundary, below)
  {
  }

  function Step<T>(es: seq<Edge<T>>, ghost boundary: int, s: SearchState, index: nat): (next: SearchState)
    requires Agrees(es, boundary, s) && |s.path| < |es|
    requires index < |es| && es[index].before == s.current
    ensures Agrees(es, boundary, next) && next.path == s.path + [index]
  {
    SearchState(es[index].after, s.path + [index], s.used + {index})
  }

  lemma OutgoingMeaning<T>(es: seq<Edge<T>>, position: int, k: nat)
    requires k <= |es|
    ensures forall i: nat :: i in Outgoing(es, position, k) <==> i < k && es[i].before == position
    ensures Distinct(Outgoing(es, position, k))
  {
  }

  lemma UnusedMeaning<T>(es: seq<Edge<T>>, s: seq<nat>, used: set<nat>)
    requires ValidPath(es, s)
    ensures forall i: nat :: i in Unused(es, s, used) <==> i in s && i !in used
    ensures Distinct(s) ==> Distinct(Unused(es, s, used))
  {
    if s != [] {
      assert s == s[..|s| - 1] + [s[|s| - 1]];
    }
  }

  /** Pushes one state per candidate, in ascending order. */
  method Push<T>(es: seq<Edge<T>>, ghost boundary: int, stack: seq<SearchState>, state: SearchState,
                 candidates: seq<nat>)
    returns (pushed: seq<SearchState>)
    requires AllAgree(es, boundary, stack)
    requires Agrees(es, boundary, state) && |state.path| < |es|
    requires ValidPath(es, candidates)
      && (forall k :: 0 <= k < |candidates| ==> es[candidates[k]].before == state.current)
    ensures AllAgree(es, boundary, pushed)
    ensures Pending(es, boundary, pushed)
         == Subtrees(es, boundary, state.path, candidates, |candidates|) + Pending(es, boundary, stack)
  {
    pushed := stack;
    for k := 0 to |candidates|
      invariant AllAgree(es, boundary, pushed)
      invariant Pending(es, boundary, pushed)
             == Subtrees(es, boundary, state.path, candidates, k) + Pending(es, boundary, stack)
    {
      var next := Step(es, boundary, state, candidates[k]);
      PushOne(es, boundary, pushed, next);
      pushed := pushed + [next];
    }
  }

  method FindChains<T>(es: seq<Edge<T>>, boundary: int, maxSteps: nat) returns (solutions: seq<seq<nat>>)
    ensures solutions == Scan(Nodes(es, boundary, []), 0, |es|, [], maxSteps)
  {
    var outgoing := ByStart(es);
    solutions := [];
    var steps := 0;
    var stack := [SearchState(boundary, [], {})];
    ghost var all := Nodes(es, boundary, []);
    ghost var verdict := Scan(all, 0, |es|, [], maxSteps);
    PushOne(es, boundary, [], stack[0]);
    while stack != [] && |solutions| < 2
      invariant AllAgree(es, boundary, stack)
      invariant steps <= maxSteps && steps <= |all| && all[steps..] == Pending(es, boundary, stack)
      invariant verdict == Scan(all, steps, |es|, solutions, maxSteps)
      decreases |all| - steps
    {
      PopOne(es, boundary, stack);
      assert steps < |all|;
      steps := steps + 1;
      if steps > maxSteps { return []; }
      var state := stack[|stack| - 1];
      stack := stack[..|stack| - 1];
      if |state.path| == |es| {
        DropOne(all, steps - 1, state.path, Pending(es, boundary, stack));
        solutions := solutions + [state.path];
      } else {
        DropOne(all, steps - 1, state.path, Successors(es, boundary, state.path) + Pending(es, boundary, stack));
        stack := Expand(es, boundary, outgoing, stack, state);
      }
    }
  }

  lemma DropOne<T>(s: seq<T>, i: nat, head: T, tail: seq<T>)
    requires i <= |s| && s[i..] == [head] + tail
    ensures i < |s| && s[i] == head && s[i + 1..] == tail
  {
    assert s[i..][0] == head && s[i..][1..] == tail;
  }

  /** Replaces a popped incomplete state by its successors. */
  method Expand<T>(es: seq<Edge<T>>, ghost boundary: int, outgoing: map<int, seq<nat>>,
                   stack: seq<SearchState>, state: SearchState)
    returns (expanded: seq<SearchState>)
    requires AllAgree(es, boundary, stack)
    requires Agrees(es, boundary, state) && |state.path| < |es|
    requires Leaving(outgoing, state.current) == Outgoing(es, state.current, |es|)
    ensures AllAgree(es, boundary, expanded)
    ensures Pending(es, boundary, expanded)
         == Successors(es, boundary, state.path) + Pending(es, boundary, stack)
  {
    var leaving := Leaving(outgoing, state.current);
    OutgoingMeaning(es, state.current, |es|);
    UnusedMeaning(es, leaving, state.used);
    var candidates := Unused(es, leaving, state.used);
    assert forall k :: 0 <= k < |candidates| ==> candidates[k] in candidates;
    assert candidates == Candidates(es, boundary, state.path);
    expanded := Push(es, boundary, stack, state, candidates);
  }

  function Leaving(outgoing: map<int, seq<nat>>, position: int): seq<nat> {
    if position in outgoing then outgoing[position] else []
  }

  method ByStart<T>(es: seq<Edge<T>>) returns (outgoing: map<int, seq<nat>>)
    ensures forall p :: Leaving(outgoing, p) == Outgoing(es, p, |es|)
  {
    outgoing := map[];
    for index := 0 to |es|
      invariant forall p :: Leaving(outgoing, p) == Outgoing(es, p, index)
    {
      var key := es[index].before;
      outgoing := outgoing[key := Leaving(outgoing, key) + [index]];
    }
  }

  // ---------------------------------------------------------------- what the listing contains

  /** The path visits distinct edges, each one leaving the position the path has reached. */
  ghost predicate IsPath<T>(es: seq<Edge<T>>, boundary: int, q: seq<nat>) {
    && ValidPath(es, q) && Distinct(q)
    && (q != [] ==> es[q[0]].before == boundary)
    && forall k :: 1 <= k < |q| ==> es[q[k - 1]].after == es[q[k]].before
  }

  lemma CandidatesMeaning<T>(es: seq<Edge<T>>, boundary: int, path: seq<nat>)
    requires ValidPath(es, path)
    ensures forall i: nat :: i in Candidates(es, boundary, path) <==>
      i < |es| && i !in path && es[i].before == EndOf(es, boundary, path)
    ensures Distinct(Candidates(es, boundary, path))
  {
    var end := EndOf(es, boundary, path);
    OutgoingMeaning(es, end, |es|);
    UnusedMeaning(es, Outgoing(es, end, |es|), Used(path));
  }

  lemma {:induction false} NodesSound<T>(es: seq<Edge<T>>, boundary: int, path: seq<nat>, q: seq<nat>)
    requires IsPath(es, boundary, path) && |path| <= |es| && q in Nodes(es, boundary, path)
    ensures IsPath(es, boundary, q) && path <= q && |q| <= |es|
    decreases |es| - |path|, 1, 0
  {
    if |path| < |es| && q != path {
      var next := Candidates(es, boundary, path);
      CandidatesExtend(es, boundary, path);
      SubtreesSound(es, boundary, path, next, |next|, q);
    }
  }

  lemma CandidatesExtend<T>(es: seq<Edge<T>>, boundary: int, path: seq<nat>)
    requires IsPath(es, boundary, path) && |path| < |es|
    ensures var next := Candidates(es, boundary, path);
      Distinct(next) && forall k :: 0 <= k < |next| ==> IsPath(es, boundary, path + [next[k]])
  {
    CandidatesMeaning(es, boundary, path);
    var next := Candidates(es, boundary, path);
    forall k | 0 <= k < |next| ensures IsPath(es, boundary, path + [next[k]]) {
      assert next[k] in next;
    }
  }

  lemma {:induction false} SubtreesSound<T>(es: seq<Edge<T>>, boundary: int, path: seq<nat>, next: seq<nat>,
                                            k: nat, q: seq<nat>)
    requires IsPath(es, boundary, path) && |path| < |es| && ValidPath(es, next) && k <= |next|
    requires forall k :: 0 <= k < |next| ==> IsPath(es, boundary, path + [next[k]])
    requires q in Subtrees(es, boundary, path, next, k)
    ensures IsPath(es, boundary, q) && path < q && |q| <= |es|
    ensures exists j :: 0 <= j < k && q[|path|] == next[j]
    decreases |es| - |path|, 0, k
  {
    if q in Nodes(es, boundary, path + [next[k - 1]]) {
      NodesSound(es, boundary, path + [next[k - 1]], q);
    } else {
      SubtreesSound(es, boundary, path, next, k - 1, q);
    }
  }

  lemma {:induction false} NodesComplete<T>(es: seq<Edge<T>>, boundary: int, path: seq<nat>, q: seq<nat>)
    requires IsPath(es, boundary, q) && path <= q && |q| <= |es|
    ensures ValidPath(es, path) && q in Nodes(es, boundary, path)
    decreases |es| - |path|, 1, 0
  {
    assert forall k :: 0 <= k < |path| ==> path[k] == q[k];
    if path != q {
      CandidatesMeaning(es, boundary, path);
      var next := Candidates(es, boundary, path);
      var i: nat := q[|path|];
      assert path == [] || path[|path| - 1] == q[|path| - 1];
      assert i !in path && es[i].before == EndOf(es, boundary, path);
      assert i in next;
      var j :| 0 <= j < |next| && next[j] == i;
      SubtreesComplete(es, boundary, path, next, |next|, j, q);
    }
  }

  lemma {:induction false} SubtreesComplete<T>(es: seq<Edge<T>>, boundary: int, path: seq<nat>, next: seq<nat>,
                                               k: nat, j: nat, q: seq<nat>)
    requires IsPath(es, boundary, q) && path < q && |q| <= |es|
    requires ValidPath(es, path) && ValidPath(es, next) && j < k <= |next| && q[|path|] == next[j]
    ensures q in Subtrees(es, boundary, path, next, k)
    decreases |es| - |path|, 0, k
  {
    if j == k - 1 {
      assert path + [next[j]] <= q;
      NodesComplete(es, boundary, path + [next[j]], q);
    } else {
      SubtreesComplete(es, boundary, path, next, k - 1, j, q);
    }
  }

  lemma {:induction false} NodesDistinct<T>(es: seq<Edge<T>>, boundary: int, path: seq<nat>)
    requires IsPath(es, boundary, path) && |path| <= |es|
    ensures Distinct(Nodes(es, boundary, path))
    decreases |es| - |path|, 1, 0
  {
    if |path| < |es| {
      var next := Candidates(es, boundary, path);
      CandidatesExtend(es, boundary, path);
      SubtreesDistinct(es, boundary, path, next, |next|);
      var below := Subtrees(es, boundary, path, next, |next|);
      forall q | q in below ensures q != path {
        SubtreesSound(es, boundary, path, next, |next|, q);
      }
      ConcatDistinct([path], below);
    }
  }

  lemma {:induction false} SubtreesDistinct<T>(es: seq<Edge<T>>, boundary: int, path: seq<nat>, next: seq<nat>,
                                               k: nat)
    requires IsPath(es, boundary, path) && |path| < |es| && ValidPath(es, next) && Distinct(next) && k <= |next|
    requires forall k :: 0 <= k < |next| ==> IsPath(es, boundary, path + [next[k]])
    ensures Distinct(Subtrees(es, boundary, path, next, k))
    decreases |es| - |path|, 0, k
  {
    if k > 0 {
      NodesDistinct(es, boundary, path + [next[k - 1]]);
      SubtreesDistinct(es, boundary, path, next, k - 1);
      var a, b := Nodes(es, boundary, path + [next[k - 1]]), Subtrees(es, boundary, path, next, k - 1);
      forall q | q in a && q in b ensures false {
        NodesSound(es, boundary, path + [next[k - 1]], q);
        SubtreesSound(es, boundary, path, next, k - 1, q);
      }
      ConcatDistinct(a, b);
    }
  }

  // ---------------------------------------------------------------- what the verdict means

  ghost function Complete(nodes: seq<seq<nat>>, n: nat): seq<seq<nat>> {
    if nodes == [] then []
    else (if |nodes[0]| == n then [nodes[0]] else []) + Complete(nodes[1..], n)
  }

  lemma {:induction false} ScanMeaning(nodes: seq<seq<nat>>, i: nat, n: nat, found: seq<seq<nat>>, maxSteps: nat)
    requires |found| <= 2 && i <= |nodes| && i <= maxSteps
    ensures var r, all := Scan(nodes, i, n, found, maxSteps), found + Complete(nodes[i..], n);
      && (r == [] || r == all[..if |all| < 2 then |all| else 2])
      && (|nodes| <= maxSteps ==> r == all[..if |all| < 2 then |all| else 2])
      && (|r| == 1 ==> |nodes| <= maxSteps)
    decreases |nodes| - i
  {
    if i < |nodes| && |found| < 2 && i < maxSteps {
      var next := if |nodes[i]| == n then found + [nodes[i]] else found;
      assert nodes[i..][0] == nodes[i] && nodes[i..][1..] == nodes[i + 1..];
      assert next + Complete(nodes[i + 1..], n) == found + Complete(nodes[i..], n);
      ScanMeaning(nodes, i + 1, n, next, maxSteps);
    } else if i == |nodes| {
      assert found + Complete(nodes[i..], n) == found;
    } else if |found| == 2 {
      assert (found + Complete(nodes[i..], n))[..2] == found;
    }
  }

  lemma {:induction false} CompleteMeaning(nodes: seq<seq<nat>>, n: nat)
    ensures forall q :: q in Complete(nodes, n) <==> q in nodes && |q| == n
    ensures Distinct(nodes) ==> Distinct(Complete(nodes, n))
  {
    if nodes != [] {
      CompleteMeaning(nodes[1..], n);
      if Distinct(nodes) {
        assert forall q :: q in nodes[1..] ==> q != nodes[0];
        ConcatDistinct(if |nodes[0]| == n then [nodes[0]] else [], Complete(nodes[1..], n));
      }
    }
  }

  /** A path and the edges it follows determine each other when no edge is listed twice. */
  lemma PathIsWalk<T>(es: seq<Edge<T>>, boundary: int, q: seq<nat>)
    requires Distinct(es) && ValidPath(es, q)
    ensures IsPath(es, boundary, q) <==> IsWalk(es, boundary, Along(es, q))
  {
    if IsPath(es, boundary, q) { WalkOfPath(es, boundary, q); }
    if IsWalk(es, boundary, Along(es, q)) { PathOfWalk(es, boundary, q); }
  }

  lemma WalkOfPath<T>(es: seq<Edge<T>>, boundary: int, q: seq<nat>)
    requires Distinct(es) && IsPath(es, boundary, q)
    ensures IsWalk(es, boundary, Along(es, q))
  {
    var w := Along(es, q);
    assert forall k :: 1 <= k < |q| ==> es[q[k - 1]].after == es[q[k]].before;
    forall i, j | 0 <= i < j < |w| ensures w[i] != w[j] {
      assert q[i] != q[j];
    }
  }

  lemma PathOfWalk<T>(es: seq<Edge<T>>, boundary: int, q: seq<nat>)
    requires ValidPath(es, q) && IsWalk(es, boundary, Along(es, q))
    ensures IsPath(es, boundary, q)
  {
    var w := Along(es, q);
    forall k | 1 <= k < |q| ensures es[q[k - 1]].after == es[q[k]].before {
      assert w[k - 1].after == w[k].before;
    }
    forall i, j | 0 <= i < j < |q| ensures q[i] != q[j] {
      assert w[i] != w[j];
    }
  }

  lemma {:induction false} WalkHasPath<T>(es: seq<Edge<T>>, w: seq<Edge<T>>) returns (q: seq<nat>)
    requires forall e :: e in w ==> e in es
    ensures ValidPath(es, q) && Along(es, q) == w
  {
    if w == [] {
      q := [];
    } else {
      assert forall e :: e in w[1..] ==> e in w;
      q := WalkHasPath(es, w[1..]);
      assert w[0] in w;
      var i: nat :| i < |es| && es[i] == w[0];
      q := [i] + q;
    }
  }

  lemma AlongInjective<T>(es: seq<Edge<T>>, p: seq<nat>, q: seq<nat>)
    requires Distinct(es) && ValidPath(es, p) && ValidPath(es, q) && Along(es, p) == Along(es, q)
    ensures p == q
  {
    forall k | 0 <= k < |p| ensures p[k] == q[k] {
      assert es[p[k]] == Along(es, p)[k] == Along(es, q)[k] == es[q[k]];
    }
  }

  /** How many partial orders the search has to look at. */
  ghost function TreeSize<T>(es: seq<Edge<T>>, boundary: int): nat {
    |Nodes(es, boundary, [])|
  }

  /** The search tree holds every walk exactly once: soundness, completeness and no repetition. */
  lemma NodesAreTheWalks<T>(es: seq<Edge<T>>, boundary: int)
    requires Distinct(es)
    ensures Distinct(Nodes(es, boundary, []))
    ensures forall q :: q in Nodes(es, boundary, []) ==>
      ValidPath(es, q) && IsWalk(es, boundary, Along(es, q))
    ensures forall q :: ValidPath(es, q) && IsWalk(es, boundary, Along(es, q)) ==>
      q in Nodes(es, boundary, [])
  {
    NodesDistinct(es, boundary, []);
    forall q | q in Nodes(es, boundary, [])
      ensures ValidPath(es, q) && IsWalk(es, boundary, Along(es, q))
    {
      NodesSound(es, boundary, [], q);
      PathIsWalk(es, boundary, q);
    }
    forall q: seq<nat> | ValidPath(es, q) && IsWalk(es, boundary, Along(es, q))
      ensures q in Nodes(es, boundary, [])
    {
      PathIsWalk(es, boundary, q);
      DistinctBound(Along(es, q), es);
      NodesComplete(es, boundary, [], q);
    }
  }

  ghost predicate NoOrder<T(!new)>(es: seq<Edge<T>>, boundary: int) {
    forall v :: !IsOrder(es, boundary, v)
  }

  ghost predicate OneOrder<T(!new)>(es: seq<Edge<T>>, boundary: int) {
    exists w :: IsOrder(es, boundary, w) && forall v :: IsOrder(es, boundary, v) ==> v == w
  }

  ghost predicate ManyOrders<T(!new)>(es: seq<Edge<T>>, boundary: int) {
    exists v, w :: v != w && IsOrder(es, boundary, v) && IsOrder(es, boundary, w)
  }

  /** The search decides the number of causal orders, zero, one or more, whenever its budget covers
      the tree; beyond the budget it never reports a single order. */
  lemma SearchVerdict<T(!new)>(es: seq<Edge<T>>, boundary: int, maxSteps: nat)
    requires Distinct(es)
    ensures var r := Scan(Nodes(es, boundary, []), 0, |es|, [], maxSteps);
      && (|r| == 1 <==> TreeSize(es, boundary) <= maxSteps && OneOrder(es, boundary))
      && (|r| >= 2 ==> ManyOrders(es, boundary))
      && (TreeSize(es, boundary) <= maxSteps ==>
            (|r| == 0 <==> NoOrder(es, boundary)) && (|r| >= 2 <==> ManyOrders(es, boundary)))
  {
    VerdictByCount(Nodes(es, boundary, []), |es|, maxSteps);
    CountOrders(es, boundary);
  }

  /** What the search returns as the only solution is the causal order. */
  lemma SearchOrder<T(!new)>(es: seq<Edge<T>>, boundary: int, maxSteps: nat)
    requires Distinct(es) && |Scan(Nodes(es, boundary, []), 0, |es|, [], maxSteps)| == 1
    ensures var path := Scan(Nodes(es, boundary, []), 0, |es|, [], maxSteps)[0];
      ValidPath(es, path) && IsOrder(es, boundary, Along(es, path))
  {
    VerdictByCount(Nodes(es, boundary, []), |es|, maxSteps);
    OrdersListed(es, boundary);
  }

  lemma VerdictByCount(nodes: seq<seq<nat>>, n: nat, maxSteps: nat)
    ensures var r, all := Scan(nodes, 0, n, [], maxSteps), Complete(nodes, n);
      && (|r| == 1 <==> |nodes| <= maxSteps && |all| == 1)
      && (|r| == 1 ==> r[0] in all)
      && (|r| >= 2 ==> |all| >= 2)
      && (|nodes| <= maxSteps ==> (|r| == 0 <==> |all| == 0) && (|r| >= 2 <==> |all| >= 2))
  {
    ScanMeaning(nodes, 0, n, [], maxSteps);
    assert nodes[0..] == nodes && [] + Complete(nodes, n) == Complete(nodes, n);
  }

  lemma CountOrders<T(!new)>(es: seq<Edge<T>>, boundary: int)
    requires Distinct(es)
    ensures var all := Complete(Nodes(es, boundary, []), |es|);
      && (NoOrder(es, boundary) <==> |all| == 0)
      && (OneOrder(es, boundary) <==> |all| == 1)
      && (ManyOrders(es, boundary) <==> |all| >= 2)
  {
    var all := Complete(Nodes(es, boundary, []), |es|);
    OrdersListed(es, boundary);
    if |all| >= 2 {
      assert all[0] in all && all[1] in all;
      AlongInjective2(es, all[0], all[1]);
    } else if |all| == 1 {
      assert all[0] in all;
      forall v | IsOrder(es, boundary, v) ensures v == Along(es, all[0]) {
        var q :| q in all && ValidPath(es, q) && v == Along(es, q);
        assert q == all[0];
      }
    }
  }

  lemma AlongInjective2<T>(es: seq<Edge<T>>, p: seq<nat>, q: seq<nat>)
    requires Distinct(es) && ValidPath(es, p) && ValidPath(es, q) && p != q
    ensures Along(es, p) != Along(es, q)
  {
    if Along(es, p) == Along(es, q) { AlongInjective(es, p, q); }
  }

  lemma OrdersListed<T(!new)>(es: seq<Edge<T>>, boundary: int)
    requires Distinct(es)
    ensures var all := Complete(Nodes(es, boundary, []), |es|);
      && Distinct(all)
      && (forall q :: q in all ==> ValidPath(es, q) && IsOrder(es, boundary, Along(es, q)))
      && (forall v :: IsOrder(es, boundary, v) ==> exists q :: q in all && ValidPath(es, q) && v == Along(es, q))
  {
    var nodes := Nodes(es, boundary, []);
    NodesAreTheWalks(es, boundary);
    CompleteMeaning(nodes, |es|);
    forall v | IsOrder(es, boundary, v)
      ensures exists q :: q in Complete(nodes, |es|) && ValidPath(es, q) && v == Along(es, q)
    {
      var q := WalkHasPath(es, v);
      assert q in nodes;
    }
  }

  /** The size of the tree does not depend on the order in which the edges are listed. */
  lemma TreeSizeIgnoresListing<T>(es: seq<Edge<T>>, fs: seq<Edge<T>>, boundary: int)
    requires Distinct(es) && Distinct(fs) && (forall e :: e in es <==> e in fs)
    ensures TreeSize(es, boundary) == TreeSize(fs, boundary)
  {
    TreeSizeAtMost(es, fs, boundary);
    TreeSizeAtMost(fs, es, boundary);
  }

  lemma TreeSizeAtMost<T>(es: seq<Edge<T>>, fs: seq<Edge<T>>, boundary: int)
    requires Distinct(es) && Distinct(fs) && (forall e :: e in es <==> e in fs)
    ensures TreeSize(es, boundary) <= TreeSize(fs, boundary)
  {
    var a, b := Nodes(es, boundary, []), Nodes(fs, boundary, []);
    NodesAreTheWalks(es, boundary);
    NodesAreTheWalks(fs, boundary);
    var image: seq<seq<nat>> := [];
    for k := 0 to |a|
      invariant |image| == k && forall i :: 0 <= i < k ==>
        ValidPath(fs, image[i]) && Along(fs, image[i]) == Along(es, a[i]) && image[i] in b
    {
      assert a[k] in a;
      var q := WalkHasPath(fs, Along(es, a[k]));
      image := image + [q];
    }
    forall i, j | 0 <= i < j < |image| ensures image[i] != image[j] {
      assert a[i] in a && a[j] in a;
      AlongInjective2(es, a[i], a[j]);
    }
    DistinctBound(image, b);
  }

  // ---------------------------------------------------------------- only positions matter

  ghost predicate SameMoves<T>(es: seq<Edge<T>>, fs: seq<Edge<T>>) {
    |es| == |fs| && forall k :: 0 <= k < |es| ==> es[k].before == fs[k].before && es[k].after == fs[k].after
  }

  lemma {:induction false} OutgoingByMoves<T>(es: seq<Edge<T>>, fs: seq<Edge<T>>, position: int, k: nat)
    requires SameMoves(es, fs) && k <= |es|
    ensures Outgoing(es, position, k) == Outgoing(fs, position, k)
  {
    if k > 0 { OutgoingByMoves(es, fs, position, k - 1); }
  }

  lemma {:induction false} UnusedByMoves<T>(es: seq<Edge<T>>, fs: seq<Edge<T>>, s: seq<nat>, used: set<nat>)
    requires |es| == |fs| && ValidPath(es, s)
    ensures Unused(es, s, used) == Unused(fs, s, used)
  {
    if s != [] { UnusedByMoves(es, fs, s[..|s| - 1], used); }
  }

  /** The search tree depends on nothing of the edges but the positions they join. */
  lemma {:induction false} NodesByMoves<T>(es: seq<Edge<T>>, fs: seq<Edge<T>>, boundary: int, path: seq<nat>)
    requires SameMoves(es, fs) && ValidPath(es, path) && |path| <= |es|
    ensures Nodes(es, boundary, path) == Nodes(fs, boundary, path)
    decreases |es| - |path|, 1, 0
  {
    hide Outgoing, Unused, Subtrees;
    if |path| < |es| {
      var position := EndOf(es, boundary, path);
      OutgoingByMoves(es, fs, position, |es|);
      UnusedByMoves(es, fs, Outgoing(es, position, |es|), Used(path));
      var next := Candidates(es, boundary, path);
      SubtreesByMoves(es, fs, boundary, path, next, |next|);
    }
  }

  lemma {:induction false} SubtreesByMoves<T>(es: seq<Edge<T>>, fs: seq<Edge<T>>, boundary: int, path: seq<nat>,
                                              next: seq<nat>, k: nat)
    requires SameMoves(es, fs) && ValidPath(es, path) && |path| < |es| && ValidPath(es, next) && k <= |next|
    ensures Subtrees(es, boundary, path, next, k) == Subtrees(fs, boundary, path, next, k)
    decreases |es| - |path|, 0, k
  {
    hide Nodes, SameMoves;
    assert |es| == |fs| by { SameMovesLength(es, fs); }
    if k > 0 {
      NodesByMoves(es, fs, boundary, path + [next[k - 1]]);
      SubtreesByMoves(es, fs, boundary, path, next, k - 1);
    }
  }

  lemma SameMovesLength<T>(es: seq<Edge<T>>, fs: seq<Edge<T>>)
    requires SameMoves(es, fs)
    ensures |es| == |fs|
  {
  }
}
