/** A rewind that misses: two fills at one time, the first of which has the greater row id. */
module RewindExample {

  import opened Sequences
  import opened Decimals
  import opened CausalSearch
  import opened BehaviorNormalization
  import opened NormalizationTheorems
  import opened BehaviorSpec
  import opened PagingTheorems
  import opened LateFillTheorems

  const USDC := Market("USDC", true)

  /** One unit bought at the price of 10^18 units. */
  function Bought(id: Id, start: int, at: int): Fill {
    Fill(id, None, 0, Buy, 1, 1_000_000_000_000_000_000, start, at)
  }

  const FIRST := Row(Bought(1, 0, 0), 0)
  const SECOND := Row(Bought(2, 1, 0), 0)
  const LATE := Row(Bought(3, 2, 1), 0)

  const OPENED := Leg(FIRST.fill, 0, 1, 0, Open, Long, 1)
  const INCREASED := Leg(SECOND.fill, 1, 2, 0, Increase, Long, 1)

  lemma UsdcSupported()
    ensures QuoteSupported(USDC)
  {
    UpperUsdc();
  }

  lemma SmallIsExact(n: int)
    requires -10 < n < 10
    ensures Round20(n) == n
  {
  }

  const PAIR: seq<Edge<Fill>> := [Edge(FIRST.fill, 0, 1), Edge(SECOND.fill, 1, 2)]

  lemma PairCollected()
    ensures Collect([FIRST.fill, SECOND.fill], 2) == Edges(PAIR)
  {
    SmallIsExact(1);
    SmallIsExact(2);
    var fills := [FIRST.fill, SECOND.fill];
    assert EdgeOf(fills[0]) == PAIR[0] && EdgeOf(fills[1]) == PAIR[1];
    assert Collect(fills, 0) == Edges([]) && Kept([], 1) == None;
    assert Collect(fills, 1) == Edges([PAIR[0]]);
    assert [PAIR[0]][..0] == [];
    assert Kept([PAIR[0]], 2) == None;
    assert [PAIR[0]] + [PAIR[1]] == PAIR;
  }

  lemma PairOutgoing()
    ensures Outgoing(PAIR, 0, 2) == [0] && Outgoing(PAIR, 1, 2) == [1]
  {
    assert Outgoing(PAIR, 0, 0) == [] && Outgoing(PAIR, 1, 0) == [];
    assert Outgoing(PAIR, 0, 1) == [0] && Outgoing(PAIR, 1, 1) == [];
  }

  lemma UnusedOne(k: nat, used: set<nat>)
    requires k < 2 && k !in used
    ensures Unused(PAIR, [k], used) == [k]
  {
    assert [k][..0] == [];
    assert Unused(PAIR, [], used) == [];
  }

  lemma PairCandidates()
    ensures Candidates(PAIR, 0, []) == [0]
    ensures Candidates(PAIR, 0, [0]) == [1]
  {
    hide Outgoing, Unused;
    PairOutgoing();
    UnusedOne(0, Used([]));
    UnusedOne(1, Used([0]));
  }

  /** The tree below a path with one candidate. */
  lemma OneChild(path: seq<nat>, k: nat)
    requires ValidPath(PAIR, path) && |path| < 2 && k < 2 && Candidates(PAIR, 0, path) == [k]
    ensures Nodes(PAIR, 0, path) == [path] + Nodes(PAIR, 0, path + [k])
  {
    assert Subtrees(PAIR, 0, path, [k], 0) == [];
    assert Subtrees(PAIR, 0, path, [k], 1) == Nodes(PAIR, 0, path + [k]) + [];
  }

  lemma PairNodes()
    ensures Nodes(PAIR, 0, []) == [[], [0], [0, 1]]
  {
    hide Candidates, Subtrees;
    PairCandidates();
    OneChild([], 0);
    assert [] + [0] == [0] && [0] + [1] == [0, 1];
    OneChild([0], 1);
    assert Nodes(PAIR, 0, [0, 1]) == [[0, 1]];
  }

  lemma PairLegs()
    ensures LegsAlong(0, PAIR, 2) == Some([OPENED, INCREASED])
  {
    hide Round20;
    SmallIsExact(1);
    assert LegsAlong(0, PAIR, 0) == Some([]);
    assert EventsForTransition(FIRST.fill, 0, 1) == Some([OPENED]);
    assert [] + [OPENED] == [OPENED] && [OPENED] + [INCREASED] == [OPENED, INCREASED];
    assert LegsAlong(0, PAIR, 1) == Some([OPENED]);
    assert EventsForTransition(SECOND.fill, 1, 2) == Some([INCREASED]);
  }

  lemma PairSolved()
    requires Distinct(PAIR)
    ensures Solve(PAIR, 0) == Normalized(2, [OPENED, INCREASED], [1, 2])
  {
    hide LegsAlong, Nodes;
    PairNodes();
    PairLegs();
    var nodes: seq<seq<nat>> := [[], [0], [0, 1]];
    assert Scan(nodes, 3, 2, [[0, 1]], MAX_BRANCH_SEARCH_STEPS) == [[0, 1]];
    assert Scan(nodes, 2, 2, [], MAX_BRANCH_SEARCH_STEPS) == [[0, 1]] by { assert [] + [nodes[2]] == [[0, 1]]; }
    assert Scan(nodes, 0, 2, [], MAX_BRANCH_SEARCH_STEPS) == [[0, 1]];
    assert Along(PAIR, [0, 1]) == PAIR;
    assert SourceIds(PAIR) == [1, 2];
  }

  lemma PairNormalized()
    ensures NormalizeGroup([FIRST, SECOND], None, USDC) == Normalized(2, [OPENED, INCREASED], [1, 2])
  {
    hide Solve, Collect;
    var group := [FIRST, SECOND];
    assert FillsIn(group) == [FIRST.fill, SECOND.fill];
    assert group[0].fill.startPosition == 0;
    UsdcSupported();
    PairCollected();
    CollectDistinct([FIRST.fill, SECOND.fill], 2);
    PairSolved();
  }

  // ---------------------------------------------------------------- the runs

  lemma PairGrouped()
    ensures AllGroups([FIRST, SECOND]) == [[FIRST, SECOND]]
  {
    var rows := [FIRST, SECOND];
    assert Groups(rows, 0) == [];
    assert Groups(rows, 1) == [[FIRST]];
    assert [FIRST] + [SECOND] == rows;
  }

  const STORED := Ledger([OPENED, INCREASED], Cursor(Some(2), Some(0), Some(2)))

  lemma PairStored(gs: seq<seq<Row>>)
    requires NonEmpty(gs) && gs != [] && gs[0] == [FIRST, SECOND]
    ensures Run(EMPTY, gs, USDC, 1) == Progress(STORED, 2, None)
  {
    hide NormalizeGroup;
    PairNormalized();
    var events := [OPENED, INCREASED];
    assert InsertAll([], events, 0) == [];
    assert InsertAll([], events, 1) == [OPENED];
    assert InsertAll([], events, 2) == [OPENED] + [INCREASED];
    assert Run(EMPTY, gs, USDC, 0) == Progress(EMPTY, 0, None);
  }

  /** Row ids that put the first event after the second, and row ids in the order of writing. */
  function FirstLast(e: Event): int {
    if e == OPENED then 1 else 0
  }

  function InOrderOfWriting(e: Event): int {
    e.sourceEventId
  }

  lemma RewoundBoth()
    ensures Rewound(STORED, 1, InOrderOfWriting) == STORED
    ensures Rewound(STORED, 1, FirstLast) == Ledger(STORED.events, Cursor(Some(1), Some(0), Some(1)))
  {
    var events := STORED.events;
    assert Surviving(events, 1, Some(0), 0) == [];
    assert Surviving(events, 1, Some(0), 1) == [OPENED];
    assert Surviving(events, 1, Some(0), 2) == [OPENED] + [INCREASED];
    assert Previous(events, 1, FirstLast, 1) == Some(OPENED);
    assert Previous(events, 1, InOrderOfWriting, 1) == Some(OPENED);
  }

  /** A late fill after two fills of one time: with row ids in the order of writing the rewind changes
      nothing and the late fill continues the position; with the first event's row id the greater one, the
      rewound boundary is one fill behind and the valid late fill is rejected as impossible. */
  lemma RewindMisses()
    ensures IsTable([FIRST, SECOND, LATE])
    ensures Run(EMPTY, AllGroups([FIRST, SECOND]), USDC, 1) == Progress(STORED, 2, None)
    ensures RowIdsDiffer(STORED.events, InOrderOfWriting) && Rewound(STORED, 1, InOrderOfWriting) == STORED
    ensures NormalizeGroup([LATE], STORED.cursor.boundary, USDC).Normalized?
    ensures RowIdsDiffer(STORED.events, FirstLast)
    ensures NormalizeGroup([LATE], Rewound(STORED, 1, FirstLast).cursor.boundary, USDC)
         == Rejected(ImpossibleTransition)
  {
    hide Run, Normalize, EdgeOf, Rewound;
    PairGrouped();
    PairStored([[FIRST, SECOND]]);
    RewoundBoth();
    UsdcSupported();
    assert FillsIn([LATE]) == [LATE.fill];
    SingleFill(1, LATE.fill, USDC);
    SingleFill(2, LATE.fill, USDC);
    LateLegs();
  }

  lemma LateLegs()
    ensures Ordered(2, [EdgeOf(LATE.fill)]).Normalized?
  {
    SmallIsExact(3);
    LegsDefined(2, [EdgeOf(LATE.fill)], 1);
  }
}
