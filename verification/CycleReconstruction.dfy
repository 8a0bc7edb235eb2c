/** packages/analytics/src/position-cycles.ts, the whole of `buildPositionCycles`: fills of many coins in
    any order become cycles, funding is allocated to them, and each is priced. */
module CycleReconstruction {

  import opened Sequences
  import opened CycleSpec
  import opened CycleTheorems
  import opened CycleBuilder

  datatype Reason = InsufficientHistory | DuplicateEvent | InvalidInput | MissingInitialState

  datatype Finalized = Finalized(cycle: Cycle, pnl: Pnl)

  datatype Unallocated = Unallocated(item: Funding, reason: Allocation)

  datatype BuildResult = Built(cycles: seq<Finalized>, unallocated: seq<Unallocated>) | Rejected(reason: Reason)

  // ---------------------------------------------------------------- parsing and order

  function TimeOf(f: Fill): int {
    f.time
  }

  function IdOf(f: Fill): int {
    f.externalId
  }

  function FundingTime(f: Funding): int {
    f.time
  }

  function FundingId(f: Funding): int {
    f.externalId
  }

  /** The first fill, in the order given, that repeats an identifier or is not positive. */
  function ParseError(fills: seq<Fill>, n: nat): Option<Reason>
    requires n <= |fills|
  {
    if n == 0 then None
    else if ParseError(fills, n - 1).Some? then ParseError(fills, n - 1)
    else if exists j :: 0 <= j < n - 1 && fills[j].externalId == fills[n - 1].externalId then Some(DuplicateEvent)
    else if !Positive(fills[n - 1]) then Some(InvalidInput)
    else None
  }

  lemma {:induction false} ParsedExactlyWhen(fills: seq<Fill>, n: nat)
    requires n <= |fills|
    ensures ParseError(fills, n).None? <==>
      DistinctKeys(IdOf, fills[..n]) && forall k :: 0 <= k < n ==> Positive(fills[k])
  {
    if n > 0 {
      ParsedExactlyWhen(fills, n - 1);
      assert fills[..n] == fills[..n - 1] + [fills[n - 1]];
      assert forall j :: 0 <= j < n ==> fills[..n][j] == fills[j];
    }
  }

  method StableFills(fills: seq<Fill>) returns (sorted: seq<Fill>, error: Option<Reason>)
    ensures error == ParseError(fills, |fills|)
    ensures error.None? ==> sorted == SortByBoth(TimeOf, IdOf, fills)
  {
    var ids: set<nat> := {};
    for n := 0 to |fills|
      invariant ParseError(fills, n).None?
      invariant forall x :: x in ids <==> exists j :: 0 <= j < n && fills[j].externalId == x
    {
      if fills[n].externalId in ids {
        ErrorStays(fills, n + 1, |fills|);
        return [], Some(DuplicateEvent);
      }
      ids := ids + {fills[n].externalId};
      if !Positive(fills[n]) {
        ErrorStays(fills, n + 1, |fills|);
        return [], Some(InvalidInput);
      }
    }
    sorted, error := SortByBoth(TimeOf, IdOf, fills), None;
  }

  lemma {:induction false} ErrorStays(fills: seq<Fill>, n: nat, m: nat)
    requires n <= m <= |fills| && ParseError(fills, n).Some?
    ensures ParseError(fills, m) == ParseError(fills, n)
    decreases m
  {
    if n < m { ErrorStays(fills, n, m - 1); }
  }

  // ---------------------------------------------------------------- trusted fills

  function FillOf(c: Coin): Fill -> bool {
    (f: Fill) => f.coin == c
  }

  function CoinFills(fills: seq<Fill>, n: nat, c: Coin): seq<Fill>
    requires n <= |fills|
  {
    Filter(FillOf(c), fills[..n])
  }

  /** From the first fill that starts without a position. */
  function Suffix(group: seq<Fill>): seq<Fill> {
    if group == [] || group[0].startPosition == 0.0 then group else Suffix(group[1..])
  }

  lemma {:induction false} SuffixAppend(group: seq<Fill>, f: Fill)
    ensures Suffix(group + [f]) == if Suffix(group) != [] || f.startPosition == 0.0 then Suffix(group) + [f] else []
  {
    if group == [] {
      assert [f][1..] == [];
      assert group + [f] == [f];
    } else if group[0].startPosition != 0.0 {
      assert (group + [f])[1..] == group[1..] + [f];
      SuffixAppend(group[1..], f);
    }
  }

  lemma CoinFillsStep(fills: seq<Fill>, n: nat, c: Coin)
    requires 0 < n <= |fills|
    ensures CoinFills(fills, n, c) == CoinFills(fills, n - 1, c) + if fills[n - 1].coin == c then [fills[n - 1]] else []
  {
    assert fills[..n][..n - 1] == fills[..n - 1];
  }

  /** The trusted fills of a coin are its fills from the first one that starts without a position. */
  lemma {:induction false} TrustedOfCoin(fills: seq<Fill>, n: nat, c: Coin)
    requires n <= |fills|
    ensures Filter(FillOf(c), Trusted(fills, n)) == Suffix(CoinFills(fills, n, c))
    ensures Suffix(CoinFills(fills, n, c)) != [] <==> Starts(fills, n, c)
  {
    if n > 0 {
      var f, before := fills[n - 1], Trusted(fills, n - 1);
      TrustedOfCoin(fills, n - 1, c);
      CoinFillsStep(fills, n, c);
      if f.coin == c { SuffixAppend(CoinFills(fills, n - 1, c), f); }
      assert CoinFills(fills, n - 1, c) + [] == CoinFills(fills, n - 1, c);
      assert before + [] == before && (before + [f])[..|before|] == before;
      assert Starts(fills, n, c) <==> Starts(fills, n - 1, c) || (f.coin == c && f.startPosition == 0.0);
    }
  }

  lemma {:induction false} TrustedInOrder(fills: seq<Fill>, n: nat)
    requires n <= |fills| && InOrder(TimeOf, IdOf, fills)
    ensures InOrder(TimeOf, IdOf, Trusted(fills, n))
    ensures forall x :: x in Trusted(fills, n) ==> exists k :: 0 <= k < n && fills[k] == x
  {
    if n > 0 {
      TrustedInOrder(fills, n - 1);
      var before := Trusted(fills, n - 1);
      forall i | 0 <= i < |before| ensures Before(TimeOf, IdOf, before[i], fills[n - 1]) {
        assert before[i] in before;
      }
    }
  }

  method FirstStart(group: seq<Fill>) returns (index: int)
    requires group != [] && group[0].startPosition != 0.0
    ensures index == -1 ==> Suffix(group) == []
    ensures index != -1 ==> 0 < index < |group| && Suffix(group) == group[index..]
  {
    for i := 1 to |group|
      invariant Suffix(group) == Suffix(group[i..])
    {
      if group[i].startPosition == 0.0 { return i; }
      assert group[i..][1..] == group[i + 1..];
    }
    assert group[|group|..] == [];
    index := -1;
  }

  function Same(c: Coin): int {
    c
  }

  lemma {:induction false} FilterKeepsKeys(p: Fill -> bool, s: seq<Fill>)
    requires DistinctKeys(IdOf, s)
    ensures DistinctKeys(IdOf, Filter(p, s))
  {
    if s != [] {
      var n := |s| - 1;
      var front := Filter(p, s[..n]);
      FilterKeepsKeys(p, s[..n]);
      FilterMembers(p, s[..n]);
      forall i | 0 <= i < |front| ensures IdOf(front[i]) != IdOf(s[n]) {
        assert front[i] in front;
        var k :| 0 <= k < n && s[k] == front[i];
      }
    }
  }

  lemma {:induction false} SuffixKeeps(group: seq<Fill>)
    ensures forall x :: x in Suffix(group) ==> x in group
    ensures DistinctKeys(IdOf, group) ==> DistinctKeys(IdOf, Suffix(group))
  {
    if group != [] && group[0].startPosition != 0.0 { SuffixKeeps(group[1..]); }
  }

  /** Taking the group of one more coin. */
  lemma TakeGroup(fills: seq<Fill>, was: seq<Fill>, order: seq<Coin>, m: nat)
    requires m < |order| && Distinct(order) && DistinctKeys(IdOf, fills) && DistinctKeys(IdOf, was)
    requires forall x :: x in was <==> x.coin in order[..m] && x in Suffix(CoinFills(fills, |fills|, x.coin))
    ensures var now := was + Suffix(CoinFills(fills, |fills|, order[m]));
      && DistinctKeys(IdOf, now)
      && forall x :: x in now <==> x.coin in order[..m + 1] && x in Suffix(CoinFills(fills, |fills|, x.coin))
  {
    hide Suffix, Filter;
    var group := CoinFills(fills, |fills|, order[m]);
    var taken := Suffix(group);
    assert fills[..|fills|] == fills;
    assert order[..m + 1] == order[..m] + [order[m]];
    FilterKeepsKeys(FillOf(order[m]), fills);
    FilterMembers(FillOf(order[m]), fills);
    SuffixKeeps(group);
    assert forall x :: x in taken ==> x.coin == order[m] && x in fills;
    forall i, j | 0 <= i < |was| && 0 <= j < |taken| ensures IdOf(was[i]) != IdOf(taken[j]) {
      var x, y := was[i], taken[j];
      assert x in was && y in taken;
      FilterMembers(FillOf(x.coin), fills);
      SuffixKeeps(CoinFills(fills, |fills|, x.coin));
      assert x != y;
      var a :| 0 <= a < |fills| && fills[a] == x;
      var b :| 0 <= b < |fills| && fills[b] == y;
      assert a < b || b < a;
    }
  }

  /** All groups taken and put back in order are the trusted fills. */
  lemma TakenIsTrusted(fills: seq<Fill>, byCoin: map<Coin, seq<Fill>>, coins: seq<Coin>, order: seq<Coin>,
                       taken: seq<Fill>)
    requires Groups(fills, |fills|, byCoin, coins) && (forall c :: c in order <==> c in coins)
    requires InOrder(TimeOf, IdOf, fills) && DistinctKeys(IdOf, taken)
    requires forall x :: x in taken <==> x.coin in order && x in Suffix(CoinFills(fills, |fills|, x.coin))
    ensures SortByBoth(TimeOf, IdOf, taken) == Trusted(fills, |fills|)
  {
    hide Suffix, CoinFills, Trusted, SortByBoth, Filter;
    forall x ensures x in taken <==> x in Trusted(fills, |fills|) {
      TrustedOfCoin(fills, |fills|, x.coin);
      FilterMembers(FillOf(x.coin), Trusted(fills, |fills|));
      SuffixKeeps(CoinFills(fills, |fills|, x.coin));
      assert x in Suffix(CoinFills(fills, |fills|, x.coin)) ==> x.coin in coins;
    }
    TrustedInOrder(fills, |fills|);
    SortedByBoth(TimeOf, IdOf, taken);
    SortByBothElements(TimeOf, IdOf, taken);
    OrderUnique(TimeOf, IdOf, SortByBoth(TimeOf, IdOf, taken), Trusted(fills, |fills|));
  }

  method SelectTrustedFills(fills: seq<Fill>) returns (trusted: seq<Fill>)
    requires InOrder(TimeOf, IdOf, fills) && DistinctKeys(IdOf, fills)
    ensures trusted == Trusted(fills, |fills|)
  {
    hide CoinFills, Trusted, SortByBoth;
    var byCoin, coins := GroupByCoin(fills);
    var order := SortBy(Same, coins);
    SortElements(Same, coins);
    SortIncreases(Same, coins);
    trusted := [];
    for m := 0 to |order|
      invariant forall x :: x in trusted <==> x.coin in order[..m] && x in Suffix(CoinFills(fills, |fills|, x.coin))
      invariant DistinctKeys(IdOf, trusted)
    {
      var coin := order[m];
      assert coin in coins;
      var group := byCoin[coin];
      ghost var was := trusted;
      if group[0].startPosition == 0.0 {
        trusted := trusted + group;
      } else {
        var index := FirstStart(group);
        if index != -1 {
          trusted := trusted + group[index..];
        }
      }
      assert trusted == was + Suffix(group) by { assert was + [] == was; }
      TakeGroup(fills, was, order, m);
    }
    assert order[..|order|] == order;
    TakenIsTrusted(fills, byCoin, coins, order, trusted);
    trusted := SortByBoth(TimeOf, IdOf, trusted);
  }

  /** The groups of the coins that occur. */
  ghost predicate Groups(fills: seq<Fill>, n: nat, byCoin: map<Coin, seq<Fill>>, coins: seq<Coin>)
    requires n <= |fills|
  {
    && Distinct(coins) && (forall c :: c in coins <==> c in byCoin)
    && (forall c :: c in byCoin ==> byCoin[c] != [] && byCoin[c] == CoinFills(fills, n, c))
    && (forall c :: c !in byCoin ==> CoinFills(fills, n, c) == [])
  }

  method GroupByCoin(fills: seq<Fill>) returns (byCoin: map<Coin, seq<Fill>>, coins: seq<Coin>)
    ensures Groups(fills, |fills|, byCoin, coins)
  {
    byCoin, coins := map[], [];
    for n := 0 to |fills|
      invariant Groups(fills, n, byCoin, coins)
    {
      var f := fills[n];
      forall c ensures CoinFills(fills, n + 1, c) == CoinFills(fills, n, c) + if f.coin == c then [f] else [] {
        CoinFillsStep(fills, n + 1, c);
      }
      if f.coin !in byCoin { coins := coins + [f.coin]; }
      var group := if f.coin in byCoin then byCoin[f.coin] else [];
      byCoin := byCoin[f.coin := group + [f]];
    }
  }
}
