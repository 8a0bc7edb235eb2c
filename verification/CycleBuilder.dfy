/** The loop of packages/analytics/src/position-cycles.ts over the fills of all coins: one list of cycle
    objects, shared with the states of the coins that have one open, updated in place. */
module CycleBuilder {

  import opened Sequences
  import opened CycleSpec

  class InternalCycle {
    const coin: Coin
    const sequence: nat
    const firstFill: nat
    const openedAt: int
    const side: PositionSide
    var averageEntryPrice: real
    var closedAt: Option<int>
    var fills: seq<CycleFill>
    var fundingEvents: seq<Funding>

    constructor (f: Fill, sequence: nat, size: real, fee: real)
      ensures Value() == CreateCycle(f, sequence, size, fee) && coin == f.coin
    {
      this.coin, this.sequence, firstFill, openedAt := f.coin, sequence, f.externalId, f.time;
      side := if f.side == Buy then Long else Short;
      averageEntryPrice, closedAt := f.price, None;
      fills, fundingEvents := [OpenPortion(f, size, fee)], [];
    }

    function Value(): Cycle
      reads this
    {
      Cycle(coin, sequence, firstFill, openedAt, side, averageEntryPrice, closedAt, fills, fundingEvents)
    }
  }

  class CoinState {
    var average: Option<real>
    var cycle: InternalCycle?
    var position: real
    var sequence: nat

    constructor ()
      ensures average == None && cycle == null && position == 0.0 && sequence == 0
    {
      average, cycle, position, sequence := None, null, 0.0, 0;
    }
  }

  // ---------------------------------------------------------------- what the objects stand for

  /** The values of the shared list. */
  ghost function Values(cycles: seq<InternalCycle>): (vs: seq<Cycle>)
    reads cycles
    ensures |vs| == |cycles|
  {
    seq(|cycles|, i requires 0 <= i < |cycles| reads cycles => cycles[i].Value())
  }

  function OfCoin(c: Coin): Cycle -> bool {
    (x: Cycle) => x.coin == c
  }

  function ForCoin(vs: seq<Cycle>, c: Coin): seq<Cycle> {
    Filter(OfCoin(c), vs)
  }

  ghost predicate LastOfCoin(cycles: seq<InternalCycle>, cycle: InternalCycle) {
    exists k :: 0 <= k < |cycles| && cycles[k] == cycle && forall j :: k < j < |cycles| ==> cycles[j].coin != cycle.coin
  }

  /** The objects are not shared beyond a state pointing at the last cycle of its coin. */
  ghost predicate Linked(states: map<Coin, CoinState>, cycles: seq<InternalCycle>, discontinued: set<Coin>)
    reads states.Values
  {
    && Distinct(cycles)
    && (forall c, d :: c in states && d in states && c != d ==> states[c] != states[d])
    && forall c :: c in states && c !in discontinued && states[c].cycle != null ==>
         states[c].cycle.coin == c && LastOfCoin(cycles, states[c].cycle)
  }

  ghost predicate StateHolds(s: CoinState, r: CoinRun)
    reads s, if s.cycle == null then {} else {s.cycle}
  {
    && s.position == r.position && s.sequence == r.sequence
    && (s.cycle != null <==> r.active.Some?) && (s.average.Some? <==> r.active.Some?)
    && (s.cycle != null && r.active.Some? && s.average.Some? ==>
          s.cycle.Value() == r.active.value && s.average.value == r.active.value.averageEntryPrice)
  }

  /** The objects represent a run of the coin. */
  ghost predicate Holds(states: map<Coin, CoinState>, cycles: seq<InternalCycle>, discontinued: set<Coin>, c: Coin,
                        r: CoinRun)
    reads states.Values, cycles, set s | s in states.Values && s.cycle != null :: s.cycle
  {
    && ForCoin(Values(cycles), c) == Cycles(r)
    && (r.discontinued <==> c in discontinued)
    && (c !in discontinued ==> if c in states then StateHolds(states[c], r) else r == FRESH)
  }

  // ---------------------------------------------------------------- values of the list

  lemma {:induction false} ForCoinConcat(a: seq<Cycle>, b: seq<Cycle>, c: Coin)
    ensures ForCoin(a + b, c) == ForCoin(a, c) + ForCoin(b, c)
  {
    if b == [] {
      assert a + b == a;
    } else {
      assert (a + b)[..|a + b| - 1] == a + b[..|b| - 1];
      ForCoinConcat(a, b[..|b| - 1], c);
    }
  }

  lemma ForCoinSingle(v: Cycle, c: Coin)
    ensures ForCoin([v], c) == if v.coin == c then [v] else []
  {
    assert Filter(OfCoin(c), [v][..0]) == [];
  }

  lemma {:induction false} NoneOfCoin(vs: seq<Cycle>, c: Coin)
    requires forall k :: 0 <= k < |vs| ==> vs[k].coin != c
    ensures ForCoin(vs, c) == []
  {
    if vs != [] { NoneOfCoin(vs[..|vs| - 1], c); }
  }

  /** Replacing or removing a cycle concerns only its coin; when it is the coin's last cycle, it is the
      last of the coin's list. */
  lemma ForCoinAround(vs: seq<Cycle>, k: nat, v: Cycle, c: Coin)
    requires k < |vs| && v.coin == vs[k].coin
    ensures v.coin != c ==> ForCoin(vs[k := v], c) == ForCoin(vs, c) == ForCoin(Without(vs, k), c)
    ensures v.coin == c && (forall j :: k < j < |vs| ==> vs[j].coin != c) ==>
      var rest := ForCoin(Without(vs, k), c); ForCoin(vs, c) == rest + [vs[k]] && ForCoin(vs[k := v], c) == rest + [v]
  {
    hide ForCoin;
    var a, b := vs[..k], vs[k + 1..];
    assert vs == a + [vs[k]] + b && vs[k := v] == a + [v] + b;
    ForCoinConcat(a + [vs[k]], b, c);
    ForCoinConcat(a, [vs[k]], c);
    ForCoinConcat(a + [v], b, c);
    ForCoinConcat(a, [v], c);
    ForCoinConcat(a, b, c);
    ForCoinSingle(v, c);
    ForCoinSingle(vs[k], c);
    if forall j :: k < j < |vs| ==> vs[j].coin != c { NoneOfCoin(b, c); }
  }

  lemma ForCoinAppend(vs: seq<Cycle>, v: Cycle, c: Coin)
    ensures ForCoin(vs + [v], c) == ForCoin(vs, c) + if v.coin == c then [v] else []
  {
    ForCoinConcat(vs, [v], c);
    ForCoinSingle(v, c);
  }

  method IndexOf(cycles: seq<InternalCycle>, cycle: InternalCycle) returns (k: int)
    ensures -1 <= k < |cycles| && (k == -1 <==> cycle !in cycles)
    ensures k >= 0 ==> cycles[k] == cycle && forall j :: 0 <= j < k ==> cycles[j] != cycle
  {
    for i := 0 to |cycles|
      invariant forall j :: 0 <= j < i ==> cycles[j] != cycle
    {
      if cycles[i] == cycle { return i; }
    }
    k := -1;
  }

  // ---------------------------------------------------------------- one fill, on its coin

  ghost function Now(cycle: InternalCycle?): seq<Cycle>
    reads cycle
  {
    if cycle == null then [] else [cycle.Value()]
  }

  /** The branch for a coin without a position. */
  method OpenCycle(state: CoinState, f: Fill, ghost r: CoinRun) returns (created: InternalCycle)
    requires Sound(r) && Positive(f) && StateHolds(state, r) && !r.discontinued
    requires f.startPosition == state.position == 0.0
    modifies state
    ensures fresh(created) && created.coin == f.coin && state.cycle == created && StateHolds(state, Step(r, f))
    ensures Cycles(Step(r, f)) == r.closed + Now(created)
  {
    created := new InternalCycle(f, state.sequence + 1, f.size, f.fee);
    state.cycle := created;
    state.sequence := state.sequence + 1;
    state.average := Some(f.price);
    state.position := Delta(f);
  }

  /** The branch for a fill on the side of the position. */
  method IncreaseCycle(state: CoinState, cycle: InternalCycle, f: Fill, ghost r: CoinRun)
    requires Sound(r) && Positive(f) && StateHolds(state, r) && !r.discontinued && state.cycle == cycle
    requires f.startPosition == state.position != 0.0 && (state.position > 0.0) == (Delta(f) > 0.0)
    modifies state, cycle
    ensures state.cycle == cycle && StateHolds(state, Step(r, f))
    ensures Cycles(Step(r, f)) == r.closed + Now(cycle)
  {
    var average := Blended(Magnitude(state.position), state.average.value, f.size, f.price);
    state.average := Some(average);
    cycle.averageEntryPrice := average;
    cycle.fills := cycle.fills + [OpenPortion(f, f.size, f.fee)];
    state.position := state.position + Delta(f);
  }

  /** The branch for a fill against the position: it closes a part or all of it, or flips it. */
  method CloseCycle(state: CoinState, cycle: InternalCycle, f: Fill, ghost r: CoinRun) returns (created: InternalCycle?)
    requires Sound(r) && Positive(f) && StateHolds(state, r) && !r.discontinued && state.cycle == cycle
    requires f.startPosition == state.position != 0.0 && (state.position > 0.0) != (Delta(f) > 0.0)
    modifies state, cycle
    ensures created != null ==> fresh(created) && created.coin == f.coin && state.cycle == created
    ensures created == null ==> state.cycle == null || state.cycle == cycle
    ensures StateHolds(state, Step(r, f))
    ensures Cycles(Step(r, f)) == r.closed + Now(cycle) + Now(created)
  {
    hide Blended, CloseFee;
    created := null;
    var closeSize := CloseSize(state.position, f);
    var openingSize := f.size - closeSize;
    var closeFee := CloseFee(state.position, f);
    cycle.fills := cycle.fills + [ClosePortion(f, closeSize, closeFee, state.average.value)];
    var nextPosition := state.position + Delta(f);
    if openingSize == 0.0 {
      state.position := nextPosition;
      if nextPosition == 0.0 {
        cycle.closedAt := Some(f.time);
        state.cycle := null;
        state.average := None;
      }
      return;
    }
    cycle.closedAt := Some(f.time);
    var openingFee := f.fee - closeFee;
    created := new InternalCycle(f, state.sequence + 1, openingSize, openingFee);
    state.sequence := state.sequence + 1;
    state.cycle := created;
    state.position := nextPosition;
    state.average := Some(f.price);
  }

  // ---------------------------------------------------------------- one fill, on the shared list

  lemma LastAfterAppend(cycles: seq<InternalCycle>, o: InternalCycle, x: InternalCycle)
    requires LastOfCoin(cycles, x) && o.coin != x.coin
    ensures LastOfCoin(cycles + [o], x)
  {
    var k :| 0 <= k < |cycles| && cycles[k] == x && forall j :: k < j < |cycles| ==> cycles[j].coin != x.coin;
    assert (cycles + [o])[k] == x;
  }

  lemma LastAfterRemoval(cycles: seq<InternalCycle>, m: nat, x: InternalCycle)
    requires m < |cycles| && LastOfCoin(cycles, x) && cycles[m] != x
    ensures LastOfCoin(Without(cycles, m), x)
  {
    var k :| 0 <= k < |cycles| && cycles[k] == x && forall j :: k < j < |cycles| ==> cycles[j].coin != x.coin;
    var rest := Without(cycles, m);
    var i := if k < m then k else k - 1;
    assert rest[i] == x;
    forall j | i < j < |rest| ensures rest[j].coin != x.coin {
      assert rest[j] == cycles[if j < m then j else j + 1];
    }
  }

  lemma NewIsLast(cycles: seq<InternalCycle>, o: InternalCycle)
    ensures LastOfCoin(cycles + [o], o)
  {
    assert (cycles + [o])[|cycles|] == o;
  }

  lemma SameFront<T>(a: seq<T>, x: T, b: seq<T>, y: T)
    requires a + [x] == b + [y]
    ensures a == b && x == y
  {
    assert (a + [x])[..|a|] == a && (b + [y])[..|b|] == b;
    assert (a + [x])[|a|] == x && (b + [y])[|b|] == y;
  }

  /** The list of values after the coin's last cycle changed and another was perhaps appended. */
  lemma ListStep(vs: seq<Cycle>, k: nat, v: Cycle, more: seq<Cycle>, r: CoinRun, c: Coin)
    requires k < |vs| && vs[k].coin == v.coin == c && (forall j :: k < j < |vs| ==> vs[j].coin != c)
    requires ForCoin(vs, c) == Cycles(r) && r.active.Some? && |more| <= 1 && forall m :: m in more ==> m.coin == c
    ensures ForCoin(vs[k := v] + more, c) == r.closed + [v] + more
    ensures forall d :: d != c ==> ForCoin(vs[k := v] + more, d) == ForCoin(vs, d)
  {
    hide ForCoin;
    ForCoinAround(vs, k, v, c);
    forall d ensures d != c ==> ForCoin(vs[k := v], d) == ForCoin(vs, d) { ForCoinAround(vs, k, v, d); }
    SameFront(ForCoin(Without(vs, k), c), vs[k], r.closed, r.active.value);
    var ws := vs[k := v];
    var us := ws + more;
    if more == [] {
      assert us == ws;
    } else {
      assert more == [more[0]];
      forall d ensures ForCoin(us, d) == ForCoin(ws, d) + if more[0].coin == d then [more[0]] else [] {
        ForCoinAppend(ws, more[0], d);
      }
    }
  }

  ghost predicate Represents(states: map<Coin, CoinState>, cycles: seq<InternalCycle>, discontinued: set<Coin>,
                             runs: Coin -> CoinRun)
    reads states.Values, cycles, set s | s in states.Values && s.cycle != null :: s.cycle
  {
    Linked(states, cycles, discontinued) && forall c :: Holds(states, cycles, discontinued, c, runs(c))
  }

  /** The branch for a fill that does not continue the position: the open cycle leaves the list. */
  method Discontinue(states: map<Coin, CoinState>, cycles: seq<InternalCycle>, discontinued: set<Coin>,
                     cycle: InternalCycle?, f: Fill, ghost runs: Coin -> CoinRun)
    returns (cycles': seq<InternalCycle>)
    requires Represents(states, cycles, discontinued, runs) && Sound(runs(f.coin)) && Positive(f)
    requires f.coin !in discontinued && f.startPosition != runs(f.coin).position
    requires if f.coin in states then cycle == states[f.coin].cycle else cycle == null
    ensures Linked(states, cycles', discontinued + {f.coin})
    ensures forall c :: Holds(states, cycles', discontinued + {f.coin}, c,
                              if c == f.coin then Step(runs(c), f) else runs(c))
    ensures forall x :: x in cycles' ==> x in cycles
  {
    hide ForCoin;
    cycles' := cycles;
    assert Holds(states, cycles, discontinued, f.coin, runs(f.coin));
    if cycle != null {
      var k := IndexOf(cycles, cycle);
      if k != -1 {
        cycles' := Without(cycles, k);
        assert Values(cycles') == Without(Values(cycles), k);
        forall c ensures c != f.coin ==> ForCoin(Values(cycles'), c) == ForCoin(Values(cycles), c) {
          ForCoinAround(Values(cycles), k, Values(cycles)[k], c);
        }
        ForCoinAround(Values(cycles), k, Values(cycles)[k], f.coin);
        SameFront(ForCoin(Without(Values(cycles), k), f.coin), Values(cycles)[k], runs(f.coin).closed,
                  runs(f.coin).active.value);
        forall c | c in states && c !in discontinued + {f.coin} && states[c].cycle != null
          ensures LastOfCoin(cycles', states[c].cycle)
        {
          LastAfterRemoval(cycles, k, states[c].cycle);
        }
      }
    }
    forall c
      ensures Holds(states, cycles', discontinued + {f.coin}, c, if c == f.coin then Step(runs(c), f) else runs(c))
    {
      assert Holds(states, cycles, discontinued, c, runs(c));
    }
  }

  ghost function CycleObject(cycle: InternalCycle?): set<InternalCycle> {
    if cycle == null then {} else {cycle}
  }

  /** The branches for a fill that continues the position; a new cycle is handed back to be listed. */
  method Advance(state: CoinState, f: Fill, ghost r: CoinRun) returns (created: InternalCycle?)
    requires Sound(r) && Positive(f) && StateHolds(state, r) && !r.discontinued && f.startPosition == state.position
    modifies state, CycleObject(state.cycle)
    ensures created != null ==> fresh(created) && created.coin == f.coin && state.cycle == created
    ensures created == null ==> state.cycle == null || state.cycle == old(state.cycle)
    ensures StateHolds(state, Step(r, f)) && !Step(r, f).discontinued
    ensures Cycles(Step(r, f)) == r.closed + Now(old(state.cycle)) + Now(created)
  {
    hide Blended, CloseFee;
    created := null;
    if state.position == 0.0 {
      created := OpenCycle(state, f, r);
    } else {
      var cycle := state.cycle;
      if cycle == null || state.average.None? {
        assert false;
      } else if (state.position > 0.0) == (Delta(f) > 0.0) {
        IncreaseCycle(state, cycle, f, r);
      } else {
        created := CloseCycle(state, cycle, f, r);
      }
    }
  }

  /** What the list becomes, in values, when a coin takes a step. */
  lemma ListAfter(vs: seq<Cycle>, ws: seq<Cycle>, k: int, old': seq<Cycle>, more: seq<Cycle>, r: CoinRun, f: Fill)
    requires Sound(r) && Positive(f) && ForCoin(vs, f.coin) == Cycles(r) && |old'| <= 1 && |more| <= 1
    requires Cycles(Step(r, f)) == r.closed + old' + more && (forall m :: m in more ==> m.coin == f.coin)
    requires if old' == [] then r.active.None? && ws == vs + more
             else r.active.Some? && 0 <= k < |vs| && vs[k].coin == old'[0].coin == f.coin
                  && (forall j :: k < j < |vs| ==> vs[j].coin != f.coin) && ws == vs[k := old'[0]] + more
    ensures ForCoin(ws, f.coin) == Cycles(Step(r, f))
    ensures forall d :: d != f.coin ==> ForCoin(ws, d) == ForCoin(vs, d)
  {
    hide ForCoin, Step;
    if old' != [] {
      ListStep(vs, k, old'[0], more, r, f.coin);
      assert old' == [old'[0]];
    } else if more != [] {
      assert more == [more[0]];
      forall d ensures ForCoin(ws, d) == ForCoin(vs, d) + if more[0].coin == d then [more[0]] else [] {
        ForCoinAppend(vs, more[0], d);
      }
    } else {
      assert ws == vs;
    }
  }

  /** The branches that keep the coin: its state and cycles change in place, and the list may grow. */
  method Continue(states: map<Coin, CoinState>, cycles: seq<InternalCycle>, discontinued: set<Coin>,
                  state: CoinState, f: Fill, ghost runs: Coin -> CoinRun)
    returns (cycles': seq<InternalCycle>)
    requires Represents(states, cycles, discontinued, runs) && Sound(runs(f.coin)) && Positive(f)
    requires f.coin !in discontinued && f.startPosition == state.position && StateHolds(state, runs(f.coin))
    requires if f.coin in states then state == states[f.coin] else state !in states.Values && state.cycle == null
    modifies state, CycleObject(state.cycle)
    ensures forall x :: x in cycles' ==> x in cycles || fresh(x)
    ensures StateHolds(state, Step(runs(f.coin), f)) && !Step(runs(f.coin), f).discontinued
    ensures Distinct(cycles')
    ensures state.cycle != null ==> state.cycle.coin == f.coin && LastOfCoin(cycles', state.cycle)
    ensures forall x: InternalCycle :: x.coin != f.coin && LastOfCoin(cycles, x) ==> LastOfCoin(cycles', x)
    ensures ForCoin(Values(cycles'), f.coin) == Cycles(Step(runs(f.coin), f))
    ensures forall d :: d != f.coin ==> ForCoin(Values(cycles'), d) == old(ForCoin(Values(cycles), d))
    ensures state.cycle == null || state.cycle == old(state.cycle) || fresh(state.cycle)
  {
    hide ForCoin, Step, Cycles;
    ghost var r := runs(f.coin);
    assert Holds(states, cycles, discontinued, f.coin, r);
    ghost var vs := Values(cycles);
    ghost var active := state.cycle;
    ghost var k: nat := 0;
    if active != null {
      assert LastOfCoin(cycles, active);
      k :| 0 <= k < |cycles| && cycles[k] == active && forall j :: k < j < |cycles| ==> cycles[j].coin != active.coin;
    }
    var created := Advance(state, f, r);
    cycles' := cycles;
    if created != null { cycles' := cycles + [created]; }
    ghost var base := if active == null then vs else vs[k := active.Value()];
    assert Values(cycles) == base;
    assert Values(cycles') == base + Now(created);
    ListAfter(vs, Values(cycles'), k, Now(active), Now(created), r, f);
    if created != null {
      NewIsLast(cycles, created);
      forall x: InternalCycle | x.coin != f.coin && LastOfCoin(cycles, x) ensures LastOfCoin(cycles', x) {
        LastAfterAppend(cycles, created, x);
      }
    }
  }

  lemma Stopped(r: CoinRun, f: Fill)
    requires Sound(r) && Positive(f) && r.discontinued
    ensures Step(r, f) == r
  {
  }

  /** One iteration of the loop: the coin of the fill takes one step, every other coin stays as it was. */
  method ProcessFill(states: map<Coin, CoinState>, cycles: seq<InternalCycle>, discontinued: set<Coin>, f: Fill,
                     ghost runs: Coin -> CoinRun)
    returns (states': map<Coin, CoinState>, cycles': seq<InternalCycle>, discontinued': set<Coin>)
    requires Represents(states, cycles, discontinued, runs) && Sound(runs(f.coin)) && Positive(f)
    modifies states.Values, set s | s in states.Values && s.cycle != null :: s.cycle
    ensures fresh(states'.Values - states.Values) && forall x :: x in cycles' ==> x in cycles || fresh(x)
    ensures forall s :: s in states'.Values && s.cycle != null ==>
      fresh(s.cycle) || (s in states.Values && s.cycle == old(s.cycle))
    ensures Linked(states', cycles', discontinued')
    ensures forall c :: Holds(states', cycles', discontinued', c, if c == f.coin then Step(runs(c), f) else runs(c))
  {
    hide Step, ForCoin, Cycles;
    states', cycles', discontinued' := states, cycles, discontinued;
    assert Holds(states, cycles, discontinued, f.coin, runs(f.coin));
    if f.coin in discontinued {
      assert Step(runs(f.coin), f) == runs(f.coin) by { Stopped(runs(f.coin), f); }
      return;
    }
    var state: CoinState;
    if f.coin in states {
      state := states[f.coin];
    } else {
      state := new CoinState();
      assert StateHolds(state, FRESH);
    }
    if f.startPosition != state.position {
      cycles' := Discontinue(states, cycles, discontinued, state.cycle, f, runs);
      discontinued' := discontinued + {f.coin};
      return;
    }
    cycles' := Continue(states, cycles, discontinued, state, f, runs);
    states' := states[f.coin := state];
    forall c ensures Holds(states', cycles', discontinued', c, if c == f.coin then Step(runs(c), f) else runs(c)) {
      assert old(Holds(states, cycles, discontinued, c, runs(c)));
      if c != f.coin && c in states { assert states'[c] == states[c] != state; }
    }
  }
}
