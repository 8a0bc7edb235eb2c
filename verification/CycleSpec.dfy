/** packages/analytics/src/position-cycles.ts, one coin at a time: the fills of a coin open, increase,
    reduce, close and flip position cycles. */
module CycleSpec {

  // Decimals are exact reals, times are milliseconds, identifiers are natural numbers ordered as their
  // text is.

  import opened Sequences

  type Coin = nat

  datatype Side = Buy | Sell
  datatype PositionSide = Long | Short

  /** A fill after parsing. */
  datatype Fill = Fill(
    externalId: nat, coin: Coin, side: Side, price: real, size: real, fee: real, closedPnl: real,
    startPosition: real, time: int)

  /** Closing portions carry the entry price they are measured against. */
  datatype Role = Opens | Closes(entryPrice: Option<real>)

  datatype CycleFill = CycleFill(
    externalId: nat, side: Side, role: Role, price: real, size: real, fee: real, closedPnl: real, time: int)

  datatype Funding = Funding(externalId: nat, coin: Coin, amount: real, time: int)

  datatype Cycle = Cycle(
    coin: Coin, sequence: nat, firstFill: nat, openedAt: int, side: PositionSide, averageEntryPrice: real,
    closedAt: Option<int>, fills: seq<CycleFill>, funding: seq<Funding>)

  /** What the reconstruction knows of a coin: its closed cycles, the one still open, and the position. */
  datatype CoinRun = CoinRun(
    closed: seq<Cycle>, active: Option<Cycle>, position: real, sequence: nat, discontinued: bool)

  const FRESH: CoinRun := CoinRun([], None, 0.0, 0, false)

  predicate Positive(f: Fill) {
    f.price > 0.0 && f.size > 0.0
  }

  /** A coin has an open cycle exactly while it has a position. */
  predicate Sound(r: CoinRun) {
    r.discontinued || (r.active.Some? <==> r.position != 0.0)
  }

  // ---------------------------------------------------------------- portions

  function Delta(f: Fill): real {
    if f.side == Buy then f.size else 0.0 - f.size
  }

  function Magnitude(x: real): real {
    if x < 0.0 then 0.0 - x else x
  }

  function OpenPortion(f: Fill, size: real, fee: real): CycleFill {
    CycleFill(f.externalId, f.side, Opens, f.price, size, fee, 0.0, f.time)
  }

  function ClosePortion(f: Fill, size: real, fee: real, entryPrice: real): CycleFill {
    CycleFill(f.externalId, f.side, Closes(Some(entryPrice)), f.price, size, fee, f.closedPnl, f.time)
  }

  function CreateCycle(f: Fill, sequence: nat, size: real, fee: real): Cycle {
    Cycle(f.coin, sequence, f.externalId, f.time, if f.side == Buy then Long else Short, f.price, None,
          [OpenPortion(f, size, fee)], [])
  }

  function Blended(size: real, average: real, added: real, price: real): real
    requires size > 0.0 && added > 0.0
  {
    (size * average + added * price) / (size + added)
  }

  function CloseSize(position: real, f: Fill): real {
    if Magnitude(position) <= f.size then Magnitude(position) else f.size
  }

  function CloseFee(position: real, f: Fill): real
    requires f.size > 0.0
  {
    f.fee * CloseSize(position, f) / f.size
  }

  // ---------------------------------------------------------------- one fill

  function Increased(c: Cycle, position: real, f: Fill): Cycle
    requires Positive(f) && position != 0.0
  {
    c.(averageEntryPrice := Blended(Magnitude(position), c.averageEntryPrice, f.size, f.price),
       fills := c.fills + [OpenPortion(f, f.size, f.fee)])
  }

  function Reduced(c: Cycle, position: real, f: Fill): Cycle
    requires f.size > 0.0
  {
    c.(fills := c.fills + [ClosePortion(f, CloseSize(position, f), CloseFee(position, f), c.averageEntryPrice)])
  }

  function Step(r: CoinRun, f: Fill): (next: CoinRun)
    requires Sound(r) && Positive(f)
    ensures Sound(next)
  {
    if r.discontinued then r
    else if f.startPosition != r.position then r.(active := None, discontinued := true)
    else if r.position == 0.0 then
      r.(active := Some(CreateCycle(f, r.sequence + 1, f.size, f.fee)), sequence := r.sequence + 1,
         position := Delta(f))
    else
      var next := r.position + Delta(f);
      if (r.position > 0.0) == (Delta(f) > 0.0) then
        r.(active := Some(Increased(r.active.value, r.position, f)), position := next)
      else
        var reduced := Reduced(r.active.value, r.position, f);
        var openingSize := f.size - CloseSize(r.position, f);
        if openingSize == 0.0 && next != 0.0 then r.(active := Some(reduced), position := next)
        else
          var closed := reduced.(closedAt := Some(f.time));
          if openingSize == 0.0 then r.(closed := r.closed + [closed], active := None, position := next)
          else
            r.(closed := r.closed + [closed], sequence := r.sequence + 1, position := next,
               active := Some(CreateCycle(f, r.sequence + 1, openingSize, f.fee - CloseFee(r.position, f))))
  }

  function RunCoin(fills: seq<Fill>, n: nat): (r: CoinRun)
    requires n <= |fills| && forall k :: 0 <= k < n ==> Positive(fills[k])
    ensures Sound(r)
  {
    if n == 0 then FRESH else Step(RunCoin(fills, n - 1), fills[n - 1])
  }

  /** The cycles of a coin, oldest first. */
  function Cycles(r: CoinRun): seq<Cycle> {
    r.closed + if r.active.Some? then [r.active.value] else []
  }

  // ---------------------------------------------------------------- profit and loss

  function RealSum<T>(f: T -> real, s: seq<T>): real {
    if s == [] then 0.0 else RealSum(f, s[..|s| - 1]) + f(s[|s| - 1])
  }

  function FeeOf(f: CycleFill): real {
    f.fee
  }

  function ClosedPnlOf(f: CycleFill): real {
    f.closedPnl
  }

  /** The profit of a closing portion against its entry price. */
  function ProfitOf(f: CycleFill): real {
    match f.role
    case Closes(Some(entry)) => if f.side == Sell then (f.price - entry) * f.size else (entry - f.price) * f.size
    case _ => 0.0
  }

  function AmountOf(f: Funding): real {
    f.amount
  }

  predicate Priced(f: CycleFill) {
    f.role == Opens || f.role.entryPrice.Some?
  }

  datatype Pnl = Pnl(fee: real, recomputed: real, funding: real, gross: real, net: real)

  /** `None` where the source reports a missing entry price. */
  function CyclePnl(fills: seq<CycleFill>, funding: seq<Funding>): Option<Pnl> {
    if exists k :: 0 <= k < |fills| && !Priced(fills[k]) then None
    else
      var fee, official, paid := RealSum(FeeOf, fills), RealSum(ClosedPnlOf, fills), RealSum(AmountOf, funding);
      Some(Pnl(fee, RealSum(ProfitOf, fills), paid, official, official - fee + paid))
  }

  // ---------------------------------------------------------------- which fills are trusted

  predicate Starts(fills: seq<Fill>, n: nat, coin: Coin)
    requires n <= |fills|
  {
    exists k :: 0 <= k < n && fills[k].coin == coin && fills[k].startPosition == 0.0
  }

  /** A fill is trusted once its coin has had a fill that started without a position. */
  function Trusted(fills: seq<Fill>, n: nat): seq<Fill>
    requires n <= |fills|
  {
    if n == 0 then []
    else Trusted(fills, n - 1) + if Starts(fills, n, fills[n - 1].coin) then [fills[n - 1]] else []
  }

  // ---------------------------------------------------------------- funding

  datatype Allocation = To(index: nat) | BoundaryAmbiguous | NoTrustedCycle | MultipleCandidates

  predicate AtBoundary(c: Cycle, item: Funding) {
    c.coin == item.coin && (item.time == c.openedAt || c.closedAt == Some(item.time))
  }

  predicate Covers(c: Cycle, item: Funding) {
    c.coin == item.coin && item.time > c.openedAt && (c.closedAt.None? || item.time < c.closedAt.value)
  }

  /** The indices of the first `n` cycles that cover the item. */
  function Candidates(cs: seq<Cycle>, n: nat, item: Funding): (ks: seq<nat>)
    requires n <= |cs|
    ensures forall i :: 0 <= i < |ks| ==> ks[i] < n && Covers(cs[ks[i]], item)
    ensures forall i, j :: 0 <= i < j < |ks| ==> ks[i] < ks[j]
    ensures forall k :: 0 <= k < n && Covers(cs[k], item) ==> k in ks
  {
    if n == 0 then []
    else Candidates(cs, n - 1, item) + if Covers(cs[n - 1], item) then [n - 1] else []
  }

  function Allocate(cs: seq<Cycle>, item: Funding): Allocation {
    var active := Candidates(cs, |cs|, item);
    if exists k :: 0 <= k < |cs| && AtBoundary(cs[k], item) then BoundaryAmbiguous
    else if |active| == 1 then To(active[0])
    else if active == [] then NoTrustedCycle
    else MultipleCandidates
  }
}
