/** Accounting and structure of position cycles, over every sequence of fills of a coin. */
module CycleTheorems {

  import opened Sequences
  import opened CycleSpec

  // ---------------------------------------------------------------- sums

  lemma RealAppend<T>(f: T -> real, s: seq<T>, x: T)
    ensures RealSum(f, s + [x]) == RealSum(f, s) + f(x)
  {
    assert (s + [x])[..|s|] == s;
  }

  lemma PrefixGrows<T>(f: T -> real, s: seq<T>, n: nat)
    requires 0 < n <= |s|
    ensures RealSum(f, s[..n]) == RealSum(f, s[..n - 1]) + f(s[n - 1])
  {
    assert s[..n] == s[..n - 1] + [s[n - 1]];
    RealAppend(f, s[..n - 1], s[n - 1]);
  }

  lemma RealSingle<T>(f: T -> real, x: T)
    ensures RealSum(f, [x]) == f(x)
  {
    assert [x][..0] == [];
  }

  // ---------------------------------------------------------------- the books of a cycle

  /** What a portion brings in: the proceeds of a sale, minus the cost of a purchase. */
  function CashOf(f: CycleFill): real {
    if f.side == Sell then f.price * f.size else 0.0 - f.price * f.size
  }

  function OpenedOf(f: CycleFill): real {
    if f.role.Opens? then f.size else 0.0
  }

  function ClosedOf(f: CycleFill): real {
    if f.role.Closes? then f.size else 0.0
  }

  /** The books of a cycle that stands at a position: profit so far is net cash flow plus the position
      at its average entry price, and what was opened but not closed is the position, on the cycle's side. */
  ghost predicate Books(c: Cycle, position: real) {
    && RealSum(ProfitOf, c.fills) == RealSum(CashOf, c.fills) + position * c.averageEntryPrice
    && RealSum(OpenedOf, c.fills) - RealSum(ClosedOf, c.fills) == (if c.side == Long then position else 0.0 - position)
    && (forall k :: 0 <= k < |c.fills| ==> Priced(c.fills[k]) && c.fills[k].size > 0.0)
  }

  predicate OnSide(c: Cycle, position: real) {
    if c.side == Long then position > 0.0 else position < 0.0
  }

  /** Every closed cycle stands at zero, an open one at the current position. */
  ghost predicate Kept(r: CoinRun) {
    && (forall k :: 0 <= k < |r.closed| ==> r.closed[k].closedAt.Some? && Books(r.closed[k], 0.0))
    && (r.active.Some? ==>
          r.active.value.closedAt.None? && Books(r.active.value, r.position) && OnSide(r.active.value, r.position))
  }

  lemma BookPortion(c: Cycle, f: CycleFill, average: real, before: real, after: real, closedAt: Option<int>)
    requires Books(c, before) && Priced(f) && f.size > 0.0
    requires ProfitOf(f) + before * c.averageEntryPrice == CashOf(f) + after * average
    requires OpenedOf(f) - ClosedOf(f) == if c.side == Long then after - before else before - after
    ensures Books(c.(averageEntryPrice := average, fills := c.fills + [f], closedAt := closedAt), after)
  {
    hide RealSum, ProfitOf, CashOf, OpenedOf, ClosedOf;
    RealAppend(ProfitOf, c.fills, f);
    RealAppend(CashOf, c.fills, f);
    RealAppend(OpenedOf, c.fills, f);
    RealAppend(ClosedOf, c.fills, f);
  }

  lemma BlendedValue(size: real, average: real, added: real, price: real)
    requires size > 0.0 && added > 0.0
    ensures (size + added) * Blended(size, average, added, price) == size * average + added * price
  {
    var total := size + added;
    var value := size * average + added * price;
    assert total * (value / total) == value;
  }

  lemma NewCycleBooks(f: Fill, sequence: nat, size: real, fee: real)
    requires size > 0.0
    ensures Books(CreateCycle(f, sequence, size, fee), if f.side == Buy then size else 0.0 - size)
  {
    var p := OpenPortion(f, size, fee);
    RealSingle(ProfitOf, p);
    RealSingle(CashOf, p);
    RealSingle(OpenedOf, p);
    RealSingle(ClosedOf, p);
  }

  lemma IncreasedBooks(c: Cycle, position: real, f: Fill)
    requires Books(c, position) && OnSide(c, position) && Positive(f) && (position > 0.0) == (Delta(f) > 0.0)
    ensures Books(Increased(c, position, f), position + Delta(f))
      && OnSide(Increased(c, position, f), position + Delta(f))
  {
    hide Books, Blended;
    var average := Blended(Magnitude(position), c.averageEntryPrice, f.size, f.price);
    BlendedValue(Magnitude(position), c.averageEntryPrice, f.size, f.price);
    if c.side == Long {
      assert (position + f.size) * average == position * c.averageEntryPrice + f.size * f.price;
    } else {
      var q := 0.0 - position;
      assert (q + f.size) * average == q * c.averageEntryPrice + f.size * f.price;
      Negate(q, c.averageEntryPrice);
      Negate(q + f.size, average);
    }
    BookPortion(c, OpenPortion(f, f.size, f.fee), average, position, position + Delta(f), c.closedAt);
  }

  lemma Negate(x: real, y: real)
    ensures (0.0 - x) * y == 0.0 - x * y
  {
  }

  /** A closing portion of any size up to the position keeps the books at the smaller position. */
  lemma ReducedBooks(c: Cycle, position: real, f: Fill, closedAt: Option<int>)
    requires Books(c, position) && OnSide(c, position) && Positive(f) && (position > 0.0) != (Delta(f) > 0.0)
    ensures var size := CloseSize(position, f);
      Books(Reduced(c, position, f).(closedAt := closedAt), if c.side == Long then position - size else position + size)
  {
    hide Books, CloseFee;
    var size := CloseSize(position, f);
    var after := if c.side == Long then position - size else position + size;
    Distribute(position, after, size, c.averageEntryPrice, f.price);
    BookPortion(c, ClosePortion(f, size, CloseFee(position, f), c.averageEntryPrice), c.averageEntryPrice, position,
                after, closedAt);
  }

  lemma Distribute(before: real, after: real, size: real, entry: real, price: real)
    ensures after == before - size ==> (price - entry) * size + before * entry == price * size + after * entry
    ensures after == before + size ==> (entry - price) * size + before * entry == 0.0 - price * size + after * entry
  {
    assert (price - entry) * size == price * size - entry * size;
    assert (before - size) * entry == before * entry - size * entry;
    assert (before + size) * entry == before * entry + size * entry;
  }

  lemma StepKeepsBooks(r: CoinRun, f: Fill)
    requires Sound(r) && Positive(f) && Kept(r)
    ensures Kept(Step(r, f))
  {
    hide Books, Increased, Reduced, CloseFee;
    if !r.discontinued && f.startPosition == r.position {
      if r.position == 0.0 {
        NewCycleBooks(f, r.sequence + 1, f.size, f.fee);
      } else {
        var c := r.active.value;
        if (r.position > 0.0) == (Delta(f) > 0.0) {
          IncreasedBooks(c, r.position, f);
          assert Increased(c, r.position, f).closedAt == c.closedAt by { SameClosedAt(c, r.position, f); }
        } else {
          SameClosedAt(c, r.position, f);
          ReducedBooks(c, r.position, f, None);
          ReducedBooks(c, r.position, f, Some(f.time));
          var opening := f.size - CloseSize(r.position, f);
          if opening > 0.0 { NewCycleBooks(f, r.sequence + 1, opening, f.fee - CloseFee(r.position, f)); }
          assert Reduced(c, r.position, f).(closedAt := None) == Reduced(c, r.position, f);
        }
      }
    }
  }

  lemma SameClosedAt(c: Cycle, position: real, f: Fill)
    requires Positive(f) && position != 0.0
    ensures Increased(c, position, f).closedAt == c.closedAt && Reduced(c, position, f).closedAt == c.closedAt
    ensures Increased(c, position, f).side == c.side && Reduced(c, position, f).side == c.side
  {
  }

  /** Over every sequence of fills: at every step the profit recomputed so far is the net cash flow plus
      the position at its average entry price, and sizes balance. */
  lemma {:induction false} BooksAreKept(fills: seq<Fill>, n: nat)
    requires n <= |fills| && forall k :: 0 <= k < n ==> Positive(fills[k])
    ensures Kept(RunCoin(fills, n))
  {
    if n > 0 {
      hide Step, Kept;
      BooksAreKept(fills, n - 1);
      StepKeepsBooks(RunCoin(fills, n - 1), fills[n - 1]);
    }
  }

  /** A closed cycle, long or short, through any increases, partial closes and flips: its recomputed
      profit is its net cash flow, and it closed exactly what it opened. */
  lemma ClosedCycleProfit(fills: seq<Fill>, n: nat, k: nat, funding: seq<Funding>)
    requires n <= |fills| && (forall i :: 0 <= i < n ==> Positive(fills[i])) && k < |RunCoin(fills, n).closed|
    ensures var c := RunCoin(fills, n).closed[k];
      && CyclePnl(c.fills, funding).Some? && CyclePnl(c.fills, funding).value.recomputed == RealSum(CashOf, c.fills)
      && RealSum(OpenedOf, c.fills) == RealSum(ClosedOf, c.fills)
  {
    BooksAreKept(fills, n);
  }

  /** An open cycle has opened more than it closed by exactly the current position, on its own side. */
  lemma OpenCycleSize(fills: seq<Fill>, n: nat)
    requires n <= |fills| && (forall i :: 0 <= i < n ==> Positive(fills[i])) && RunCoin(fills, n).active.Some?
    ensures var r := RunCoin(fills, n); var c := r.active.value;
      && RealSum(OpenedOf, c.fills) - RealSum(ClosedOf, c.fills) == Magnitude(r.position) > 0.0
      && OnSide(c, r.position)
  {
    BooksAreKept(fills, n);
  }

  // ---------------------------------------------------------------- fees and position

  function FeesOf(c: Cycle): real {
    RealSum(FeeOf, c.fills)
  }

  function FillFee(f: Fill): real {
    f.fee
  }

  lemma QuotientOfWhole(fee: real, size: real)
    requires size > 0.0
    ensures fee * size / size == fee
  {
  }

  lemma AppendFee(c: Cycle, f: CycleFill, average: real, closedAt: Option<int>)
    ensures FeesOf(c.(averageEntryPrice := average, fills := c.fills + [f], closedAt := closedAt)) == FeesOf(c) + f.fee
  {
    RealAppend(FeeOf, c.fills, f);
  }

  lemma NewCycleFee(f: Fill, sequence: nat, size: real, fee: real)
    ensures FeesOf(CreateCycle(f, sequence, size, fee)) == fee
  {
    RealSingle(FeeOf, OpenPortion(f, size, fee));
  }

  function TotalFees(r: CoinRun): real {
    RealSum(FeesOf, r.closed) + if r.active.Some? then FeesOf(r.active.value) else 0.0
  }

  /** A fill that is processed puts its whole fee, split or not, on the cycles it touches. */
  lemma StepKeepsFees(r: CoinRun, f: Fill)
    requires Sound(r) && Positive(f) && !r.discontinued && f.startPosition == r.position
    ensures TotalFees(Step(r, f)) == TotalFees(r) + f.fee
    ensures Step(r, f).position == r.position + Delta(f) && !Step(r, f).discontinued
  {
    hide FeesOf, RealSum, Blended;
    if r.position == 0.0 {
      NewCycleFee(f, r.sequence + 1, f.size, f.fee);
    } else if (r.position > 0.0) == (Delta(f) > 0.0) {
      var c := r.active.value;
      AppendFee(c, OpenPortion(f, f.size, f.fee),
                Blended(Magnitude(r.position), c.averageEntryPrice, f.size, f.price), c.closedAt);
    } else {
      ClosingKeepsFees(r, f);
    }
  }

  lemma ClosingKeepsFees(r: CoinRun, f: Fill)
    requires Sound(r) && Positive(f) && !r.discontinued && f.startPosition == r.position != 0.0
    requires (r.position > 0.0) != (Delta(f) > 0.0)
    ensures TotalFees(Step(r, f)) == TotalFees(r) + f.fee
  {
    hide FeesOf, RealSum, CloseFee;
    var c := r.active.value;
    var portion := ClosePortion(f, CloseSize(r.position, f), CloseFee(r.position, f), c.averageEntryPrice);
    AppendFee(c, portion, c.averageEntryPrice, c.closedAt);
    AppendFee(c, portion, c.averageEntryPrice, Some(f.time));
    var opening := f.size - CloseSize(r.position, f);
    if opening == 0.0 { WholeFee(r.position, f); }
    NewCycleFee(f, r.sequence + 1, opening, f.fee - CloseFee(r.position, f));
    RealAppend(FeesOf, r.closed, Reduced(c, r.position, f).(closedAt := Some(f.time)));
  }

  lemma WholeFee(position: real, f: Fill)
    requires f.size > 0.0 && CloseSize(position, f) == f.size
    ensures CloseFee(position, f) == f.fee
  {
    QuotientOfWhole(f.fee, f.size);
  }

  /** While a coin is not discontinued, its position is the sum of its deltas and its cycles carry exactly
      the fees of its fills. */
  lemma {:induction false} FeesAreKept(fills: seq<Fill>, n: nat)
    requires n <= |fills| && (forall k :: 0 <= k < n ==> Positive(fills[k])) && !RunCoin(fills, n).discontinued
    ensures TotalFees(RunCoin(fills, n)) == RealSum(FillFee, fills[..n])
    ensures RunCoin(fills, n).position == RealSum(Delta, fills[..n])
  {
    if n > 0 {
      hide TotalFees, RealSum, Step;
      StaysDiscontinued(fills, n);
      FeesAreKept(fills, n - 1);
      StepKeepsFees(RunCoin(fills, n - 1), fills[n - 1]);
      PrefixGrows(FillFee, fills, n);
      PrefixGrows(Delta, fills, n);
    }
  }

  lemma StaysDiscontinued(fills: seq<Fill>, n: nat)
    requires 0 < n <= |fills| && forall k :: 0 <= k < n ==> Positive(fills[k])
    ensures var r := RunCoin(fills, n - 1);
      (!RunCoin(fills, n).discontinued ==> !r.discontinued && fills[n - 1].startPosition == r.position)
  {
  }

  /** A coin is discontinued from the first fill that does not continue the reconstructed position. Its
      later fills change nothing, only the cycle open at that moment is dropped, and the fees kept plus
      those of the dropped cycle are the fees of all fills processed. */
  lemma {:induction false} DiscontinuityDropsOne(fills: seq<Fill>, n: nat) returns (m: nat)
    requires n <= |fills| && (forall k :: 0 <= k < n ==> Positive(fills[k])) && RunCoin(fills, n).discontinued
    ensures m < n && !RunCoin(fills, m).discontinued && fills[m].startPosition != RunCoin(fills, m).position
    ensures Cycles(RunCoin(fills, n)) == RunCoin(fills, m).closed
    ensures TotalFees(RunCoin(fills, n))
      + (if RunCoin(fills, m).active.Some? then FeesOf(RunCoin(fills, m).active.value) else 0.0)
            == RealSum(FillFee, fills[..m])
  {
    hide FeesOf, RealSum;
    if RunCoin(fills, n - 1).discontinued {
      m := DiscontinuityDropsOne(fills, n - 1);
    } else {
      m := n - 1;
      FeesAreKept(fills, m);
      StopsHere(RunCoin(fills, m), fills[m]);
    }
  }

  lemma StopsHere(r: CoinRun, f: Fill)
    requires Sound(r) && Positive(f) && !r.discontinued && Step(r, f).discontinued
    ensures f.startPosition != r.position && Step(r, f).closed == r.closed && Step(r, f).active.None?
  {
  }

  // ---------------------------------------------------------------- chronology

  /** Closed cycles in order, each closed before the next opens, and none after `latest`. */
  ghost predicate Chronological(r: CoinRun, latest: Option<int>) {
    && (forall k :: 0 <= k < |r.closed| ==>
        r.closed[k].closedAt.Some? && r.closed[k].openedAt <= r.closed[k].closedAt.value)
    && (forall i, j :: 0 <= i < j < |r.closed| ==>
        r.closed[i].closedAt.Some? && r.closed[i].closedAt.value <= r.closed[j].openedAt)
    && (forall k :: 0 <= k < |r.closed| ==>
        r.closed[k].closedAt.Some? && latest.Some? && r.closed[k].closedAt.value <= latest.value)
    && (r.active.Some? ==>
          && r.active.value.closedAt.None? && latest.Some? && r.active.value.openedAt <= latest.value
          && forall k :: 0 <= k < |r.closed| ==>
              r.closed[k].closedAt.Some? && r.closed[k].closedAt.value <= r.active.value.openedAt)
  }

  ghost predicate InTime(fills: seq<Fill>) {
    forall i, j :: 0 <= i < j < |fills| ==> fills[i].time <= fills[j].time
  }

  function Latest(fills: seq<Fill>, n: nat): Option<int>
    requires n <= |fills|
  {
    if n == 0 then None else Some(fills[n - 1].time)
  }

  lemma StepKeepsTime(r: CoinRun, f: Fill, latest: Option<int>)
    requires Sound(r) && Positive(f) && Chronological(r, latest) && (latest.Some? ==> latest.value <= f.time)
    ensures Chronological(Step(r, f), Some(f.time))
  {
    hide Blended, CloseFee;
    var s := Step(r, f);
    if s.closed != r.closed {
      assert s.closed == r.closed + [s.closed[|r.closed|]];
      var c := s.closed[|r.closed|];
      assert c.openedAt == r.active.value.openedAt && c.closedAt == Some(f.time);
    }
  }

  lemma {:induction false} CyclesAreChronological(fills: seq<Fill>, n: nat)
    requires n <= |fills| && (forall k :: 0 <= k < |fills| ==> Positive(fills[k])) && InTime(fills)
    ensures Chronological(RunCoin(fills, n), Latest(fills, n))
  {
    if n > 0 {
      hide Step, Chronological;
      CyclesAreChronological(fills, n - 1);
      StepKeepsTime(RunCoin(fills, n - 1), fills[n - 1], Latest(fills, n - 1));
    }
  }

  /** Of two cycles of a coin, the earlier is closed before the later opens; only the last can be open. */
  lemma OpenIntervalsAreDisjoint(fills: seq<Fill>, n: nat, i: nat, j: nat)
    requires n <= |fills| && (forall k :: 0 <= k < |fills| ==> Positive(fills[k])) && InTime(fills)
    requires i < j < |Cycles(RunCoin(fills, n))|
    ensures var cs := Cycles(RunCoin(fills, n));
      && cs[i].closedAt.Some? && cs[i].openedAt <= cs[i].closedAt.value <= cs[j].openedAt
      && forall item :: !(Covers(cs[i], item) && Covers(cs[j], item))
  {
    CyclesAreChronological(fills, n);
  }
}
