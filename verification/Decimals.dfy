/** The two roundings a position or notional meets. Decimal values are integers counting a fixed
    unit, so significant digits are the digits of the integer. */
module Decimals {

  // decimal.js rounds the result of `add`, `sub` and `mul` to 20 significant digits, half away from
  // zero; constructors, negation, absolute value and `toFixed` do not round. The database columns hold
  // 18 decimals and round half away from zero as well.

  /** The least magnitude that needs more than 20 digits. */
  const LIMIT: nat := 100_000_000_000_000_000_000

  /** The unit of a column of 18 decimals, for values counted at scale 36. */
  const COLUMN: nat := 18

  function Pow10(k: nat): (p: nat)
    ensures p >= 1
  {
    if k == 0 then 1 else 10 * Pow10(k - 1)
  }

  function Abs(n: int): nat {
    if n < 0 then -n else n
  }

  /** How many digits `n` has beyond the precision. */
  function Excess(n: nat): nat {
    if n < LIMIT then 0 else 1 + Excess(n / 10)
  }

  /** `n` to the nearest multiple of `p`, ties upward. */
  function RoundTo(n: nat, p: nat): nat
    requires p >= 1
  {
    (n + p / 2) / p * p
  }

  function Signed(negative: bool, magnitude: nat): int {
    if negative then 0 - magnitude else magnitude
  }

  /** The value of an `add`, `sub` or `mul` whose exact result is `n`. */
  function Round20(n: int): int {
    var a := Abs(n);
    if Excess(a) == 0 then n else Signed(n < 0, RoundTo(a, Pow10(Excess(a))))
  }

  /** `n` needs no more than 20 significant digits. */
  predicate Fits20(n: int) {
    Abs(n) % Pow10(Excess(Abs(n))) == 0
  }

  // ---------------------------------------------------------------- division facts

  lemma MulMonotone(a: nat, b: nat, p: nat)
    ensures a <= b ==> a * p <= b * p
  {
  }

  lemma DivOffset(q: nat, p: nat, r: nat)
    requires p >= 1 && r < p
    ensures (q * p + r) / p == q && (q * p + r) % p == r
  {
    var n := q * p + r;
    var d, e := n / p, n % p;
    assert n == d * p + e;
    MulMonotone(d + 1, q, p);
    MulMonotone(q + 1, d, p);
    assert (d + 1) * p == d * p + p && (q + 1) * p == q * p + p;
  }

  lemma DivBelow(n: nat, p: nat, b: nat)
    requires p >= 1 && n < b * p
    ensures n / p < b
  {
    MulMonotone(b, n / p, p);
  }

  lemma RoundToExact(n: nat, p: nat)
    requires p >= 2
    ensures RoundTo(n, p) % p == 0
    ensures RoundTo(n, p) == n <==> n % p == 0
  {
    var m := (n + p / 2) / p;
    DivOffset(m, p, 0);
    if n % p == 0 {
      RoundMultiple(n, p);
    }
  }

  lemma RoundMultiple(n: nat, p: nat)
    requires p >= 2 && n % p == 0
    ensures RoundTo(n, p) == n
  {
    var q := n / p;
    assert n == q * p;
    DivOffset(q, p, p / 2);
  }

  // ---------------------------------------------------------------- rounding to 20 digits

  /** Rounding is the identity exactly on the values that fit. */
  lemma Round20Exact(n: int)
    ensures Round20(n) == n <==> Fits20(n)
  {
    var k := Excess(Abs(n));
    if k > 0 {
      RoundToExact(Abs(n), Pow10(k));
    }
  }

  lemma {:induction false} Pow10Add(a: nat, b: nat)
    ensures Pow10(a + b) == Pow10(a) * Pow10(b)
  {
    if a > 0 {
      Pow10Add(a - 1, b);
      TenTimes(Pow10(a - 1), Pow10(b));
    }
  }

  lemma TenTimes(x: nat, y: nat)
    ensures 10 * (x * y) == (10 * x) * y
  {
  }

  lemma Associate(m: nat, p: nat, q: nat)
    ensures m * (p * q) == (m * p) * q
  {
  }

  /** A multiple of a power of ten is a multiple of the smaller ones. */
  lemma LowerPower(n: nat, low: nat, high: nat)
    requires low <= high && n % Pow10(high) == 0
    ensures n % Pow10(low) == 0
  {
    Pow10Add(high - low, low);
    MultipleOfFactor(n, Pow10(high - low), Pow10(low));
  }

  lemma MultipleOfFactor(n: nat, p: nat, q: nat)
    requires p >= 1 && q >= 1 && p * q >= 1 && n % (p * q) == 0
    ensures n % q == 0
  {
    var m := n / (p * q);
    assert n == m * (p * q);
    Associate(m, p, q);
    DivOffset(m * p, q, 0);
  }

  /** `Excess` is the least exponent that brings `n` under the precision. */
  lemma {:induction false} ExcessLeast(n: nat, m: nat, k: nat)
    requires n < m * Pow10(k) && m <= LIMIT
    ensures Excess(n) <= k
    decreases k
  {
    if n >= LIMIT && k > 0 {
      TenTimesRight(m, Pow10(k - 1));
      ExcessLeast(n / 10, m, k - 1);
    }
  }

  lemma TenTimesRight(m: nat, p: nat)
    ensures m * (10 * p) == 10 * (m * p)
  {
  }

  lemma {:induction false} ExcessEnough(n: nat)
    ensures n < LIMIT * Pow10(Excess(n))
    decreases n
  {
    if n >= LIMIT {
      ExcessEnough(n / 10);
      TenTimesRight(LIMIT, Pow10(Excess(n / 10)));
    }
  }

  /** `n` is a coefficient of at most 20 digits times a power of ten. */
  ghost predicate Written20(n: int, m: nat, k: nat) {
    m < LIMIT && Abs(n) == m * Pow10(k)
  }

  lemma Fits20Meaning(n: int)
    ensures Fits20(n) <==> exists m: nat, k: nat :: Written20(n, m, k)
  {
    hide Excess, Pow10;
    var a, e := Abs(n), Excess(Abs(n));
    if Fits20(n) {
      ExcessEnough(a);
      DivBelow(a, Pow10(e), LIMIT);
      assert Written20(n, a / Pow10(e), e);
    }
    if m: nat, k: nat :| Written20(n, m, k) {
      MulMonotone(m + 1, LIMIT, Pow10(k));
      assert (m + 1) * Pow10(k) == a + Pow10(k);
      ExcessLeast(a, m + 1, k);
      DivOffset(m, Pow10(k), 0);
      LowerPower(a, e, k);
    }
  }

  // ---------------------------------------------------------------- rounding and order

  lemma ExcessMonotone(a: nat, b: nat)
    requires a <= b
    ensures Excess(a) <= Excess(b)
  {
    ExcessEnough(b);
    ExcessLeast(a, LIMIT, Excess(b));
  }

  /** A magnitude with `k` digits too many is at least the precision times 10^(k-1). */
  lemma {:induction false} ExcessReached(n: nat)
    ensures Excess(n) > 0 ==> LIMIT * Pow10(Excess(n) - 1) <= n
    decreases n
  {
    if n >= LIMIT && Excess(n / 10) > 0 {
      ExcessReached(n / 10);
      TenTimesRight(LIMIT, Pow10(Excess(n / 10) - 1));
    }
  }

  /** How far apart the values of 20 digits lie around a magnitude. */
  function Spacing(n: nat): (p: nat)
    ensures p >= 1
  {
    Pow10(Excess(n))
  }

  /** The greatest value of 20 digits up to a magnitude. */
  function Floor20(n: nat): nat {
    FloorTo(n, Spacing(n))
  }

  function FloorTo(n: nat, p: nat): nat
    requires p >= 1
  {
    n / p * p
  }

  lemma FloorBounds(n: nat)
    ensures Floor20(n) <= n < Floor20(n) + Spacing(n)
    ensures n / Spacing(n) < LIMIT
  {
    ExcessEnough(n);
    DivBelow(n, Spacing(n), LIMIT);
  }

  lemma QuotientFits(q: nat, k: nat)
    requires q <= LIMIT
    ensures Fits20(q * Pow10(k))
  {
    hide Excess, Fits20;
    var n := q * Pow10(k);
    if q < LIMIT {
      assert Written20(n, q, k);
    } else {
      TenTimesRight(LIMIT / 10, Pow10(k));
      assert LIMIT == 10 * (LIMIT / 10);
      TenTimes(LIMIT / 10, Pow10(k));
      assert Written20(n, LIMIT / 10, k + 1);
    }
    Fits20Meaning(n);
  }

  /** Both neighbours of a magnitude fit. */
  lemma NeighboursFit(n: nat)
    ensures Fits20(Floor20(n)) && Fits20(Floor20(n) + Spacing(n))
  {
    hide Fits20;
    var p := Spacing(n);
    FloorBounds(n);
    QuotientFits(n / p, Excess(n));
    QuotientFits(n / p + 1, Excess(n));
    assert (n / p + 1) * p == n / p * p + p;
  }

  lemma RoundToBelow(n: nat, p: nat, q: nat)
    requires p >= 2 && n <= q * p
    ensures RoundTo(n, p) <= q * p
  {
    DivOffset(q, p, p / 2);
    DivMonotone(n + p / 2, q * p + p / 2, p);
    MulMonotone((n + p / 2) / p, q, p);
  }

  lemma RoundToAbove(n: nat, p: nat, q: nat)
    requires p >= 2 && q * p <= n
    ensures q * p <= RoundTo(n, p)
  {
    DivOffset(q, p, 0);
    DivMonotone(q * p, n + p / 2, p);
    MulMonotone(q, (n + p / 2) / p, p);
  }

  lemma DivMonotone(a: nat, b: nat, p: nat)
    requires p >= 1 && a <= b
    ensures a / p <= b / p
  {
    DivBelow(a, p, b / p + 1);
  }

  /** Rounding a magnitude does not cross a value that fits. */
  lemma MagnitudeStaysBelow(n: nat, m: nat)
    requires Fits20(m) && n <= m
    ensures Abs(Round20(n)) <= m
  {
    hide RoundTo, Excess, Pow10;
    var k := Excess(n);
    ExcessMonotone(n, m);
    LowerPower(m, k, Excess(m));
    if k > 0 {
      PowerEven(k);
      RoundToBelow(n, Pow10(k), m / Pow10(k));
    }
  }

  lemma PowerEven(k: nat)
    requires k > 0
    ensures Pow10(k) == 2 * (5 * Pow10(k - 1)) && Pow10(k) >= 2
  {
  }

  lemma MagnitudeStaysAbove(n: nat, m: nat)
    requires Fits20(m) && m <= n
    ensures m <= Abs(Round20(n))
  {
    hide RoundTo, Fits20, Excess, Pow10;
    var k := Excess(n);
    FloorOfLarger(n, m);
    if k > 0 {
      PowerEven(k);
      RoundToAbove(n, Pow10(k), n / Pow10(k));
    }
  }

  lemma FloorOfLarger(n: nat, m: nat)
    requires Fits20(m) && m <= n
    ensures m <= Floor20(n)
  {
    hide Pow10, Excess;
    var j, k := Excess(m), Excess(n);
    ExcessMonotone(m, n);
    if j == k {
      DivMonotone(m, n, Pow10(k));
      MulMonotone(m / Pow10(k), n / Pow10(k), Pow10(k));
    } else {
      FloorReached(n);
      ExcessEnough(m);
      PowerMonotone(j, k - 1);
    }
  }

  /** A magnitude with `k` digits too many has at least the precision times 10^(k-1) below it. */
  lemma FloorReached(n: nat)
    requires Excess(n) > 0
    ensures LIMIT * Pow10(Excess(n) - 1) <= Floor20(n)
  {
    hide Excess;
    var k := Excess(n);
    ExcessReached(n);
    TenTimesRight(LIMIT / 10, Pow10(k - 1));
    QuotientReaches(n, Pow10(k), LIMIT / 10);
  }

  lemma QuotientReaches(n: nat, p: nat, q: nat)
    requires p >= 1 && q * p <= n
    ensures q * p <= n / p * p
  {
    DivOffset(q, p, 0);
    DivMonotone(q * p, n, p);
    MulMonotone(q, n / p, p);
  }

  lemma {:induction false} PowerMonotone(j: nat, k: nat)
    requires j <= k
    ensures Pow10(j) <= Pow10(k) && LIMIT * Pow10(j) <= LIMIT * Pow10(k)
    decreases k
  {
    if j < k { PowerMonotone(j, k - 1); }
  }

  lemma RoundSymmetric(n: int)
    ensures Round20(-n) == -Round20(n)
    ensures n >= 0 ==> Round20(n) >= 0
  {
  }

  /** Rounding does not carry a value across one that fits. */
  lemma RoundKeepsSide(n: int, m: int)
    requires Fits20(m)
    ensures n <= m ==> Round20(n) <= m
    ensures m <= n ==> m <= Round20(n)
  {
    hide Fits20, Round20;
    RoundSymmetric(n);
    RoundSymmetric(-n);
    if (n >= 0) == (m >= 0) {
      FitsAbs(m);
      if Abs(n) <= Abs(m) { MagnitudeStaysBelow(Abs(n), Abs(m)); }
      if Abs(m) <= Abs(n) { MagnitudeStaysAbove(Abs(n), Abs(m)); }
    }
  }

  lemma FitsAbs(m: int)
    ensures Fits20(Abs(m)) <==> Fits20(m)
  {
  }

  /** A recorded value fits. */
  lemma RoundedFits(n: int)
    ensures Fits20(Round20(n))
  {
    var a := Abs(n);
    var k := Excess(a);
    if k > 0 {
      ExcessEnough(a);
      RoundToBelow(a, Pow10(k), LIMIT);
      var q := (a + Pow10(k) / 2) / Pow10(k);
      if q > LIMIT { MulMonotone(LIMIT + 1, q, Pow10(k)); TenTimesRight(LIMIT, Pow10(k)); }
      QuotientFits(q, k);
      FitsAbs(Round20(n));
    }
  }

  /** Between the neighbours of a magnitude the middle decides. */
  lemma RoundBetween(s: nat, x: nat)
    requires Floor20(s) <= x < Floor20(s) + Spacing(s)
    ensures Round20(x) == if 2 * (x - Floor20(s)) >= Spacing(s) then Floor20(s) + Spacing(s) else Floor20(s)
  {
    var k, p, q := Excess(s), Spacing(s), s / Spacing(s);
    FloorBounds(s);
    SameExcess(s, x);
    if k > 0 {
      var r := x - q * p;
      if 2 * r >= p {
        DivOffset(q + 1, p, r + p / 2 - p);
        assert (q + 1) * p == q * p + p;
      } else {
        DivOffset(q, p, r + p / 2);
      }
    }
  }

  lemma SameExcess(s: nat, x: nat)
    requires Floor20(s) <= x < Floor20(s) + Spacing(s)
    ensures Excess(x) == Excess(s)
  {
    hide Pow10, Excess;
    var k, q := Excess(s), s / Spacing(s);
    FloorBounds(s);
    NextQuotient(q, Pow10(k));
    ExcessLeast(x, LIMIT, k);
    if Excess(x) < k {
      FloorReached(s);
      ExcessEnough(x);
      PowerMonotone(Excess(x), k - 1);
    }
  }

  lemma NextQuotient(q: nat, p: nat)
    requires q < LIMIT
    ensures q * p + p <= LIMIT * p
  {
    MulMonotone(q + 1, LIMIT, p);
  }

  /** A value is recorded above a magnitude exactly when it reaches the middle of its neighbours. */
  lemma RoundsAbove(s: nat, x: int)
    ensures Round20(x) > s <==> 2 * (x - Floor20(s)) >= Spacing(s)
  {
    hide Round20, Fits20, Floor20, Spacing;
    FloorBounds(s);
    NeighboursFit(s);
    RoundKeepsSide(x, Floor20(s));
    RoundKeepsSide(x, Floor20(s) + Spacing(s));
    if Floor20(s) <= x < Floor20(s) + Spacing(s) { RoundBetween(s, x); }
  }

  // ---------------------------------------------------------------- persisted notionals

  /** A value as a column that keeps multiples of 10^scale stores it. */
  function Persisted(n: int, scale: nat): int {
    Signed(n < 0, RoundTo(Abs(n), Pow10(scale)))
  }

  /** A product comes back unchanged from the 20-digit multiplication and the column exactly when
      it fits both. */
  lemma NotionalSurvives(n: int, scale: nat)
    requires scale >= 1
    ensures Persisted(Round20(n), scale) == n <==> Fits20(n) && Abs(n) % Pow10(scale) == 0
  {
    var a, k, y := Abs(n), Excess(Abs(n)), Abs(Round20(n));
    RoundToExact(y, Pow10(scale));
    Round20Exact(n);
    if k > 0 {
      RoundToExact(a, Pow10(k));
      if k <= scale {
        if a % Pow10(scale) == 0 { LowerPower(a, k, scale); }
      } else {
        LowerPower(y, scale, k);
      }
    }
  }
}
