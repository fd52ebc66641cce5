/** Margin arithmetic in micro-units. Products are divided by one million and truncated toward
    zero, so every claim here is about rounding as well as about money. The first half states the
    arithmetic exactly; the functions whose names end in 64 are what the program computes, with
    every intermediate held in 64 bits, and the last section says exactly when the two agree. */
module Margins {
  import opened Integers
  const ONE := 1_000_000
  const INITIAL_MARGIN_RATE := 250_000
  const MAINTENANCE_MARGIN_RATE := 150_000
  const LIQUIDATION_PENALTY := 20_000

  datatype Side = Long | Short

  // Division by one million as the source's integers do it: toward zero.
  function Truncated(x: int): int
  {
    if x >= 0 then x / ONE else -(-x / ONE)
  }

  function Mul(a: int, b: int): int
  {
    Truncated(a * b)
  }

  // The distance the price can still move against the position.
  function Adverse(side: Side, price: int): int
  {
    if side.Long? then price else ONE - price
  }

  // What the position can lose if the market resolves against it.
  function WorstCase(side: Side, size: int, price: int): int
  {
    if side.Long? then Mul(size, price) else Mul(size, ONE - price)
  }

  function Pnl(side: Side, size: int, entry: int, mark: int): int
  {
    if side.Long? then Mul(size, mark - entry) else Mul(size, entry - mark)
  }

  function RequiredMargin(side: Side, size: int, mark: int): int
  {
    Mul(WorstCase(side, size, mark), MAINTENANCE_MARGIN_RATE)
  }

  function InitialMargin(side: Side, size: int, mark: int): int
  {
    Mul(WorstCase(side, size, mark), INITIAL_MARGIN_RATE)
  }

  function Equity(side: Side, size: int, entry: int, collateral: int, mark: int): int
  {
    collateral + Pnl(side, size, entry, mark)
  }

  predicate AtRisk(side: Side, size: int, entry: int, collateral: int, mark: int)
  {
    Equity(side, size, entry, collateral, mark) < RequiredMargin(side, size, mark)
  }

  function Penalty(collateral: int, liquidated: bool): int
  {
    if liquidated then Mul(collateral, LIQUIDATION_PENALTY) else 0
  }

  // What the user gets back: losses are capped at the posted collateral.
  function Payout(side: Side, size: int, entry: int, collateral: int, mark: int, penalty: int): int
  {
    var payout := collateral + Pnl(side, size, entry, mark) - penalty;
    if payout < 0 then 0 else payout
  }

  predicate IsPrice(p: int)
  {
    0 <= p <= ONE
  }

  function Opposite(side: Side): Side
  {
    if side.Long? then Short else Long
  }

  /* ----- truncation ----- */

  lemma TruncatedBounds(x: int)
    ensures x >= 0 ==> 0 <= x - ONE * Truncated(x) < ONE
    ensures x <= 0 ==> 0 <= ONE * Truncated(x) - x < ONE
    ensures Truncated(-x) == -Truncated(x)
  {
  }

  lemma TruncatedMonotone(x: int, y: int)
    requires x <= y
    ensures Truncated(x) <= Truncated(y)
  {
    TruncatedBounds(x);
    TruncatedBounds(y);
  }

  lemma Product(size: int, p: int, q: int)
    requires size >= 0 && p <= q
    ensures size * p <= size * q && size * (q - p) == size * q - size * p
  {
    var d := q - p;
    assert size * d >= 0;
    assert size * (p + d) == size * p + size * d;
  }

  /* ----- profit and loss ----- */

  // A position never loses more than its worst case at entry, and never gains more than the worst
  // case of the side it trades against.
  lemma PnlIsBounded(side: Side, size: int, entry: int, mark: int)
    requires size >= 0 && IsPrice(entry) && IsPrice(mark)
    ensures -WorstCase(side, size, entry) <= Pnl(side, size, entry, mark) <= WorstCase(Opposite(side), size, entry)
  {
    var lose, gain := Adverse(side, entry), Adverse(Opposite(side), entry);
    var move := if side.Long? then mark - entry else entry - mark;
    Product(size, -lose, move);
    Product(size, move, gain);
    assert size * -lose == -(size * lose);
    TruncatedMonotone(-(size * lose), size * move);
    TruncatedMonotone(size * move, size * gain);
    TruncatedBounds(size * lose);
  }

  // The two sides of one trade cancel to the last micro-unit.
  lemma SidesCancel(size: int, entry: int, mark: int)
    ensures Pnl(Long, size, entry, mark) + Pnl(Short, size, entry, mark) == 0
  {
    assert size * (entry - mark) == -(size * (mark - entry));
    TruncatedBounds(size * (mark - entry));
  }

  // The worst cases of the two sides add up to the whole notional, less one micro-unit exactly
  // when the price does not divide it.
  lemma WorstCasesSplitTheNotional(size: int, price: int)
    requires size >= 0 && IsPrice(price)
    ensures WorstCase(Long, size, price) + WorstCase(Short, size, price)
            == if size * price % ONE == 0 then size else size - 1
  {
    var x := size * price;
    var y := size * (ONE - price);
    Product(size, 0, price);
    Product(size, price, ONE);
    assert x + y == size * ONE;
    TruncatedBounds(x);
    TruncatedBounds(y);
  }

  /* ----- margin ----- */

  lemma MulMonotone(a: int, p: int, q: int)
    requires a >= 0 && p <= q
    ensures Mul(a, p) <= Mul(a, q)
  {
    Product(a, p, q);
    TruncatedMonotone(a * p, a * q);
  }

  lemma WorstCaseRange(side: Side, size: int, price: int)
    requires size >= 0 && IsPrice(price)
    ensures 0 <= WorstCase(side, size, price) <= size
  {
    var p := Adverse(side, price);
    MulMonotone(size, 0, p);
    MulMonotone(size, p, ONE);
    TruncatedBounds(size * ONE);
  }

  // A fresh position is never liquidated at the price it was opened at.
  lemma FreshPositionIsSafe(side: Side, size: int, entry: int)
    requires size >= 0 && IsPrice(entry)
    ensures !AtRisk(side, size, entry, InitialMargin(side, size, entry), entry)
  {
    WorstCaseRange(side, size, entry);
    MulMonotone(WorstCase(side, size, entry), MAINTENANCE_MARGIN_RATE, INITIAL_MARGIN_RATE);
    assert size * (entry - entry) == 0;
  }

  // On a close or a settlement the insurance fund pays at most what the other side can lose.
  lemma InsuranceOutlayIsBounded(side: Side, size: int, entry: int, collateral: int, mark: int, liquidated: bool)
    requires size >= 0 && IsPrice(entry) && IsPrice(mark) && collateral >= 0
    ensures var payout := Payout(side, size, entry, collateral, mark, Penalty(collateral, liquidated));
      payout >= 0 && payout - collateral <= WorstCase(Opposite(side), size, entry)
  {
    PnlIsBounded(side, size, entry, mark);
    WorstCaseRange(Opposite(side), size, entry);
    MulMonotone(collateral, 0, LIQUIDATION_PENALTY);
  }

  lemma TruncatedDifference(x: int, y: int)
    requires x <= y
    ensures Truncated(y) - Truncated(x) >= Truncated(y - x) - 1
    ensures Truncated(y) - Truncated(x) >= 0
    ensures 0 <= x ==> Truncated(y) - Truncated(x) <= Truncated(y - x) + 1
  {
    TruncatedBounds(x);
    TruncatedBounds(y);
    TruncatedBounds(y - x);
  }

  // 15% of a difference of d units, rounded, is at most one unit up to a difference of six, and at
  // most d - 1 units beyond: enough room for the rounding of the equity on the other side.
  lemma MaintenanceDifference(a: int, b: int)
    requires 0 <= a <= b
    ensures Mul(b, MAINTENANCE_MARGIN_RATE) - Mul(a, MAINTENANCE_MARGIN_RATE) <= (if b - a <= 6 then 1 else b - a - 1)
    ensures b == a ==> Mul(b, MAINTENANCE_MARGIN_RATE) == Mul(a, MAINTENANCE_MARGIN_RATE)
  {
    TruncatedBounds(a * MAINTENANCE_MARGIN_RATE);
    TruncatedBounds(b * MAINTENANCE_MARGIN_RATE);
  }

  lemma MarginBufferCore(equityBefore: int, equityAfter: int, worstBefore: int, worstAfter: int)
    requires 0 <= worstBefore && 0 <= worstAfter
    requires equityAfter >= equityBefore
    requires worstAfter - worstBefore <= (equityAfter - equityBefore) + 2
    ensures Mul(worstAfter, MAINTENANCE_MARGIN_RATE) - Mul(worstBefore, MAINTENANCE_MARGIN_RATE)
            <= equityAfter - equityBefore + 1
  {
    if worstBefore <= worstAfter {
      MaintenanceDifference(worstBefore, worstAfter);
    } else {
      TruncatedMonotone(worstAfter * MAINTENANCE_MARGIN_RATE, worstBefore * MAINTENANCE_MARGIN_RATE);
    }
  }

  // As the mark moves in the position's favour, the cushion above maintenance margin shrinks by at
  // most the one micro-unit that rounding can cost.
  lemma CushionGrowsWithTheMark(side: Side, size: int, entry: int, collateral: int, mark: int, better: int)
    requires size >= 0 && IsPrice(entry) && IsPrice(mark) && IsPrice(better)
    requires if side.Long? then mark <= better else better <= mark
    ensures Equity(side, size, entry, collateral, better) - RequiredMargin(side, size, better)
            >= Equity(side, size, entry, collateral, mark) - RequiredMargin(side, size, mark) - 1
  {
    var p, q, e := Adverse(side, mark), Adverse(side, better), Adverse(side, entry);
    assert p <= q;
    Product(size, p, q);
    var x, y := size * (p - e), size * (q - e);
    assert x == size * p - size * e && y == size * q - size * e;
    TruncatedDifference(x, y);
    Product(size, 0, p);
    TruncatedDifference(size * p, size * q);
    WorstCaseRange(side, size, mark);
    WorstCaseRange(side, size, better);
    assert Pnl(side, size, entry, mark) == Truncated(x) && Pnl(side, size, entry, better) == Truncated(y);
    MarginBufferCore(Truncated(x), Truncated(y), Truncated(size * p), Truncated(size * q));
  }

  // That micro-unit is real: a long of ten micro-shares entered at 0.65 crosses a rounding step of
  // its required margin between 0.699999 and 0.7 while its profit stays at zero.
  lemma CushionCanShrinkByOne()
    ensures var cushion := (mark: int) => Equity(Long, 10, 650_000, 1, mark) - RequiredMargin(Long, 10, mark);
      cushion(700_000) == cushion(699_999) - 1
  {
    assert 10 * 699_999 / ONE == 6 && 10 * 700_000 / ONE == 7;
    assert 10 * (699_999 - 650_000) / ONE == 0 && 10 * (700_000 - 650_000) / ONE == 0;
  }

  /* ----- 64-bit safety ----- */

  // The largest position whose every intermediate value fits.
  const LARGEST_SAFE_SIZE := MAX_INT64 / ONE

  function Mul64(a: int64, b: int64): (product: int64)
    ensures -LARGEST_SAFE_SIZE <= product <= LARGEST_SAFE_SIZE
  {
    Truncated(Wrapped(a * b))
  }

  function WorstCase64(side: Side, size: int64, price: int64): (worst: int64)
    ensures -LARGEST_SAFE_SIZE <= worst <= LARGEST_SAFE_SIZE
  {
    if side.Long? then Mul64(size, price) else Mul64(size, Wrapped(ONE - price))
  }

  function Pnl64(side: Side, size: int64, entry: int64, mark: int64): (profit: int64)
    ensures -LARGEST_SAFE_SIZE <= profit <= LARGEST_SAFE_SIZE
  {
    if side.Long? then Mul64(size, Wrapped(mark - entry)) else Mul64(size, Wrapped(entry - mark))
  }

  function RequiredMargin64(side: Side, size: int64, mark: int64): int64
  {
    Mul64(WorstCase64(side, size, mark), MAINTENANCE_MARGIN_RATE)
  }

  function InitialMargin64(side: Side, size: int64, mark: int64): (collateral: int64)
    ensures collateral <= LARGEST_SAFE_SIZE
  {
    Mul64(WorstCase64(side, size, mark), INITIAL_MARGIN_RATE)
  }

  predicate AtRisk64(side: Side, size: int64, entry: int64, collateral: int64, mark: int64)
  {
    Wrapped(collateral + Pnl64(side, size, entry, mark)) < RequiredMargin64(side, size, mark)
  }

  function Penalty64(collateral: int64, liquidated: bool): int64
  {
    if liquidated then Mul64(collateral, LIQUIDATION_PENALTY) else 0
  }

  function Payout64(side: Side, size: int64, entry: int64, collateral: int64, mark: int64,
      penalty: int64): (payout: int64)
    ensures payout >= 0
  {
    var payout := Wrapped(Wrapped(collateral + Pnl64(side, size, entry, mark)) - penalty);
    if payout < 0 then 0 else payout
  }

  // The program computes what the exact arithmetic says: for the collateral a position of this size
  // is opened with, at every later mark, whether it is liquidated or not.
  ghost predicate ComputesExactly(side: Side, size: int64, entry: int64, mark: int64)
  {
    var collateral := InitialMargin(side, size, entry);
    && InitialMargin64(side, size, entry) == collateral && FitsInt64(collateral)
    && WorstCase64(side, size, entry) == WorstCase(side, size, entry)
    && Pnl64(side, size, entry, mark) == Pnl(side, size, entry, mark)
    && RequiredMargin64(side, size, mark) == RequiredMargin(side, size, mark)
    && (AtRisk64(side, size, entry, collateral, mark) <==> AtRisk(side, size, entry, collateral, mark))
    && forall liquidated ::
        Payout64(side, size, entry, collateral, mark, Penalty64(collateral, liquidated)) ==
        Payout(side, size, entry, collateral, mark, Penalty(collateral, liquidated))
  }

  // Every intermediate value of opening, marking, closing and settling a position.
  ghost predicate NothingOverflows(side: Side, size: int, entry: int, mark: int)
  {
    var wc := WorstCase(side, size, entry);
    var collateral := InitialMargin(side, size, entry);
    && FitsInt64(size * Adverse(side, entry))
    && FitsInt64(size * Adverse(side, mark))
    && FitsInt64(size * (mark - entry))
    && FitsInt64(wc * INITIAL_MARGIN_RATE)
    && FitsInt64(WorstCase(side, size, mark) * MAINTENANCE_MARGIN_RATE)
    && FitsInt64(collateral * LIQUIDATION_PENALTY)
    && FitsInt64(collateral + Pnl(side, size, entry, mark))
    && FitsInt64(collateral + Pnl(side, size, entry, mark) - Penalty(collateral, true))
  }

  lemma ScaledFits(x: int, rate: int, size: int)
    requires -size <= x <= size && 0 <= rate <= ONE && 0 <= size && size * ONE <= MAX_INT64
    ensures FitsInt64(x * rate) && -size <= Mul(x, rate) <= size
  {
    Product(rate, -size, x);
    Product(rate, x, size);
    Product(size, rate, ONE);
    assert rate * -size == -(size * rate);
    TruncatedBounds(x * rate);
  }

  // The largest safe size is exact: up to it the program computes the exact numbers at every price
  // and no intermediate overflows, and above it the first multiplication of opening a position
  // already goes wrong at the price of one.
  lemma LargestSafeSize(size: int64)
    requires size >= 0
    ensures (forall side, entry, mark | IsPrice(entry) && IsPrice(mark) :: ComputesExactly(side, size, entry, mark))
            <==> size <= LARGEST_SAFE_SIZE
    ensures (forall side, entry, mark | IsPrice(entry) && IsPrice(mark) :: NothingOverflows(side, size, entry, mark))
            <==> size <= LARGEST_SAFE_SIZE
  {
    if size <= LARGEST_SAFE_SIZE {
      forall side, entry, mark | IsPrice(entry) && IsPrice(mark)
        ensures NothingOverflows(side, size, entry, mark) && ComputesExactly(side, size, entry, mark)
      {
        SafeSize(side, size, entry, mark);
        ExactBelowTheLimit(side, size, entry, mark);
      }
    } else {
      assert IsPrice(ONE) && !FitsInt64(size * Adverse(Long, ONE));
      assert !NothingOverflows(Long, size, ONE, ONE);
      TruncatedBounds(size * ONE);
      assert WorstCase(Long, size, ONE) == size;
      assert !ComputesExactly(Long, size, ONE, ONE);
    }
  }

  lemma ExactBelowTheLimit(side: Side, size: int64, entry: int64, mark: int64)
    requires 0 <= size <= LARGEST_SAFE_SIZE && IsPrice(entry) && IsPrice(mark)
    ensures ComputesExactly(side, size, entry, mark)
  {
    SafeSize(side, size, entry, mark);
    WorstCaseRange(side, size, entry);
    WorstCaseRange(side, size, mark);
    MulRange(WorstCase(side, size, entry), INITIAL_MARGIN_RATE);
    SameProfit(side, size, entry, mark);
    SamePayout(side, size, entry, mark);
    hide Wrapped, Truncated, Payout64, Payout;
  }

  lemma SamePayout(side: Side, size: int64, entry: int64, mark: int64)
    requires 0 <= size <= LARGEST_SAFE_SIZE && IsPrice(entry) && IsPrice(mark) &&
        FitsInt64(InitialMargin(side, size, entry))
    ensures var collateral := InitialMargin(side, size, entry);
      forall liquidated ::
        Payout64(side, size, entry, collateral, mark, Penalty64(collateral, liquidated)) ==
        Payout(side, size, entry, collateral, mark, Penalty(collateral, liquidated))
  {
    SafeSize(side, size, entry, mark);
    SameProfit(side, size, entry, mark);
    hide Wrapped, Truncated, Pnl, Pnl64, InitialMargin;
  }

  lemma SameProfit(side: Side, size: int64, entry: int64, mark: int64)
    requires 0 <= size <= LARGEST_SAFE_SIZE && IsPrice(entry) && IsPrice(mark)
    ensures Pnl64(side, size, entry, mark) == Pnl(side, size, entry, mark)
  {
    MoveFits(size, mark - entry);
    MoveFits(size, entry - mark);
    hide Wrapped, Truncated;
  }

  lemma MulRange(x: int, rate: int)
    requires 0 <= x && 0 <= rate <= ONE
    ensures 0 <= Mul(x, rate) <= x
  {
    MulMonotone(x, 0, rate);
    MulMonotone(x, rate, ONE);
    TruncatedBounds(x * ONE);
  }

  // Whatever its size, a position the program opens is not at risk at the price it was opened at:
  // only the first of the two multiplications can wrap, and it is the same on both sides.
  lemma OpenedPositionIsSafe(side: Side, size: int64, entry: int64)
    requires InitialMargin64(side, size, entry) > 0
    ensures !AtRisk64(side, size, entry, InitialMargin64(side, size, entry), entry)
  {
    var worst := WorstCase64(side, size, entry);
    assert FitsInt64(worst * INITIAL_MARGIN_RATE) && FitsInt64(worst * MAINTENANCE_MARGIN_RATE);
    assert Pnl64(side, size, entry, entry) == 0 by {
      assert size * 0 == 0;
    }
    hide WorstCase64, Pnl64, Wrapped;
    TruncatedMonotone(worst * MAINTENANCE_MARGIN_RATE, worst * INITIAL_MARGIN_RATE);
  }

  lemma MoveFits(size: int, move: int)
    requires 0 <= size <= LARGEST_SAFE_SIZE && -ONE <= move <= ONE
    ensures FitsInt64(size * move)
  {
    if move >= 0 {
      ScaledFits(size, move, size);
    } else {
      ScaledFits(-size, -move, size);
      assert size * move == -size * -move;
    }
  }

  lemma SafeSize(side: Side, size: int, entry: int, mark: int)
    requires 0 <= size <= LARGEST_SAFE_SIZE && IsPrice(entry) && IsPrice(mark)
    ensures NothingOverflows(side, size, entry, mark)
  {
    MoveFits(size, Adverse(side, entry));
    MoveFits(size, Adverse(side, mark));
    MoveFits(size, mark - entry);
    WorstCaseRange(side, size, entry);
    WorstCaseRange(side, size, mark);
    WorstCaseRange(Opposite(side), size, entry);
    PnlIsBounded(side, size, entry, mark);
    hide Mul, WorstCase, Pnl, Adverse;
    ScaledFits(WorstCase(side, size, entry), INITIAL_MARGIN_RATE, size);
    ScaledFits(WorstCase(side, size, mark), MAINTENANCE_MARGIN_RATE, size);
    ScaledFits(InitialMargin(side, size, entry), LIQUIDATION_PENALTY, size);
  }
}
