/** What a position costs and what it pays, in plain quotients: a quarter of what it can lose to open
    it, its collateral with the gain or without the loss when it is closed, and two percent less when
    it is liquidated. Every position here is small enough for the program's products to fit. */
module Payouts {
  import opened Integers
  import opened Sums
  import opened GoVault
  import opened Accounts
  import opened Ledger
  import opened Margins
  import opened Store
  import opened StoreInvariants
  import opened Prices

  /* ----- quotients ----- */

  // How far the price has moved in the position's favour.
  function Swing(p: Position, price: int): int
  {
    if p.side.Long? then price - p.entry else p.entry - price
  }

  function Gained(p: Position, price: int): int
  {
    if Swing(p, price) > 0 then p.size * Swing(p, price) / 1_000_000 else 0
  }

  function Lost(p: Position, price: int): int
  {
    if Swing(p, price) < 0 then p.size * -Swing(p, price) / 1_000_000 else 0
  }

  // Two percent of the collateral.
  function Cut(p: Position, liquidated: bool): int
  {
    if liquidated then p.collateral / 50 else 0
  }

  // What is left for the user, who never pays in.
  function Due(p: Position, price: int, liquidated: bool): (due: int)
    ensures due >= 0
  {
    var left := p.collateral + Gained(p, price) - Lost(p, price) - Cut(p, liquidated);
    if left < 0 then 0 else left
  }

  predicate Safe(p: Position)
  {
    PricedPosition(p) && p.size <= LARGEST_SAFE_SIZE
  }

  lemma ProfitIsGainOrLoss(p: Position, price: int64)
    requires Safe(p) && IsPrice(price)
    ensures Pnl64(p.side, p.size, p.entry, price) == Gained(p, price) - Lost(p, price)
    ensures 0 <= Gained(p, price) <= p.size && 0 <= Lost(p, price) <= p.size
  {
    SameProfit(p.side, p.size, p.entry, price);
    var swing := Swing(p, price);
    ProductParts(p.size, swing);
    hide Pnl64, InitialMargin64;
  }

  lemma ProductParts(size: int, swing: int)
    requires size > 0 && -ONE <= swing <= ONE
    ensures swing > 0 ==> 0 <= size * swing / 1_000_000 <= size && Mul(size, swing) == size * swing / 1_000_000
    ensures swing < 0 ==> 0 <= size * -swing / 1_000_000 <= size && Mul(size, swing) == -(size * -swing / 1_000_000)
    ensures swing == 0 ==> Mul(size, swing) == 0
  {
    var distance := if swing < 0 then -swing else swing;
    Product(size, 0, distance);
    Product(size, distance, ONE);
    assert size * -swing == -(size * swing);
  }

  lemma PenaltyIsCut(p: Position, liquidated: bool)
    requires PricedPosition(p)
    ensures Penalty64(p.collateral, liquidated) == Cut(p, liquidated) && 0 <= Cut(p, liquidated) <= p.collateral
  {
    assert p.collateral <= LARGEST_SAFE_SIZE;
    hide InitialMargin64;
    assert FitsInt64(p.collateral * LIQUIDATION_PENALTY);
    assert p.collateral * LIQUIDATION_PENALTY / ONE == p.collateral / 50;
  }

  // Rounded down, capped at nothing, and the loss and the penalty both taken from the user.
  lemma PayoutIsDue(p: Position, price: int64, liquidated: bool)
    requires Safe(p) && IsPrice(price)
    ensures ClosePayout(p, price, liquidated) == Due(p, price, liquidated)
    ensures SettlePayout(p, price) == Due(p, price, false)
  {
    ProfitIsGainOrLoss(p, price);
    PenaltyIsCut(p, liquidated);
    assert p.collateral <= LARGEST_SAFE_SIZE;
    hide Gained, Lost, Cut, Pnl64, Penalty64, InitialMargin64;
  }

  // Opening takes a quarter of what the position can lose, and the position is at risk once what is
  // left of it is less than fifteen percent of what it could still lose.
  lemma OpeningTakesAQuarter(side: Side, size: int64, price: int64, entry: int64)
    requires 0 < size <= LARGEST_SAFE_SIZE && IsPrice(price) && IsPrice(entry)
    ensures var atStake := size * (if side.Long? then price else 1_000_000 - price) / 1_000_000;
      && InitialMargin64(side, size, price) == atStake / 4
      && forall p: Position | Safe(p) && p.side == side && p.size == size && p.entry == entry ::
          AtRisk64(side, size, entry, p.collateral, price) <==>
          p.collateral + Gained(p, price) - Lost(p, price) < atStake * 3 / 20
  {
    var distance := if side.Long? then price else 1_000_000 - price;
    ProductParts(size, distance);
    ExactBelowTheLimit(side, size, price, price);
    ExactBelowTheLimit(side, size, entry, price);
    var atStake := size * distance / 1_000_000;
    assert WorstCase(side, size, price) == atStake >= 0;
    assert atStake * INITIAL_MARGIN_RATE / ONE == atStake / 4;
    assert atStake * MAINTENANCE_MARGIN_RATE / ONE == atStake * 3 / 20;
    hide WorstCase, Mul64, Gained, Lost;
    forall p: Position | Safe(p) && p.side == side && p.size == size && p.entry == entry
      ensures AtRisk64(side, size, entry, p.collateral, price) <==>
              p.collateral + Gained(p, price) - Lost(p, price) < atStake * 3 / 20
    {
      ProfitIsGainOrLoss(p, price);
      assert p.collateral <= LARGEST_SAFE_SIZE;
    }
  }

  /* ----- one close ----- */

  ghost function Change(db: Db, db': Db, a: Account): int
  {
    BalanceOf(db'.book, a) - BalanceOf(db.book, a)
  }

  // A close takes the collateral out of the margin account, gives the user what is due and the
  // insurance fund the rest, and touches nobody else.
  lemma ClosePays(db: Db, id: nat, mark: int64, liquidation: bool)
    requires DbInv(db) && id in db.positions && Safe(db.positions[id]) && IsPrice(mark)
    requires ClosePosition(db, id, mark, liquidation).1 == Done
    ensures var p, db' := db.positions[id], ClosePosition(db, id, mark, liquidation).0;
      && p.state == OpenPos
      && db'.positions == db.positions[id := p.(state := if liquidation then LiquidatedPos else ClosedPos)]
      && Change(db, db', Available(p.user)) == Due(p, mark, liquidation)
      && Change(db, db', Margin(p.user)) == -p.collateral
      && Change(db, db', Insurance) == p.collateral - Due(p, mark, liquidation)
      && forall a | a != Available(p.user) && a != Margin(p.user) && a != Insurance :: Change(db, db', a) == 0
  {
    var p := db.positions[id];
    PayoutIsDue(p, mark, liquidation);
    CloseIs(db, id, mark, liquidation);
    hide DbInv, ClosePosition, ClosePayout, Due, BalanceOf, PricedPosition;
  }

  lemma CloseIs(db: Db, id: nat, mark: int64, liquidation: bool)
    requires DbInv(db) && id in db.positions && ClosePosition(db, id, mark, liquidation).1 == Done
    ensures var p, db' := db.positions[id], ClosePosition(db, id, mark, liquidation).0;
      && p.state == OpenPos
      && db' == db.(book := db'.book, positions :=
          db.positions[id := p.(state := if liquidation then LiquidatedPos else ClosedPos)])
      && DbInv(db')
      && forall a :: BalanceOf(db'.book, a) ==
          BalanceOf(db.book, a) + CloseShift(p, ClosePayout(p, mark, liquidation), a)
  {
    if db.positions[id].state == OpenPos {
      CloseAsKeeps(db, id, CloseKey(id), ClosePayout(db.positions[id], mark, liquidation), if liquidation
          then LiquidatedPos else ClosedPos);
    }
    hide CloseAs, Payout64, Penalty64, CloseFits, DbInv, BalanceOf;
  }

  // A liquidation pays two percent of the collateral less than a close at the same mark, as far as
  // there is that much left, and the insurance fund has the difference.
  lemma LiquidationCosts(db: Db, id: nat, mark: int64)
    requires DbInv(db) && id in db.positions && Safe(db.positions[id]) && IsPrice(mark)
    requires ClosePosition(db, id, mark, false).1 == Done && ClosePosition(db, id, mark, true).1 == Done
    ensures var p := db.positions[id];
      var closed, liquidated := ClosePosition(db, id, mark, false).0, ClosePosition(db, id, mark, true).0;
      var left := Change(db, closed, Available(p.user));
      && Change(db, liquidated, Available(p.user)) == (if left < p.collateral / 50 then 0 else left - p.collateral / 50)
      && Change(closed, liquidated, Insurance) == -Change(closed, liquidated, Available(p.user))
  {
    ClosePays(db, id, mark, false);
    ClosePays(db, id, mark, true);
    PenaltyIsCut(db.positions[id], true);
    hide DbInv, ClosePosition, Gained, Lost, BalanceOf, PricedPosition;
  }

  // The two sides of one trade, closed at one mark while neither has lost all it posted: each side
  // gets its collateral back with what the other has lost, and the insurance fund neither pays nor
  // earns anything.
  lemma OppositeTradesBreakEven(db: Db, i: nat, j: nat, mark: int64)
    requires DbInv(db) && i in db.positions && j in db.positions && i != j && IsPrice(mark)
    requires Safe(db.positions[i]) && Safe(db.positions[j])
    requires db.positions[j].side == Opposite(db.positions[i].side)
    requires db.positions[j].size == db.positions[i].size && db.positions[j].entry == db.positions[i].entry
    requires Lost(db.positions[i], mark) <= db.positions[i].collateral &&
        Lost(db.positions[j], mark) <= db.positions[j].collateral
    requires ClosePosition(db, i, mark, false).1 == Done
    requires ClosePosition(ClosePosition(db, i, mark, false).0, j, mark, false).1 == Done
    ensures var p, q, db' := db.positions[i], db.positions[j], ClosePosition(ClosePosition(db, i, mark,
        false).0, j, mark, false).0;
      var won := Gained(p, mark) - Lost(p, mark);
      && Change(db, db', Insurance) == 0
      && (if p.user == q.user then Change(db, db', Available(p.user)) == p.collateral + q.collateral
          else Change(db, db', Available(p.user)) == p.collateral + won &&
               Change(db, db', Available(q.user)) == q.collateral - won)
  {
    var p, q := db.positions[i], db.positions[j];
    hide DbInv, ClosePosition, ClosePayout, Due, Gained, Lost, Change, Safe;
    TwoCloses(db, i, j, mark, Available(p.user));
    TwoCloses(db, i, j, mark, Available(q.user));
    TwoCloses(db, i, j, mark, Insurance);
    PayoutIsDue(p, mark, false);
    PayoutIsDue(q, mark, false);
    WhatOneLosesTheOtherGains(p, q, mark);
  }

  lemma TwoCloses(db: Db, i: nat, j: nat, mark: int64, a: Account)
    requires DbInv(db) && i in db.positions && j in db.positions && i != j
    requires ClosePosition(db, i, mark, false).1 == Done
    requires ClosePosition(ClosePosition(db, i, mark, false).0, j, mark, false).1 == Done
    ensures var db' := ClosePosition(ClosePosition(db, i, mark, false).0, j, mark, false).0;
      Change(db, db', a) == CloseShift(db.positions[i], ClosePayout(db.positions[i], mark, false), a)
                            + CloseShift(db.positions[j], ClosePayout(db.positions[j], mark, false), a)
  {
    hide DbInv, ClosePosition, ClosePayout, CloseShift, BalanceOf;
    CloseIs(db, i, mark, false);
    CloseIs(ClosePosition(db, i, mark, false).0, j, mark, false);
  }

  lemma WhatOneLosesTheOtherGains(p: Position, q: Position, mark: int64)
    requires Safe(p) && Safe(q) && IsPrice(mark)
    requires q.side == Opposite(p.side) && q.size == p.size && q.entry == p.entry
    requires Lost(p, mark) <= p.collateral && Lost(q, mark) <= q.collateral
    ensures Gained(q, mark) == Lost(p, mark) && Lost(q, mark) == Gained(p, mark)
    ensures Due(p, mark, false) == p.collateral + Gained(p, mark) - Lost(p, mark)
    ensures Due(q, mark, false) == q.collateral + Gained(q, mark) - Lost(q, mark)
  {
    var swing := Swing(p, mark);
    assert Swing(q, mark) == -swing;
    assert q.size * Swing(q, mark) == p.size * -swing && q.size * -Swing(q, mark) == p.size * swing;
    ProfitIsGainOrLoss(p, mark);
    ProfitIsGainOrLoss(q, mark);
    hide Safe;
  }

  /* ----- a whole settlement ----- */

  function DueTo(user: User, market: Market, outcome: int): Position -> int
  {
    (p: Position) => if p.state == OpenPos && p.market == market && p.user == user then Due(p, outcome, false) else 0
  }

  function KeptFrom(market: Market, outcome: int): Position -> int
  {
    (p: Position) => if p.state == OpenPos && p.market == market then p.collateral - Due(p, outcome, false) else 0
  }

  // A settlement gives every user what is due to each of the user's open positions in the market at
  // the outcome, and the insurance fund the rest of the collateral.
  lemma SettlementPays(db: Db, market: Market, outcome: int64, user: User)
    requires DbInv(db) && market in db.markets && db.markets[market].state != MarketOpen
    requires outcome == 0 || outcome == ONE
    requires forall p | p in OpenIn(db, market) :: Safe(db.positions[p])
    requires SettleMarketRows(db, market, outcome).1 == Done
    ensures var db' := SettleMarketRows(db, market, outcome).0;
      && Change(db, db', Available(user)) == SumOf(db.positions, DueTo(user, market, outcome))
      && Change(db, db', Insurance) == SumOf(db.positions, KeptFrom(market, outcome))
  {
    forall id | id in db.positions
      ensures OwedTo(Available(user), market, outcome)(db.positions[id]) ==
          DueTo(user, market, outcome)(db.positions[id])
      ensures OwedTo(Insurance, market, outcome)(db.positions[id]) == KeptFrom(market, outcome)(db.positions[id])
    {
      OwedIsDue(db, id, market, outcome, user);
    }
    SettleMarketKeeps(db, market, outcome);
    hide DbInv, SettleMarketRows, MarketFits, OwedTo, DueTo, KeptFrom, BalanceOf, PricedPosition;
    SumOfSame(db.positions, OwedTo(Available(user), market, outcome), DueTo(user, market, outcome));
    SumOfSame(db.positions, OwedTo(Insurance, market, outcome), KeptFrom(market, outcome));
  }

  lemma OwedIsDue(db: Db, id: nat, market: Market, outcome: int64, user: User)
    requires id in db.positions && (id in OpenIn(db, market) ==> Safe(db.positions[id])) && IsPrice(outcome)
    ensures OwedTo(Available(user), market, outcome)(db.positions[id]) ==
        DueTo(user, market, outcome)(db.positions[id])
    ensures OwedTo(Insurance, market, outcome)(db.positions[id]) == KeptFrom(market, outcome)(db.positions[id])
  {
    if id in OpenIn(db, market) {
      PayoutIsDue(db.positions[id], outcome, false);
    }
    hide SettlePayout, Due, PricedPosition;
  }
}
