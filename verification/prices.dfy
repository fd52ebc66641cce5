/** Prices and collateral through whole runs: marks stay prices, outcomes are zero or one, and
    every position carries exactly the initial margin of the price it was opened at. This is what
    lets the bounds of module Margins speak about the positions the system actually holds. */
module Prices {
  import opened Integers
  import opened Sums
  import opened GoVault
  import opened ChainModel
  import opened Accounts
  import opened Ledger
  import opened Margins
  import opened Store
  import opened StoreInvariants
  import opened System
  import opened SystemInvariants
  import opened SystemRefunds

  predicate PricedMarket(m: MarketRow)
  {
    IsPrice(m.mark) && (m.outcome.Some? ==> m.outcome.value == 0 || m.outcome.value == ONE)
  }

  predicate PricedPosition(p: Position)
  {
    IsPrice(p.entry) && p.size > 0 && p.collateral == InitialMargin64(p.side, p.size, p.entry) > 0
  }

  ghost predicate Priced(db: Db)
  {
    && (forall m | m in db.markets :: PricedMarket(db.markets[m]))
    && (forall p | p in db.positions :: PricedPosition(db.positions[p]))
  }

  // Rows keep their prices; only states move on.
  ghost predicate PricesKept(db: Db, db': Db)
  {
    && (forall m | m in db'.markets ::
        m in db.markets && db'.markets[m] == db.markets[m].(state := db'.markets[m].state))
    && (forall p | p in db'.positions ::
        p in db.positions && db'.positions[p] == db.positions[p].(state := db'.positions[p].state))
  }

  lemma KeptIsPriced(db: Db, db': Db)
    requires Priced(db) && PricesKept(db, db')
    ensures Priced(db')
  {
    forall p | p in db'.positions ensures PricedPosition(db'.positions[p]) {
      assert PricedPosition(db.positions[p]);
    }
    forall m | m in db'.markets ensures PricedMarket(db'.markets[m]) {
      assert PricedMarket(db.markets[m]);
    }
  }

  lemma SamePrices(db: Db, db': Db)
    requires db'.markets == db.markets && db'.positions == db.positions
    ensures PricesKept(db, db')
  {
  }

  lemma OpenIsPriced(db: Db, id: nat, user: User, market: Market, side: Side, size: int64, request: string)
    requires Priced(db) && id !in db.positions
    ensures Priced(OpenPosition(db, id, user, market, side, size, request).0)
  {
    hide Move, InitialMargin64;
    var r := OpenPosition(db, id, user, market, side, size, request);
    if market in db.markets {
      MoveOnlyBook(db, OpenKey(id), OpenLegs(user, InitialMargin64(side, size, db.markets[market].mark)));
    }
  }

  lemma CloseAsIsPriced(db: Db, id: nat, key: Key, payout: int64, state: PositionState)
    requires Priced(db) && id in db.positions
    ensures Priced(CloseAs(db, id, key, payout, state).0)
  {
    var p := db.positions[id];
    MoveOnlyBook(db, key, CloseLegs(p.user, p.collateral, payout));
    hide Move;
    KeptIsPriced(db, CloseAs(db, id, key, payout, state).0);
  }

  lemma {:induction false} SettleAllIsPriced(db: Db, ids: seq<nat>, outcome: int64)
    requires Priced(db)
    ensures Priced(SettleAll(db, ids, outcome).0) && SettleAll(db, ids, outcome).0.markets == db.markets
    decreases |ids|
  {
    if ids != [] {
      SettleAllIsPriced(db, ids[..|ids| - 1], outcome);
      var before := SettleAll(db, ids[..|ids| - 1], outcome);
      SettleOneIsPriced(before.0, ids[|ids| - 1], outcome);
    }
  }

  lemma SettleOneIsPriced(db: Db, id: nat, outcome: int64)
    requires Priced(db)
    ensures Priced(SettleOne(db, id, outcome).0) && SettleOne(db, id, outcome).0.markets == db.markets
  {
    if id in db.positions {
      var p := db.positions[id];
      var payout := SettlePayout(p, outcome);
      CloseAsIsPriced(db, id, SettleKey(id), payout, ClosedPos);
      MoveOnlyBook(db, SettleKey(id), CloseLegs(p.user, p.collateral, payout));
      hide Move;
    }
  }

  lemma SettleMarketIsPriced(db: Db, market: Market, outcome: int64)
    requires Priced(db)
    ensures Priced(SettleMarketRows(db, market, outcome).0)
  {
    SettleAllIsPriced(db, Ascending(OpenIn(db, market)), outcome);
    hide SettleAll, PricedPosition;
  }

  lemma ConfirmIsPriced(db: Db, n: Nonce, height: int, hash: Hash)
    requires Priced(db)
    ensures Priced(Confirm(db, n, height, hash).0)
  {
    hide Move, SettleMarketRows, Priced;
    if n in db.intents {
      var i := db.intents[n];
      MoveOnlyBook(db, FinalKey(n), PayLegs(i.user, i.amount));
      if i.market in db.markets && db.markets[i.market].outcome.Some? {
        SettleMarketIsPriced(db, i.market, db.markets[i.market].outcome.value);
      }
      PricedFrame(db, Confirm(db, n, height, hash).0);
      PricedFrame(ConfirmEffect(db, n).0, Confirm(db, n, height, hash).0);
    }
  }

  lemma PricedFrame(db: Db, db': Db)
    ensures db'.markets == db.markets && db'.positions == db.positions ==> (Priced(db') <==> Priced(db))
  {
  }

  lemma ExpireKeepsPrices(db: Db, n: Nonce, observed: int)
    ensures PricesKept(db, Expire(db, n, observed).0)
  {
    hide PricesKept, Expire;
    ExpireFrame(db, n, observed);
    SamePrices(db, Expire(db, n, observed).0);
  }

  lemma ResolveIsPriced(s: Sys, n: Nonce, deadlinePassed: bool)
    requires Inv(s) && n in s.db.intents && Priced(s.db)
    ensures Priced(Resolve(s, n, deadlinePassed).db)
  {
    hide Inv, DbInv, Resolve, Confirm, Expire, Priced;
    IntentOf(s, n);
    ResolveOutcome(s, n, deadlinePassed);
    ConfirmIsPriced(s.db, n, TxStatus(s.chain, n).height, TxStatus(s.chain, n).hash);
    ExpireKeepsPrices(s.db, n, s.chain.head);
    KeptIsPriced(s.db, Expire(s.db, n, s.chain.head).0);
  }

  lemma MarketStepIsPriced(db: Db, id: Nonce, market: Market, mark: int64, outcome: int64)
    requires Priced(db)
    ensures IsPrice(mark) ==> Priced(SeedMarket(db, market, mark))
    ensures Priced(SetMark(db, market, mark)) && Priced(RequestSettlement(db, id, market, outcome).0)
  {
    SettlementIsPriced(db, id, market, outcome);
    MarkIsPriced(db, market, mark);
    hide PricedPosition, RequestSettlement, SetMark;
  }

  function Distance(a: int, b: int): int
  {
    if a < b then b - a else a - b
  }

  // A new mark is the nearest price that leaves both sides something to lose; it is taken only while
  // the market is open, and no other market moves.
  lemma MarksAreClamped(db: Db, market: Market, mark: int64, p: int)
    requires market in db.markets && 1_000 <= p <= 999_000
    ensures var db' := SetMark(db, market, mark);
      && market in db'.markets && db' == db.(markets := db.markets[market := db'.markets[market]])
      && db'.markets[market] == db.markets[market].(mark := db'.markets[market].mark)
      && (db.markets[market].state != MarketOpen ==> db' == db)
      && (db.markets[market].state == MarketOpen ==>
            var taken := db'.markets[market].mark;
            1_000 <= taken <= 999_000 && Distance(taken, mark) <= Distance(p, mark))
  {
  }

  lemma MarkIsPriced(db: Db, market: Market, mark: int64)
    requires Priced(db)
    ensures Priced(SetMark(db, market, mark))
  {
    hide PricedPosition;
  }

  lemma SettlementIsPriced(db: Db, id: Nonce, market: Market, outcome: int64)
    requires Priced(db)
    ensures Priced(RequestSettlement(db, id, market, outcome).0)
  {
    hide PricedPosition, SettleRequest;
  }

  lemma LedgerStepIsPriced(s: Sys, step: Step)
    requires Allowed(s, step) && Priced(s.db) && (step.RequestsWithdraw? || step.PostsOutside?)
    ensures Priced(Next(s, step).db)
  {
    hide Priced, RequestWithdraw, PostOutside;
    if step.RequestsWithdraw? {
      RequestFrame(s.db, step.id, step.user, step.amount, step.request, step.expiry);
    } else {
      OutsideFrame(s.db, step.text, step.user, step.credit);
    }
    PricedFrame(s.db, Next(s, step).db);
  }

  lemma CreditStepIsPriced(s: Sys, step: Step)
    requires Allowed(s, step) && Priced(s.db) && (step.Applies? || step.Reverts?)
    ensures Priced(Next(s, step).db)
  {
    hide Priced, OrphanedBlock, ApplyDeposit, RevertFact;
    if step.Applies? {
      CreditFrame(s.db, step.event);
    } else {
      RevertFrame(s.db, step.event);
    }
    PricedFrame(s.db, Next(s, step).db);
  }

  lemma StepIsPriced(s: Sys, step: Step)
    requires Inv(s) && Allowed(s, step) && Priced(s.db)
    ensures Priced(Next(s, step).db)
  {
    hide Inv, Priced, Resolve, OpenPosition, ClosePosition, SeedMarket, SetMark, RequestSettlement;
    match step {
      case Opens(id, user, market, side, size, request) => OpenIsPriced(s.db, id, user, market, side, size, request);
      case Closes(id, mark, liquidation) => ClosesIsPriced(s.db, id, mark, liquidation);
      case Seeds(market, mark) => MarketStepIsPriced(s.db, DepositId(0), market, mark, 0);
      case Reprices(market, mark) => MarketStepIsPriced(s.db, DepositId(0), market, mark, 0);
      case RequestsSettlement(id, market, outcome) => MarketStepIsPriced(s.db, id, market, 0, outcome);
      case Resolves(n, deadlinePassed) => ResolveIsPriced(s, n, deadlinePassed);
      case _ => OtherStepIsPriced(s, step);
    }
  }

  lemma ClosesIsPriced(db: Db, id: nat, mark: int64, liquidation: bool)
    requires Priced(db)
    ensures Priced(ClosePosition(db, id, mark, liquidation).0)
  {
    if id in db.positions {
      var p := db.positions[id];
      CloseAsIsPriced(db, id, CloseKey(id), ClosePayout(p, mark, liquidation),
                      if liquidation then LiquidatedPos else ClosedPos);
    }
    hide CloseAs, Priced;
  }

  lemma OtherStepIsPriced(s: Sys, step: Step)
    requires Allowed(s, step) && Priced(s.db)
    requires !step.Opens? && !step.Closes? && !step.Seeds? && !step.Reprices? && !step.RequestsSettlement? &&
        !step.Resolves?
    ensures Priced(Next(s, step).db)
  {
    if step.RequestsWithdraw? || step.PostsOutside? {
      hide Next, Priced;
      LedgerStepIsPriced(s, step);
    } else if step.Applies? || step.Reverts? {
      hide Next, Priced;
      CreditStepIsPriced(s, step);
    } else {
      hide Priced, Mine, SubmitTx, HeadState, CollateralIn, EscrowInFlight;
      PricedFrame(s.db, Next(s, step).db);
    }
  }

  lemma {:induction false} PricesHold(s: Sys, steps: seq<Step>)
    requires Inv(s) && Priced(s.db) && IsTrace(s, steps)
    ensures Inv(Final(s, steps)) && Priced(Final(s, steps).db)
    decreases |steps|
  {
    hide Inv, Priced, Next;
    if steps != [] {
      StepKeeps(s, steps[0]);
      StepIsPriced(s, steps[0]);
      PricesHold(Next(s, steps[0]), steps[1..]);
    }
  }

  /* ----- what the house can lose ----- */

  // The most the insurance fund can owe one position: the opposite side's worst case at entry, or,
  // for a position so large that its products wrap, the largest number a product can come out as.
  function RiskOf(p: Position): int
  {
    if p.size <= LARGEST_SAFE_SIZE then WorstCase(Opposite(p.side), p.size, p.entry) else LARGEST_SAFE_SIZE
  }

  function HouseRisk(market: Market): Position -> int
  {
    (p: Position) => if p.state == OpenPos && p.market == market then RiskOf(p) else 0
  }

  lemma PayoutRisk(p: Position, outcome: int64)
    requires PricedPosition(p) && (outcome == 0 || outcome == ONE)
    ensures SettlePayout(p, outcome) - p.collateral <= RiskOf(p) && 0 <= RiskOf(p)
  {
    if p.size <= LARGEST_SAFE_SIZE {
      ExactBelowTheLimit(p.side, p.size, p.entry, outcome);
      InsuranceOutlayIsBounded(p.side, p.size, p.entry, p.collateral, outcome, false);
      WorstCaseRange(Opposite(p.side), p.size, p.entry);
      hide Payout, Payout64, WorstCase, WorstCase64, Pnl, Pnl64, InitialMargin, InitialMargin64, Mul, Mul64, Wrapped;
    } else {
      hide Pnl64, InitialMargin64, Wrapped;
    }
  }

  lemma SettlementRisk(db: Db, market: Market, outcome: int64, id: nat)
    requires Priced(db) && id in db.positions && (outcome == 0 || outcome == ONE)
    ensures var p := db.positions[id];
      OwedTo(Insurance, market, outcome)(p) + HouseRisk(market)(p) >= 0
  {
    assert PricedPosition(db.positions[id]);
    PayoutRisk(db.positions[id], outcome);
    hide PricedPosition, SettlePayout, RiskOf;
  }

  // Settling a market costs the insurance fund at most the sum of those risks.
  lemma SettlementOutlayIsCovered(db: Db, market: Market)
    requires DbInv(db) && Priced(db) && market in db.markets && db.markets[market].outcome.Some? &&
        db.markets[market].state != MarketOpen
    ensures var outcome := db.markets[market].outcome.value;
      var r := SettleMarketRows(db, market, outcome);
      BalanceOf(r.0.book, Insurance) >= BalanceOf(db.book, Insurance) - SumOf(db.positions, HouseRisk(market))
  {
    var outcome := db.markets[market].outcome.value;
    SettleMarketKeeps(db, market, outcome);
    RisksCoverPayouts(db, market);
    hide DbInv, Priced, SettleMarketRows, OwedTo, HouseRisk, MarketFits;
    SumOfPlus(db.positions, OwedTo(Insurance, market, outcome), HouseRisk(market), OwedAndRisk(market, outcome));
  }

  function OwedAndRisk(market: Market, outcome: int64): Position -> int
  {
    (p: Position) => OwedTo(Insurance, market, outcome)(p) + HouseRisk(market)(p)
  }

  lemma RisksCoverPayouts(db: Db, market: Market)
    requires Priced(db) && market in db.markets && db.markets[market].outcome.Some?
    ensures SumOf(db.positions, OwedAndRisk(market, db.markets[market].outcome.value)) >= 0
    ensures SumOf(db.positions, HouseRisk(market)) >= 0
  {
    var outcome := db.markets[market].outcome.value;
    assert PricedMarket(db.markets[market]);
    forall id | id in db.positions
      ensures OwedAndRisk(market, outcome)(db.positions[id]) >= 0 && HouseRisk(market)(db.positions[id]) >= 0
    {
      SettlementRisk(db, market, outcome, id);
      assert PricedPosition(db.positions[id]);
      PayoutRisk(db.positions[id], outcome);
    }
    hide OwedTo, HouseRisk, Priced;
    SumOfNonNegative(db.positions, OwedAndRisk(market, outcome));
    SumOfNonNegative(db.positions, HouseRisk(market));
  }
}
