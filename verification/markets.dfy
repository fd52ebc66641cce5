/** Markets and the requests that move them, through whole runs: no market ever goes back, and
    whether a market can be settled at all turns on who used its request key first. */
module Markets {
  import opened Integers
  import opened GoVault
  import opened ChainModel
  import opened Ledger
  import opened Margins
  import opened Store
  import opened StoreInvariants
  import opened System
  import opened SystemInvariants
  import opened SystemRefunds
  import EarlyRefund

  /* ----- what each step does to the two tables ----- */

  predicate TouchesMarkets(step: Step)
  {
    step.Seeds? || step.Reprices? || step.RequestsSettlement? || step.Resolves?
  }

  lemma QuietTables(s: Sys, step: Step)
    requires Allowed(s, step) && !TouchesMarkets(step) && !step.RequestsWithdraw?
    requires !step.Opens? && !step.Closes? && !step.Applies? && !step.Reverts? && !step.PostsOutside?
    ensures Next(s, step).db.markets == s.db.markets && Next(s, step).db.requests == s.db.requests
  {
    hide Mine, SubmitTx, HeadState, CollateralIn, EscrowInFlight, OrphanedBlock, CanMine, Recorded;
  }

  lemma MoneyTables(s: Sys, step: Step)
    requires Allowed(s, step) && (step.Opens? || step.Closes? || step.Applies? || step.Reverts? || step.PostsOutside?)
    ensures Next(s, step).db.markets == s.db.markets && Next(s, step).db.requests == s.db.requests
  {
    hide OpenPosition, ClosePosition, ApplyDeposit, RevertFact, PostOutside, OrphanedBlock, StatusOnly;
    match step {
      case Opens(id, user, market, side, size, request) => OpenFrame(s.db, id, user, market, side, size, request);
      case Closes(id, mark, liquidation) => CloseFrame(s.db, id, mark, liquidation);
      case Applies(e) => CreditFrame(s.db, e);
      case Reverts(e) => RevertFrame(s.db, e);
      case PostsOutside(text, user, credit) => OutsideFrame(s.db, text, user, credit);
    }
  }

  lemma SameTables(s: Sys, step: Step)
    requires Allowed(s, step) && !TouchesMarkets(step) && !step.RequestsWithdraw?
    ensures Next(s, step).db.markets == s.db.markets && Next(s, step).db.requests == s.db.requests
  {
    hide Next, Allowed;
    if step.Opens? || step.Closes? || step.Applies? || step.Reverts? || step.PostsOutside? {
      MoneyTables(s, step);
    } else {
      QuietTables(s, step);
    }
  }

  // A pass of the resolver closes at most the market of the intent it settles, and writes no request.
  lemma ResolveTables(s: Sys, n: Nonce, deadlinePassed: bool)
    requires Inv(s) && n in s.db.intents && InFlight(s.db.intents[n])
    ensures var db' := Resolve(s, n, deadlinePassed).db;
      && db'.requests == s.db.requests
      && (db'.markets == s.db.markets || ClosedOnly(s.db.markets, db'.markets, s.db.intents[n].market))
  {
    hide Inv, DbInv, Resolve, Confirm, Expire, ConfirmFits, RefundFits;
    PartsOf(s);
    WithdrawalExpiry(s, n);
    ResolveOutcome(s, n, deadlinePassed);
    ConfirmKeeps(s.db, n, TxStatus(s.chain, n).height, TxStatus(s.chain, n).hash);
    ExpireKeeps(s.db, n, s.chain.head);
  }

  predicate ClosedOnly(markets: map<Market, MarketRow>, markets': map<Market, MarketRow>, market: Market)
  {
    market in markets && markets' == markets[market := markets[market].(state := MarketClosed)]
  }

  lemma WithdrawalExpiry(s: Sys, n: Nonce)
    requires Inv(s) && n in s.db.intents
    ensures s.db.intents[n].kind == Withdraw ==> s.db.intents[n].expiry > 0
  {
    hide Inv;
    IntentOf(s, n);
  }

  /* ----- no market goes back ----- */

  function Stage(state: MarketState): nat
  {
    match state
    case MarketOpen => 0
    case Settling => 1
    case MarketClosed => 2
  }

  // Once a market has left the open state its mark and its outcome are fixed.
  predicate Onward(before: MarketRow, after: MarketRow)
  {
    && Stage(before.state) <= Stage(after.state)
    && (before.state != MarketOpen ==> after == before.(state := after.state))
  }

  ghost predicate MarketsOnward(db: Db, db': Db)
  {
    forall m | m in db.markets :: m in db'.markets && Onward(db.markets[m], db'.markets[m])
  }

  lemma OnwardChain(a: Db, b: Db, c: Db)
    requires MarketsOnward(a, b) && MarketsOnward(b, c)
    ensures MarketsOnward(a, c)
  {
  }

  lemma OperatorMovesMarkets(s: Sys, step: Step)
    requires Allowed(s, step) && (step.Seeds? || step.Reprices? || step.RequestsSettlement?)
    ensures MarketsOnward(s.db, Next(s, step).db)
  {
    hide SeedMarket, SetMark, RequestSettlement, MarketsOnward;
    match step {
      case Seeds(market, mark) => MarksMove(s.db, market, mark);
      case Reprices(market, mark) => MarksMove(s.db, market, mark);
      case RequestsSettlement(id, market, outcome) => SettlementMoves(s.db, id, market, outcome);
    }
  }

  lemma MarksMove(db: Db, market: Market, mark: int64)
    ensures MarketsOnward(db, SeedMarket(db, market, mark)) && MarketsOnward(db, SetMark(db, market, mark))
  {
  }

  lemma SettlementMoves(db: Db, id: Nonce, market: Market, outcome: int64)
    ensures MarketsOnward(db, RequestSettlement(db, id, market, outcome).0)
  {
  }

  lemma ResolverMovesMarkets(s: Sys, step: Step)
    requires Inv(s) && Allowed(s, step) && step.Resolves?
    ensures MarketsOnward(s.db, Next(s, step).db)
  {
    hide Inv, Resolve;
    ResolveTables(s, step.intent, step.deadlinePassed);
  }

  lemma StepMovesMarkets(s: Sys, step: Step)
    requires Inv(s) && Allowed(s, step)
    ensures MarketsOnward(s.db, Next(s, step).db)
  {
    hide Inv, Allowed, Next;
    if step.Resolves? {
      ResolverMovesMarkets(s, step);
    } else if TouchesMarkets(step) {
      OperatorMovesMarkets(s, step);
    } else if step.RequestsWithdraw? {
      WithdrawTables(s, step);
    } else {
      SameTables(s, step);
    }
  }

  // In every run a market moves from open to settling to closed and never back, and the outcome it
  // was settled with never changes.
  lemma {:induction false} MarketsNeverGoBack(s: Sys, steps: seq<Step>)
    requires Inv(s) && IsTrace(s, steps)
    ensures MarketsOnward(s.db, Final(s, steps).db)
    decreases |steps|
  {
    hide Inv, Next, MarketsOnward;
    if steps == [] {
      NobodyMoved(s.db);
    } else {
      StepKeeps(s, steps[0]);
      StepMovesMarkets(s, steps[0]);
      MarketsNeverGoBack(Next(s, steps[0]), steps[1..]);
      OnwardChain(s.db, Next(s, steps[0]).db, Final(s, steps).db);
    }
  }

  lemma NobodyMoved(db: Db)
    ensures MarketsOnward(db, db)
  {
  }

  /* ----- the request key of a settlement ----- */

  // A request key belongs to the withdrawal it was given for, or is the key of its market's settlement.
  predicate RequestFor(db: Db, key: string)
    requires key in db.requests
  {
    var n := db.requests[key];
    n in db.intents &&
    (db.intents[n].kind == Withdraw || (db.intents[n].kind == SettleMarket &&
        key == SettleRequest(db.intents[n].market)))
  }

  ghost predicate RequestsTrue(db: Db)
  {
    forall key | key in db.requests :: RequestFor(db, key)
  }

  // A withdrawal was given the key under which this market's settlement would be requested.
  predicate TakenByWithdrawal(db: Db, market: Market)
  {
    var key := SettleRequest(market);
    key in db.requests && db.requests[key] in db.intents && db.intents[db.requests[key]].kind == Withdraw
  }

  // Old requests keep their intents, whose terms never change.
  ghost predicate RequestsKept(db: Db, db': Db)
  {
    forall key | key in db.requests :: key in db'.requests && db'.requests[key] == db.requests[key]
  }

  lemma WithdrawTables(s: Sys, step: Step)
    requires Allowed(s, step) && step.RequestsWithdraw?
    ensures Next(s, step).db.markets == s.db.markets && RequestsKept(s.db, Next(s, step).db)
    ensures var db' := Next(s, step).db;
      db'.requests == s.db.requests ||
      (db'.requests == s.db.requests[step.request := step.id] && step.id in db'.intents &&
          db'.intents[step.id].kind == Withdraw)
  {
    MoveOnlyBook(s.db, ReserveKey(step.id), ReserveLegs(step.user, step.amount));
    hide Move, HeadState;
  }

  lemma SettlementTables(s: Sys, step: Step)
    requires Allowed(s, step) && step.RequestsSettlement?
    ensures RequestsKept(s.db, Next(s, step).db)
    ensures var db' := Next(s, step).db;
      db'.requests == s.db.requests ||
      (db'.requests == s.db.requests[SettleRequest(step.market) := step.id] && step.id in db'.intents &&
       db'.intents[step.id].kind == SettleMarket && db'.intents[step.id].market == step.market)
  {
    hide RequestSettlement;
    SettlementTable(s.db, step.id, step.market, step.outcome);
  }

  lemma SettlementTable(db: Db, id: Nonce, market: Market, outcome: int64)
    ensures var db' := RequestSettlement(db, id, market, outcome).0;
      db'.requests == db.requests ||
      (SettleRequest(market) !in db.requests && db'.requests == db.requests[SettleRequest(market) := id] &&
       id in db'.intents && db'.intents[id].kind == SettleMarket && db'.intents[id].market == market)
  {
    hide SettleRequest;
  }

  lemma OtherRequests(s: Sys, step: Step)
    requires Inv(s) && Allowed(s, step) && !step.RequestsWithdraw? && !step.RequestsSettlement?
    ensures Next(s, step).db.requests == s.db.requests
  {
    hide Inv;
    if step.Resolves? {
      hide Resolve;
      ResolveTables(s, step.intent, step.deadlinePassed);
    } else if step.Seeds? || step.Reprices? {
    } else {
      hide Next, Allowed;
      SameTables(s, step);
    }
  }

  lemma StepKeepsRequests(s: Sys, step: Step)
    requires Inv(s) && Allowed(s, step)
    ensures RequestsKept(s.db, Next(s, step).db) && (RequestsTrue(s.db) ==> RequestsTrue(Next(s, step).db))
  {
    hide Inv, Allowed, Next, OnlyResolves, InFlight;
    StepProgress(s, step);
    if step.RequestsWithdraw? {
      WithdrawTables(s, step);
    } else if step.RequestsSettlement? {
      SettlementTables(s, step);
    } else {
      OtherRequests(s, step);
    }
  }

  lemma StartRequests(confirms: int)
    ensures RequestsTrue(Start(confirms).db)
  {
  }

  // Every run keeps them, and so a key once taken by a withdrawal stays taken.
  lemma {:induction false} EveryRunKeepsRequests(s: Sys, steps: seq<Step>, market: Market)
    requires Inv(s) && IsTrace(s, steps)
    ensures RequestsTrue(s.db) ==> RequestsTrue(Final(s, steps).db)
    ensures TakenByWithdrawal(s.db, market) ==> TakenByWithdrawal(Final(s, steps).db, market)
    decreases |steps|
  {
    hide Inv, Next, RequestsTrue, RequestsKept, TakenByWithdrawal, Progress, OnlyResolves;
    if steps != [] {
      StepKeeps(s, steps[0]);
      StepProgress(s, steps[0]);
      StepKeepsRequests(s, steps[0]);
      StaysTaken(s.db, Next(s, steps[0]).db, market);
      EveryRunKeepsRequests(Next(s, steps[0]), steps[1..], market);
    }
  }

  lemma StaysTaken(db: Db, db': Db, market: Market)
    requires RequestsKept(db, db') && Progress(db, db')
    ensures TakenByWithdrawal(db, market) ==> TakenByWithdrawal(db', market)
  {
  }

  // An open market can be settled if and only if no withdrawal has been given its settlement key.
  lemma SettlementNeedsItsKey(confirms: int, steps: seq<Step>, id: Nonce, market: Market, outcome: int64)
    requires IsTrace(Start(confirms), steps) && (outcome == 0 || outcome == ONE)
    ensures var db := Final(Start(confirms), steps).db;
      market in db.markets && db.markets[market].state == MarketOpen ==>
        RequestSettlement(db, id, market, outcome).1 == if TakenByWithdrawal(db, market) then NotFound else Done
  {
    hide Inv, RequestsTrue, TakenByWithdrawal, RequestSettlement;
    var s := Final(Start(confirms), steps);
    StartSound(confirms);
    StartRequests(confirms);
    EveryTraceKeeps(Start(confirms), steps);
    EveryRunKeepsRequests(Start(confirms), steps, market);
    if market in s.db.markets && s.db.markets[market].state == MarketOpen {
      AnswerOfSettlement(s, id, market, outcome);
    }
  }

  lemma AnswerOfSettlement(s: Sys, id: Nonce, market: Market, outcome: int64)
    requires Inv(s) && RequestsTrue(s.db) && market in s.db.markets && s.db.markets[market].state == MarketOpen
    requires outcome == 0 || outcome == ONE
    ensures RequestSettlement(s.db, id, market, outcome).1 == if TakenByWithdrawal(s.db, market) then NotFound else Done
  {
    hide Inv;
    var key := SettleRequest(market);
    if key in s.db.requests {
      assert RequestFor(s.db, key);
      var n := s.db.requests[key];
      IntentOf(s, n);
      RequestNamesMarket(s.db.intents[n].market, market);
      hide SettleRequest;
    }
  }

  lemma RequestNamesMarket(market: Market, other: Market)
    ensures SettleRequest(market) == SettleRequest(other) ==> market == other
  {
    assert SettleRequest(market)[7..] == market && SettleRequest(other)[7..] == other;
  }

  // Once the key is taken, settling the market answers not found for ever, and does nothing.
  lemma TakenForEver(s: Sys, steps: seq<Step>, id: Nonce, market: Market, outcome: int64)
    requires Inv(s) && IsTrace(s, steps) && TakenByWithdrawal(s.db, market) && (outcome == 0 || outcome == ONE)
    ensures RequestSettlement(Final(s, steps).db, id, market, outcome) == (Final(s, steps).db, NotFound)
  {
    hide Inv;
    EveryRunKeepsRequests(s, steps, market);
  }

  // It can happen: any user with funds can ask for a withdrawal under that key.
  lemma SettlementCanBeBlocked(user: User, amount: int64, id: Nonce, market: Market, mark: int64)
      returns (steps: seq<Step>)
    requires amount > 0 && id.IntentId? && IsPrice(mark)
    ensures IsTrace(Start(3), steps) && Legitimate(steps)
    ensures var db := Final(Start(3), steps).db;
      market in db.markets && db.markets[market].state == MarketOpen && TakenByWithdrawal(db, market)
  {
    hide Inv, DbInv, EarlyRefund.Reaches, EarlyRefund.CreditedStore, Next, EarlyRefund.Idle, EarlyRefund.Rooted;
    var steps0, s0 := EarlyRefund.Fund(user, amount);
    var steps1, s1 := EarlyRefund.Credit(steps0, s0, user, amount, 0);
    EarlyRefund.ReachesInv(steps1, s1);
    PartsOf(s1);
    var request, seed := RequestsWithdraw(id, user, amount, SettleRequest(market), 11), Seeds(market, mark);
    RequestTakesKey(s1, user, amount, id, market);
    EarlyRefund.Extend(steps1, s1, request);
    var s2 := Next(s1, request);
    SeedOpens(s2, market, mark);
    EarlyRefund.Extend(steps1 + [request], s2, seed);
    steps := steps1 + [request] + [seed];
    EarlyRefund.ReachesRun(steps, Next(s2, seed));
  }

  lemma RequestTakesKey(s: Sys, user: User, amount: int64, id: Nonce, market: Market)
    requires DbInv(s.db) && EarlyRefund.CreditedStore(s.db, user, amount, 0) && amount > 0 && id.IntentId? &&
        s.chain.head == 1
    ensures var step := RequestsWithdraw(id, user, amount, SettleRequest(market), 11);
      Allowed(s, step) && Next(s, step).db.markets == map[] && TakenByWithdrawal(Next(s, step).db, market)
  {
    hide DbInv, BalanceOf, RequestWithdraw, ReserveLegs, Move;
    var request := SettleRequest(market);
    RequestWithdrawOutcome(s.db, id, user, amount, request, 11);
    EarlyRefund.NothingReserved(s.db, user);
    WithdrawalTakes(s.db, id, user, amount, request);
  }

  lemma WithdrawalTakes(db: Db, id: Nonce, user: User, amount: int64, request: string)
    requires RequestWithdraw(db, id, user, amount, request, 11).1 == Done && request != ""
    ensures var db' := RequestWithdraw(db, id, user, amount, request, 11).0;
      && request in db'.requests && db'.requests[request] == id
      && id in db'.intents && db'.intents[id].kind == Withdraw && db'.markets == db.markets
  {
    MoveOnlyBook(db, ReserveKey(id), ReserveLegs(user, amount));
    hide Move, ReserveLegs;
  }

  lemma SeedOpens(s: Sys, market: Market, mark: int64)
    requires IsPrice(mark) && s.db.markets == map[] && TakenByWithdrawal(s.db, market)
    ensures var step := Seeds(market, mark);
      && Allowed(s, step) && TakenByWithdrawal(Next(s, step).db, market)
      && market in Next(s, step).db.markets && Next(s, step).db.markets[market].state == MarketOpen
  {
  }
}
