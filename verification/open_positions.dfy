/** Who holds which position. In every run a user has at most one open position in a market and a
    request key belongs to at most one position; and what a request for one answers can be read off
    the tables beforehand. */
module OpenPositions {
  import opened Integers
  import opened GoVault
  import opened ChainModel
  import opened Accounts
  import opened Ledger
  import opened Margins
  import opened Store
  import opened StoreInvariants
  import opened System
  import opened SystemInvariants
  import opened SystemRefunds
  import opened Payouts

  /* ----- the unique indexes ----- */

  predicate Clash(p: Position, q: Position)
  {
    || (p.state == OpenPos && q.state == OpenPos && p.user == q.user && p.market == q.market)
    || (p.request.Some? && p.request == q.request)
  }

  // No two open positions share user and market, and no two positions share a request key.
  ghost predicate Unique(db: Db)
  {
    forall p, q | p in db.positions && q in db.positions && p != q :: !Clash(db.positions[p], db.positions[q])
  }

  // Rows are only closed.
  ghost predicate OnlyClosed(db: Db, db': Db)
  {
    forall p | p in db'.positions ::
      p in db.positions && db'.positions[p] == db.positions[p].(state := db'.positions[p].state) &&
      (db'.positions[p].state == OpenPos ==> db.positions[p].state == OpenPos)
  }

  lemma ClosedStaysUnique(db: Db, db': Db)
    requires Unique(db) && OnlyClosed(db, db')
    ensures Unique(db')
  {
    forall p, q | p in db'.positions && q in db'.positions && p != q
        ensures !Clash(db'.positions[p], db'.positions[q]) {
      assert !Clash(db.positions[p], db.positions[q]);
    }
  }

  lemma SamePositionsClosed(db: Db, db': Db)
    requires db'.positions == db.positions
    ensures OnlyClosed(db, db')
  {
  }

  /* ----- what opening answers ----- */

  ghost predicate UsedBy(db: Db, request: string, p: nat)
  {
    p in db.positions && db.positions[p].request == Some(request)
  }

  ghost predicate OpenFor(db: Db, user: User, market: Market, p: nat)
  {
    p in db.positions && db.positions[p].state == OpenPos && db.positions[p].user == user &&
        db.positions[p].market == market
  }

  // A new position is opened, with its collateral moved from available to margin, if and only if the
  // size is positive, the key new, the market open, the collateral not nothing, no position of the
  // user open in the market, and the funds there.
  lemma OpensIff(db: Db, id: nat, user: User, market: Market, side: Side, size: int64, request: string)
    requires DbInv(db) && id !in db.positions
    ensures var r := OpenPosition(db, id, user, market, side, size, request);
      && (id in r.0.positions <==>
            && size > 0 && (request == "" || !exists p :: UsedBy(db, request, p))
            && market in db.markets && db.markets[market].state == MarketOpen
            && !(exists p :: OpenFor(db, user, market, p))
            && var collateral := InitialMargin64(side, size, db.markets[market].mark);
              && 0 < collateral <= BalanceOf(db.book, Available(user))
              && FitsInt64(BalanceOf(db.book, Margin(user)) + collateral))
      && (if id in r.0.positions then r.1 == Done && Opened(db, r.0, id, user, market, side, size, request)
          else r.0 == db)
  {
    hide DbInv, BooksSound, Keyed, Backed, ExternalExplained, Rows, BalanceOf, KeyUsed, Move, MovedOnly, Posting,
         InitialMargin64, OpenPosition, HoldsOpen, RequestUsed, RequestFits;
    DbParts(db);
    UnusedKey(db, OpenKey(id));
    HoldsMeansOpen(db, user, market);
    UsedMeansUsed(db, request);
    OpenBranches(db, id, user, market, side, size, request);
    if market in db.markets && InitialMargin64(side, size, db.markets[market].mark) > 0 {
      var collateral := InitialMargin64(side, size, db.markets[market].mark);
      TwoLegMove(db, OpenKey(id), Available(user), Margin(user), collateral);
      SoundBalance(db.book, Available(user));
      CustodyNonNegative(db.book, Margin(user));
      MoveOnlyBook(db, OpenKey(id), OpenLegs(user, collateral));
    }
  }

  ghost predicate Opened(db: Db, db': Db, id: nat, user: User, market: Market, side: Side, size: int64,
      request: string)
    requires market in db.markets
  {
    var mark := db.markets[market].mark;
    var collateral := InitialMargin64(side, size, mark);
    && db' == db.(book := db'.book, positions := db.positions[id := Position(user, market, side, size, mark,
        collateral, OpenPos, if request == "" then None else Some(request))])
    && forall a :: BalanceOf(db'.book, a) == BalanceOf(db.book, a) + Shift(Available(user), Margin(user), collateral, a)
  }

  lemma HoldsMeansOpen(db: Db, user: User, market: Market)
    ensures HoldsOpen(db, user, market) <==> exists p :: OpenFor(db, user, market, p)
  {
    if HoldsOpen(db, user, market) {
      var p :| p in db.positions && db.positions[p].user == user && db.positions[p].market == market &&
          db.positions[p].state == OpenPos;
      assert OpenFor(db, user, market, p);
    }
  }

  lemma UsedMeansUsed(db: Db, request: string)
    ensures RequestUsed(db, request) <==> exists p :: UsedBy(db, request, p)
  {
    if RequestUsed(db, request) {
      var p :| p in db.positions && db.positions[p].request == Some(request);
      assert UsedBy(db, request, p);
    }
  }

  // The transaction after its checks.
  lemma OpenBranches(db: Db, id: nat, user: User, market: Market, side: Side, size: int64, request: string)
    requires id !in db.positions
    ensures var r := OpenPosition(db, id, user, market, side, size, request);
      if size > 0 && (request == "" || !RequestUsed(db, request)) && market in db.markets &&
         db.markets[market].state == MarketOpen && InitialMargin64(side, size, db.markets[market].mark) > 0 &&
         !HoldsOpen(db, user, market)
      then
        var collateral := InitialMargin64(side, size, db.markets[market].mark);
        var moved := Move(db, OpenKey(id), OpenLegs(user, collateral));
        if moved.None? then r == (db, Refused)
        else r == (moved.value.(positions := db.positions[id := Position(user, market, side, size,
            db.markets[market].mark, collateral, OpenPos, if request == "" then None else Some(request))]), Done)
      else r.0 == db
  {
    hide Move, HoldsOpen, RequestUsed, RequestFits, InitialMargin64;
  }

  // What a request under a new key answers: the first thing that is wrong with it, or done.
  lemma OpenAnswers(db: Db, id: nat, user: User, market: Market, side: Side, size: int64, request: string)
    requires DbInv(db) && id !in db.positions && (request == "" || !exists p :: UsedBy(db, request, p))
    ensures var answer := OpenPosition(db, id, user, market, side, size, request).1;
      if size <= 0 then answer == Invalid
      else if market !in db.markets then answer == NotFound
      else if db.markets[market].state != MarketOpen then answer == Conflict
      else if InitialMargin64(side, size, db.markets[market].mark) <= 0 then answer == Invalid
      else if exists p :: OpenFor(db, user, market, p) then answer == Conflict
      else answer == Done || answer == Refused
  {
    hide DbInv, InitialMargin64, Move, HoldsOpen, RequestUsed, RequestFits;
    HoldsMeansOpen(db, user, market);
    UsedMeansUsed(db, request);
  }

  // A used key opens nothing: it answers done for exactly the position it opened, and else a conflict.
  lemma UsedKeyOpensNothing(db: Db, id: nat, user: User, market: Market, side: Side, size: int64, request: string,
      p: nat)
    requires Unique(db) && UsedBy(db, request, p) && request != "" && size > 0
    ensures var prior := db.positions[p];
      OpenPosition(db, id, user, market, side, size, request) ==
      (db, if prior.user == user && prior.market == market && prior.side == side && prior.size == size then Done
           else Conflict)
  {
    forall q | q in db.positions && db.positions[q].request == Some(request) ensures q == p {
      assert Clash(db.positions[q], db.positions[p]);
    }
    hide Move, HoldsOpen, Unique;
  }

  /* ----- every run ----- */

  lemma OpensKeepsUnique(db: Db, id: nat, user: User, market: Market, side: Side, size: int64, request: string)
    requires DbInv(db) && Unique(db) && id !in db.positions
    ensures Unique(OpenPosition(db, id, user, market, side, size, request).0)
  {
    hide DbInv, OpenPosition, InitialMargin64, BalanceOf;
    var db' := OpenPosition(db, id, user, market, side, size, request).0;
    OpensIff(db, id, user, market, side, size, request);
    if id in db'.positions {
      forall p | p in db.positions ensures !Clash(db.positions[p], db'.positions[id]) {
        assert !OpenFor(db, user, market, p) && (request == "" || !UsedBy(db, request, p));
      }
      ClashIsMutual(db, db', id);
    }
  }

  lemma ClashIsMutual(db: Db, db': Db, id: nat)
    requires Unique(db) && id !in db.positions && id in db'.positions
    requires db'.positions == db.positions[id := db'.positions[id]]
    requires forall p | p in db.positions :: !Clash(db.positions[p], db'.positions[id])
    ensures Unique(db')
  {
    forall p, q | p in db'.positions && q in db'.positions && p != q
        ensures !Clash(db'.positions[p], db'.positions[q]) {
      if p != id && q != id {
        assert !Clash(db.positions[p], db.positions[q]);
      }
    }
  }

  lemma ClosesOnlyCloses(db: Db, id: nat, mark: int64, liquidation: bool)
    requires DbInv(db)
    ensures OnlyClosed(db, ClosePosition(db, id, mark, liquidation).0)
  {
    hide DbInv, ClosePosition, CloseFits, BalanceOf, CloseShift;
    ClosePositionKeeps(db, id, mark, liquidation);
    if ClosePosition(db, id, mark, liquidation).1 == Done {
      CloseIs(db, id, mark, liquidation);
    }
  }

  lemma ConfirmOnlyCloses(db: Db, n: Nonce, height: int, hash: Hash)
    requires DbInv(db) && n in db.intents && InFlight(db.intents[n])
    ensures OnlyClosed(db, Confirm(db, n, height, hash).0)
  {
    hide DbInv, BooksSound, Keyed, Backed, ExternalExplained, Rows, Confirm, SettleMarketRows, MarketFits, BalanceOf,
         Resolved, IntentStep;
    DbParts(db);
    IntentRowOf(db, n);
    var i, db' := db.intents[n], Confirm(db, n, height, hash).0;
    if i.kind == Withdraw {
      ConfirmWithdrawal(db, n, height, hash);
    } else if i.kind == EscrowSet {
      ConfirmEscrow(db, n, height, hash);
    } else {
      SettlementShape(db, n, height, hash);
      SettleMarketKeeps(db, i.market, db.markets[i.market].outcome.value);
    }
  }

  lemma ResolveOnlyCloses(s: Sys, n: Nonce, late: bool)
    requires Inv(s) && n in s.db.intents && InFlight(s.db.intents[n])
    ensures OnlyClosed(s.db, Resolve(s, n, late).db)
  {
    hide Inv, DbInv, Resolve, Confirm, Expire, OnlyClosed, IntentRow;
    PartsOf(s);
    IntentOf(s, n);
    WithdrawalRow(s.db, n);
    ResolveOutcome(s, n, late);
    ConfirmOnlyCloses(s.db, n, TxStatus(s.chain, n).height, TxStatus(s.chain, n).hash);
    ExpireFrame(s.db, n, s.chain.head);
    SamePositionsClosed(s.db, Expire(s.db, n, s.chain.head).0);
    SamePositionsClosed(s.db, s.db);
  }

  lemma WithdrawalRow(db: Db, n: Nonce)
    requires n in db.intents && IntentRow(db, n)
    ensures db.intents[n].kind == Withdraw ==> db.intents[n].expiry > 0
  {
  }

  lemma MoneyLeavesPositions(s: Sys, step: Step)
    requires Allowed(s, step) && (step.RequestsWithdraw? || step.PostsOutside? || step.Applies? || step.Reverts?)
    ensures Next(s, step).db.positions == s.db.positions
  {
    hide RequestWithdraw, PostOutside, ApplyDeposit, RevertFact, OrphanedBlock, StatusOnly;
    match step {
      case RequestsWithdraw(id, user, amount, request, expiry) => RequestFrame(s.db, id, user, amount, request, expiry);
      case PostsOutside(text, user, credit) => OutsideFrame(s.db, text, user, credit);
      case Applies(e) => CreditFrame(s.db, e);
      case Reverts(e) => RevertFrame(s.db, e);
    }
  }

  lemma QuietLeavesPositions(s: Sys, step: Step)
    requires Allowed(s, step) && !step.Opens? && !step.Closes? && !step.Resolves?
    requires !step.RequestsWithdraw? && !step.PostsOutside? && !step.Applies? && !step.Reverts?
    ensures Next(s, step).db.positions == s.db.positions
  {
    hide Mine, SubmitTx, HeadState, CollateralIn, EscrowInFlight, OrphanedBlock, CanMine, Recorded;
  }

  lemma StepOnlyCloses(s: Sys, step: Step)
    requires Inv(s) && DbInv(s.db) && Allowed(s, step) && !step.Opens?
    ensures OnlyClosed(s.db, Next(s, step).db)
  {
    if step.Closes? {
      hide Inv, DbInv, OnlyClosed, ClosePosition;
      ClosesOnlyCloses(s.db, step.position, step.mark, step.liquidation);
    } else if step.Resolves? {
      hide Inv, DbInv, OnlyClosed, Resolve;
      ResolveOnlyCloses(s, step.intent, step.deadlinePassed);
    } else {
      hide Inv, DbInv, OnlyClosed, Next, Allowed;
      if step.RequestsWithdraw? || step.PostsOutside? || step.Applies? || step.Reverts? {
        MoneyLeavesPositions(s, step);
      } else {
        QuietLeavesPositions(s, step);
      }
      SamePositionsClosed(s.db, Next(s, step).db);
    }
  }

  lemma StepKeepsUnique(s: Sys, step: Step)
    requires Inv(s) && Allowed(s, step) && Unique(s.db)
    ensures Unique(Next(s, step).db)
  {
    hide Inv, DbInv, Unique, OnlyClosed;
    PartsOf(s);
    if step.Opens? {
      hide OpenPosition;
      OpensKeepsUnique(s.db, step.position, step.user, step.market, step.side, step.size, step.request);
    } else {
      hide Next, Allowed;
      StepOnlyCloses(s, step);
      ClosedStaysUnique(s.db, Next(s, step).db);
    }
  }

  lemma StartIsUnique(confirms: int)
    ensures Unique(Start(confirms).db)
  {
  }

  // In every run no user has two open positions in one market, and no key opens two positions.
  lemma {:induction false} PositionsStayUnique(s: Sys, steps: seq<Step>)
    requires Inv(s) && Unique(s.db) && IsTrace(s, steps)
    ensures Inv(Final(s, steps)) && Unique(Final(s, steps).db)
    decreases |steps|
  {
    hide Inv, Unique, Next;
    if steps != [] {
      StepKeeps(s, steps[0]);
      StepKeepsUnique(s, steps[0]);
      PositionsStayUnique(Next(s, steps[0]), steps[1..]);
    }
  }
}
