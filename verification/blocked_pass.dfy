/** A withdrawal that is never settled. A settlement whose payout has no room is refused at every
    pass of the resolver, and ends the pass before the younger withdrawal is reached. This module
    runs the engine, from genesis, into that state, and shows that it stays there. */
module BlockedPass {
  import opened Integers
  import opened Sums
  import opened GoVault
  import opened ChainModel
  import opened ChainBlocks
  import opened ChainInvariants
  import opened Accounts
  import opened Ledger
  import opened Margins
  import opened Store
  import opened StoreInvariants
  import opened System
  import opened SystemInvariants
  import opened SystemRefunds
  import opened Engine
  import opened Resolution
  import EarlyRefund
  import Refunds

  const MARKET: Market := "m"
  const SETTLEMENT := IntentId(1)
  const WITHDRAWAL := IntentId(2)

  // A long of 40 micro-shares at one half: five micro-units of collateral, worth 25 if it wins.
  function Bet(user: User): Position
  {
    Position(user, MARKET, Long, 40, 500_000, 5, OpenPos, None)
  }

  const SETTLING := Intent(SettleMarket, "", MARKET, 0, StateReserved, 0, 0, 0, 0)

  function Leaving(user: User): Intent
  {
    Intent(Withdraw, user, "", 1, StateReserved, 11, 0, 0, 1)
  }

  /* ----- the store ----- */

  // The user has deposited the largest amount there is, bet on the winning side, and withdraws.
  ghost predicate Overfull(db: Db, user: User)
  {
    && db.positions == map[0 := Bet(user)] && db.markets == map[MARKET := MarketRow(500_000, Settling, Some(ONE))]
    && BalanceOf(db.book, Available(user)) == MAX_INT64 - 6
    && db.intents == map[SETTLEMENT := SETTLING, WITHDRAWAL := Leaving(user)]
    && db.outbox == map[SETTLEMENT := SettleTx(SETTLEMENT, MARKET, ONE), WITHDRAWAL :=
        WithdrawTx(WITHDRAWAL, user, 1, 11)]
  }

  lemma BetCosts()
    ensures InitialMargin64(Long, 40, 500_000) == 5
  {
    assert Mul64(40, 500_000) == 20;
  }

  lemma BetPays(user: User)
    ensures SettlePayout(Bet(user), ONE) == 25
  {
    assert Mul64(40, Wrapped(ONE - 500_000)) == 20;
  }

  // The payout has no room.
  lemma SettlementDoesNotFit(db: Db, user: User)
    requires Overfull(db, user)
    ensures !ConfirmFits(db, SETTLEMENT)
  {
    var open := OpenIn(db, MARKET);
    assert open == {0} by {
      assert forall p :: p in open <==> p == 0;
    }
    AscendingUnfolds(open);
    AscendingUnfolds({});
    assert Greatest({0}) == 0 && {0} - {Greatest({0})} == {};
    var ids := Ascending(open);
    assert ids == [0];
    OnePayout(db, user, ids);
  }

  lemma OnePayout(db: Db, user: User, ids: seq<nat>)
    requires Overfull(db, user) && ids == [0]
    ensures !SettlementFits(db.book, db.positions, ids, ONE)
  {
    assert ids[..|ids| - 1] == [];
    BetPays(user);
    hide SettlePayout, BalanceOf;
    assert PaidOver(db.positions, ids, ONE, Available(user)) == 25;
    assert !Room(db.book, Available(user), PaidOver(db.positions, ids, ONE, Available(user)));
  }

  /* ----- how the engine gets there ----- */

  // Seeded, bet on, settled: the store before the withdrawal.
  ghost predicate Betting(db: Db, user: User)
  {
    && db.positions == map[0 := Bet(user)] && db.markets == map[MARKET := MarketRow(500_000, MarketOpen, None)]
    && BalanceOf(db.book, Available(user)) == MAX_INT64 - 5
    && db.intents == map[] && db.outbox == map[] && db.requests == map[] && db.frozen == {}
  }

  lemma NoMarginYet(db: Db, user: User)
    requires DbInv(db) && db.positions == map[]
    ensures BalanceOf(db.book, Margin(user)) == 0
  {
    assert BackedFor(db, user);
    SumOfNothing(db.positions, CollateralFor(user));
  }

  lemma BetIsPlaced(db: Db, user: User)
    requires DbInv(db) && db.positions == map[] && db.markets == map[MARKET := MarketRow(500_000, MarketOpen, None)]
    requires BalanceOf(db.book, Available(user)) == MAX_INT64
    requires db.intents == map[] && db.outbox == map[] && db.requests == map[] && db.frozen == {}
    ensures Betting(OpenPosition(db, 0, user, MARKET, Long, 40, "").0, user)
  {
    NoMarginYet(db, user);
    BetCosts();
    hide DbInv, BooksSound, Keyed, Backed, ExternalExplained, Rows, BalanceOf, KeyUsed, Move, InitialMargin64;
    DbParts(db);
    UnusedKey(db, OpenKey(0));
    TwoLegMove(db, OpenKey(0), Available(user), Margin(user), 5);
    MoveOnlyBook(db, OpenKey(0), OpenLegs(user, 5));
    assert Shift(Available(user), Margin(user), 5, Available(user)) == -5;
  }

  lemma SettlementIsRequested(db: Db, user: User)
    requires Betting(db, user)
    ensures var db' := RequestSettlement(db, SETTLEMENT, MARKET, ONE).0;
      && db' == db.(intents := map[SETTLEMENT := SETTLING], requests := db'.requests, outbox := db'.outbox, markets :=
          db'.markets)
      && db'.outbox == map[SETTLEMENT := SettleTx(SETTLEMENT, MARKET, ONE)]
      && db'.markets == map[MARKET := MarketRow(500_000, Settling, Some(ONE))]
  {
  }

  lemma WithdrawalIsRequested(db: Db, user: User)
    requires DbInv(db) && db.intents == map[SETTLEMENT := SETTLING] && db.frozen == {}
    requires BalanceOf(db.book, Available(user)) == MAX_INT64 - 5
    ensures var db' := RequestWithdraw(db, WITHDRAWAL, user, 1, "", 11).0;
      && db' == db.(book := db'.book, intents := db'.intents, requests := db'.requests, outbox := db'.outbox)
      && db'.intents == map[SETTLEMENT := SETTLING, WITHDRAWAL := Leaving(user)]
      && db'.outbox == db.outbox[WITHDRAWAL := WithdrawTx(WITHDRAWAL, user, 1, 11)]
      && BalanceOf(db'.book, Available(user)) == MAX_INT64 - 6
  {
    RequestFrame(db, WITHDRAWAL, user, 1, "", 11);
    NothingPending(db, user);
    RequestWithdrawOutcome(db, WITHDRAWAL, user, 1, "", 11);
    hide DbInv, BalanceOf, BooksSound, Keyed, Rows, Backed, ExternalExplained, KeyUsed, RequestWithdraw, MovedOnly;
    DbParts(db);
    UnusedKey(db, ReserveKey(WITHDRAWAL));
    RequestWithdrawShape(db, WITHDRAWAL, user, 1, "", 11);
    assert Shift(Available(user), Pending(user), 1, Available(user)) == -1;
  }

  lemma NothingPending(db: Db, user: User)
    requires DbInv(db) && db.intents == map[SETTLEMENT := SETTLING]
    ensures BalanceOf(db.book, Pending(user)) == 0
  {
    assert BackedFor(db, user);
    var none: map<Nonce, Intent> := map[];
    SumOfNothing(none, ReservedFor(user));
    SumOfUpdate(none, ReservedFor(user), SETTLEMENT, SETTLING);
    assert db.intents == none[SETTLEMENT := SETTLING];
  }

  lemma Queues(c: Chain, t: Tx)
    requires ChainInv(c) && t.nonce !in HeadState(c).processed && t.nonce !in HeadState(c).cancelled
    requires t.expiry <= 0 || c.head <= t.expiry
    ensures SubmitTx(c, t, Deliver).0 == c.(mempool := c.mempool + [t])
  {
    HeadKnows(c, t.nonce);
    assert TruthfulAbout(c, t.nonce);
  }

  // Both payloads wait on a chain that holds the deposit and nothing else.
  ghost predicate Waits(c: Chain, user: User)
  {
    && c.head == 1 && c.confirms == 3 && |c.pending| <= 3 && HeadState(c) == EarlyRefund.Funded(MAX_INT64)
    && c.mempool == [SettleTx(SETTLEMENT, MARKET, ONE), WithdrawTx(WITHDRAWAL, user, 1, 11)]
  }

  lemma FundedHasSeen(n: Nonce, m: Nonce)
    requires n.IntentId? && m.IntentId?
    ensures var v := EarlyRefund.Funded(MAX_INT64); {n, m} !! v.processed + v.cancelled
  {
  }

  lemma HeadIgnoresPool(c: Chain, pool: seq<Tx>)
    ensures HeadState(c.(mempool := pool)) == HeadState(c)
  {
  }

  lemma BothQueue(c: Chain, user: User)
    requires ChainInv(c) && EarlyRefund.Idle(c, EarlyRefund.Funded(MAX_INT64), 0) && c.head == 1
    ensures var c1 := SubmitTx(c, SettleTx(SETTLEMENT, MARKET, ONE), Deliver).0;
      Waits(SubmitTx(c1, WithdrawTx(WITHDRAWAL, user, 1, 11), Deliver).0, user)
  {
    var t1, t2 := SettleTx(SETTLEMENT, MARKET, ONE), WithdrawTx(WITHDRAWAL, user, 1, 11);
    var c1 := c.(mempool := [t1]);
    hide ChainInv, HeadState, SubmitTx, Canon, Shaped, EarlyRefund.Funded;
    HeadIgnoresPool(c, [t1]);
    HeadIgnoresPool(c, [t1, t2]);
    FundedHasSeen(t1.nonce, t2.nonce);
    assert [] + [t1] == [t1] && [t1] + [t2] == [t1, t2];
    Queues(c, t1);
    PoolOnly(c, c1);
    Queues(c1, t2);
  }

  // The whole of it: a legitimate run from genesis.
  lemma GetsThere(user: User) returns (steps: seq<Step>, s: Sys)
    ensures EarlyRefund.Reaches(steps, s) && Overfull(s.db, user) && Waits(s.chain, user)
  {
    hide Inv, DbInv, ChainInv, Shaped, EarlyRefund.Reaches, EarlyRefund.Idle, EarlyRefund.Rooted, OpenPosition,
         RequestSettlement, RequestWithdraw, SubmitTx, SeedMarket, BalanceOf, Waits;
    steps, s := EarlyRefund.Fund(user, MAX_INT64);
    steps, s := EarlyRefund.Credit(steps, s, user, MAX_INT64, 0);
    steps, s := Seed(steps, s);
    steps, s := PlaceBet(steps, s, user);
    steps, s := AskSettlement(steps, s, user);
    steps, s := AskWithdrawal(steps, s, user);
    steps, s := SubmitBoth(steps, s, user);
  }

  lemma Seed(steps: seq<Step>, s: Sys) returns (steps': seq<Step>, s': Sys)
    requires EarlyRefund.Reaches(steps, s) && s.db.markets == map[]
    ensures EarlyRefund.Reaches(steps', s') && s'.chain == s.chain
    ensures s'.db == s.db.(markets := map[MARKET := MarketRow(500_000, MarketOpen, None)])
  {
    hide EarlyRefund.Reaches;
    EarlyRefund.Extend(steps, s, Seeds(MARKET, 500_000));
    steps', s' := steps + [Seeds(MARKET, 500_000)], Next(s, Seeds(MARKET, 500_000));
  }

  lemma PlaceBet(steps: seq<Step>, s: Sys, user: User) returns (steps': seq<Step>, s': Sys)
    requires EarlyRefund.Reaches(steps, s)
    requires s.db.positions == map[] && s.db.markets == map[MARKET := MarketRow(500_000, MarketOpen, None)]
    requires BalanceOf(s.db.book, Available(user)) == MAX_INT64
    requires s.db.intents == map[] && s.db.outbox == map[] && s.db.requests == map[] && s.db.frozen == {}
    ensures EarlyRefund.Reaches(steps', s') && s'.chain == s.chain && Betting(s'.db, user)
  {
    hide Inv, DbInv, ChainInv, Shaped, EarlyRefund.Reaches, OpenPosition, BalanceOf, Betting;
    EarlyRefund.ReachesInv(steps, s);
    PartsOf(s);
    var step := Opens(0, user, MARKET, Long, 40, "");
    BetIsPlaced(s.db, user);
    EarlyRefund.Extend(steps, s, step);
    steps', s' := steps + [step], Next(s, step);
  }

  lemma AskSettlement(steps: seq<Step>, s: Sys, user: User) returns (steps': seq<Step>, s': Sys)
    requires EarlyRefund.Reaches(steps, s) && Betting(s.db, user)
    ensures EarlyRefund.Reaches(steps', s') && s'.chain == s.chain
    ensures s'.db == s.db.(intents := map[SETTLEMENT := SETTLING], requests := s'.db.requests,
                           outbox := map[SETTLEMENT := SettleTx(SETTLEMENT, MARKET, ONE)],
                           markets := map[MARKET := MarketRow(500_000, Settling, Some(ONE))])
  {
    hide EarlyRefund.Reaches, RequestSettlement, BalanceOf;
    var step := RequestsSettlement(SETTLEMENT, MARKET, ONE);
    SettlementIsRequested(s.db, user);
    EarlyRefund.Extend(steps, s, step);
    steps', s' := steps + [step], Next(s, step);
  }

  lemma AskWithdrawal(steps: seq<Step>, s: Sys, user: User) returns (steps': seq<Step>, s': Sys)
    requires EarlyRefund.Reaches(steps, s) && s.db.intents == map[SETTLEMENT := SETTLING] && s.db.frozen == {}
    requires BalanceOf(s.db.book, Available(user)) == MAX_INT64 - 5 && s.chain.head == 1
    ensures EarlyRefund.Reaches(steps', s') && s'.chain == s.chain
    ensures s'.db == s.db.(book := s'.db.book, requests := s'.db.requests,
                           intents := map[SETTLEMENT := SETTLING, WITHDRAWAL := Leaving(user)],
                           outbox := s.db.outbox[WITHDRAWAL := WithdrawTx(WITHDRAWAL, user, 1, 11)])
    ensures BalanceOf(s'.db.book, Available(user)) == MAX_INT64 - 6
  {
    hide Inv, DbInv, ChainInv, Shaped, EarlyRefund.Reaches, RequestWithdraw, BalanceOf;
    EarlyRefund.ReachesInv(steps, s);
    PartsOf(s);
    var step := RequestsWithdraw(WITHDRAWAL, user, 1, "", 11);
    WithdrawalIsRequested(s.db, user);
    EarlyRefund.Extend(steps, s, step);
    steps', s' := steps + [step], Next(s, step);
  }

  lemma SubmitBoth(steps: seq<Step>, s: Sys, user: User) returns (steps': seq<Step>, s': Sys)
    requires EarlyRefund.Reaches(steps, s) && Overfull(s.db, user)
    requires EarlyRefund.Idle(s.chain, EarlyRefund.Funded(MAX_INT64), 0) && s.chain.head == 1
    ensures EarlyRefund.Reaches(steps', s') && s'.db == s.db && Waits(s'.chain, user)
  {
    hide Inv, DbInv, ChainInv, Shaped, EarlyRefund.Reaches, EarlyRefund.Idle, SubmitTx, Waits, BalanceOf;
    EarlyRefund.ReachesInv(steps, s);
    PartsOf(s);
    BothQueue(s.chain, user);
    EarlyRefund.Submitted(steps, s, SETTLEMENT);
    var s1 := s.(chain := SubmitTx(s.chain, s.db.outbox[SETTLEMENT], Deliver).0);
    EarlyRefund.Submitted(steps + [Submits(SETTLEMENT, Deliver)], s1, WITHDRAWAL);
    steps' := steps + [Submits(SETTLEMENT, Deliver)] + [Submits(WITHDRAWAL, Deliver)];
    s' := s1.(chain := SubmitTx(s1.chain, s1.db.outbox[WITHDRAWAL], Deliver).0);
  }

  /* ----- and stays there ----- */

  // Both calls stand in the second block of a chain on which nothing else waits.
  ghost predicate Landed2(c: Chain)
  {
    c.confirms == 3 && |c.pending| <= 3 && c.mempool == [] &&
        Site(Canon(c), SETTLEMENT) == Site(Canon(c), WITHDRAWAL) == 1
  }

  lemma PoolOfTwo(v: Vault, t1: Tx, t2: Tx, height: int)
    requires Apply(v, t1, height).ok && Apply(Apply(v, t1, height).vault, t2, height).ok
    ensures Included(v, [t1, t2], height) == [t1, t2]
  {
    PoolStateSnoc(v, [], t1, height);
    PoolStateSnoc(v, [t1], t2, height);
    assert [] + [t1] == [t1] && [t1] + [t2] == [t1, t2];
    EarlyRefund.PoolStateOfNothing(v, height);
  }

  lemma BothAreMined(c: Chain, user: User)
    requires ChainInv(c) && Waits(c, user)
    ensures Included(HeadState(c), c.mempool, 2) == c.mempool && |Canon(c)| == 1
  {
    hide ChainInv, HeadState, Included;
    assert |Canon(c)| == c.head by {
      CanonHeight(c);
    }
    BothAccepted(HeadState(c), SettleTx(SETTLEMENT, MARKET, ONE), WithdrawTx(WITHDRAWAL, user, 1, 11), 2);
  }

  lemma CanonHeight(c: Chain)
    requires ChainInv(c)
    ensures |Canon(c)| == c.head
  {
  }

  lemma BothAccepted(v: Vault, t1: Tx, t2: Tx, height: int)
    requires v == EarlyRefund.Funded(MAX_INT64) && t1.nonce.IntentId? && t2.nonce.IntentId? && t1.nonce != t2.nonce
    requires t1.kind == SettleMarket && t1.expiry == 0 && t2.kind == Withdraw && t2.amount > 0 && height <= t2.expiry
    ensures Included(v, [t1, t2], height) == [t1, t2]
  {
    var v1 := Apply(v, t1, height).vault;
    assert v1.escrow == map[] && Sum(v1.escrow) == 0;
    hide Included, Sum;
    PoolOfTwo(v, t1, t2, height);
  }

  lemma FirstBlockLands(c: Chain, user: User, hash: Hash)
    requires ChainInv(c) && Waits(c, user) && hash !in c.used
    ensures var c' := Mine(c, 0, [], hash); Landed2(c') && ChainInv(c') && c'.head == c.head + 1
  {
    BothAreMined(c, user);
    var b := NextBlock(c, hash);
    assert b.txs == c.mempool;
    assert Carries(b.txs, SETTLEMENT) && Carries(b.txs, WITHDRAWAL) by {
      assert b.txs[0].nonce == SETTLEMENT && b.txs[1].nonce == WITHDRAWAL;
    }
    hide ChainInv, HeadState, Mine, NextBlock, Canon, Included, Site;
    EarlyRefund.Mined(c, hash);
    SiteSnoc(Canon(c), b, SETTLEMENT);
    SiteSnoc(Canon(c), b, WITHDRAWAL);
  }

  lemma EmptyBlockKeeps(c: Chain, hash: Hash)
    requires ChainInv(c) && Landed2(c) && hash !in c.used
    ensures var c' := Mine(c, 0, [], hash); Landed2(c') && ChainInv(c') && c'.head == c.head + 1
  {
    assert NextBlock(c, hash).txs == [] by {
      assert Included(HeadState(c), [], c.head + 1) == [];
    }
    hide ChainInv, HeadState, Mine, NextBlock, Canon, Included, Site;
    EarlyRefund.Mined(c, hash);
    SiteSnoc(Canon(c), NextBlock(c, hash), SETTLEMENT);
    SiteSnoc(Canon(c), NextBlock(c, hash), WITHDRAWAL);
  }

  lemma BothStatus(c: Chain)
    requires ChainInv(c) && Landed2(c)
    ensures TxStatus(c, SETTLEMENT).processed && TxStatus(c, WITHDRAWAL).processed
    ensures TxStatus(c, SETTLEMENT).finalized <==> |c.history| >= 2
    ensures TxStatus(c, WITHDRAWAL).finalized <==> |c.history| >= 2
  {
    assert TruthfulAbout(c, SETTLEMENT) && TruthfulAbout(c, WITHDRAWAL);
  }

  // The pass changes nothing: as long as the calls are not final it waits, and then it is ended by
  // the settlement.
  lemma PassDoesNothing(s: Sys, user: User) returns (visits: nat)
    requires Inv(s) && Overfull(s.db, user) && Landed2(s.chain)
    ensures var queue := [SETTLEMENT, WITHDRAWAL];
      && visits <= 2 && IsPass(s, queue, {}, visits) && ResolveAll(s, queue[..visits], {}) == s
  {
    QueueIs(s.db, user);
    PartsOf(s);
    BothStatus(s.chain);
    SettlementDoesNotFit(s.db, user);
    BothWait(s.db, user);
    hide Inv, DbInv, ChainInv, Overfull, IsQueue, Landed2, ConfirmFits;
    OneVisit(s, SETTLEMENT);
    OneVisit(s, WITHDRAWAL);
    visits := if TxStatus(s.chain, SETTLEMENT).finalized then 1 else 2;
    TwoVisits(s, SETTLEMENT, WITHDRAWAL, visits);
  }

  lemma BothWait(db: Db, user: User)
    requires Overfull(db, user)
    ensures SETTLEMENT in db.intents && InFlight(db.intents[SETTLEMENT])
    ensures WITHDRAWAL in db.intents && InFlight(db.intents[WITHDRAWAL])
  {
  }

  // A pass over two intents whose visits leave the state alone, ended by the first or by neither.
  lemma TwoVisits(s: Sys, m: Nonce, n: Nonce, visits: nat)
    requires IsQueue(s.db, [m, n]) && m in s.db.intents && n in s.db.intents && Resolve(s, m, false) == s
    requires if GoesOn(ResolveAnswer(s, m, false))
             then visits == 2 && Resolve(s, n, false) == s && GoesOn(ResolveAnswer(s, n, false)) else visits == 1
    ensures IsPass(s, [m, n], {}, visits) && ResolveAll(s, [m, n][..visits], {}) == s
  {
    hide Resolve, ResolveAnswer, IsQueue;
    var none: seq<Nonce> := [];
    assert ResolveAll(s, none, {}) == s && Smooth(s, none, {});
    assert none + [m] == [m] && [m] + [n] == [m, n] && [m, n][..1] == [m] && [m, n][..2] == [m, n] &&
        [m, n][..0] == none;
    hide ResolveAll, Smooth;
    OneMoreAnswer(s, s, none, {}, m);
    OneMoreAnswer(s, s, [m], {}, n);
  }

  // One visit to a call that has landed: nothing before finality, and the confirmation after.
  lemma OneVisit(s: Sys, n: Nonce)
    requires Inv(s) && n in s.db.intents && InFlight(s.db.intents[n]) && TxStatus(s.chain, n).processed
    ensures !TxStatus(s.chain, n).finalized ==> Resolve(s, n, false) == s && GoesOn(ResolveAnswer(s, n, false))
    ensures TxStatus(s.chain, n).finalized && !ConfirmFits(s.db, n) ==>
              Resolve(s, n, false) == s && !GoesOn(ResolveAnswer(s, n, false))
  {
    hide Inv, DbInv, Confirm, ConfirmFits, IntentStep, ConfirmedStep;
    PartsOf(s);
    ConfirmKeeps(s.db, n, TxStatus(s.chain, n).height, TxStatus(s.chain, n).hash);
  }

  lemma QueueIs(db: Db, user: User)
    requires Overfull(db, user)
    ensures IsQueue(db, [SETTLEMENT, WITHDRAWAL])
  {
  }

  lemma OneRound(s: Sys, user: User) returns (r: Round)
    requires Inv(s) && Overfull(s.db, user) && (Waits(s.chain, user) || Landed2(s.chain))
    ensures IsRound(s, r) && var s' := AfterRound(s, r);
      Inv(s') && s'.db == s.db && Landed2(s'.chain) && s'.chain.head == s.chain.head + 1
  {
    hide Inv, Overfull, Mine, Waits, Landed2, ChainInv, Shaped, DbInv, IsPass, ResolveAll;
    var hash := Refunds.FreshHash(s.chain.used);
    PartsOf(s);
    var s1 := s.(chain := Mine(s.chain, 0, [], hash));
    if Waits(s.chain, user) {
      FirstBlockLands(s.chain, user, hash);
    } else {
      EmptyBlockKeeps(s.chain, hash);
    }
    MinesKeeps(s, 0, [], hash);
    var visits := PassDoesNothing(s1, user);
    r := Round([], hash, [SETTLEMENT, WITHDRAWAL], visits, {});
    assert IsTrace(s, []) && Final(s, []) == s && AllQuiet([]);
  }

  // However many rounds go by, nothing changes any more.
  lemma {:induction false} NothingHelps(s: Sys, user: User, count: nat) returns (rounds: seq<Round>)
    requires Inv(s) && Overfull(s.db, user) && (Waits(s.chain, user) || Landed2(s.chain))
    ensures |rounds| == count && AreRounds(s, rounds)
    ensures var s' := AfterRounds(s, rounds);
      Inv(s') && s'.db == s.db && s'.chain.head == s.chain.head + count && (count > 0 ==> Landed2(s'.chain))
    decreases count
  {
    hide Inv, Overfull, Waits, Landed2, IsRound, AfterRound;
    if count == 0 {
      rounds := [];
    } else {
      var r := OneRound(s, user);
      var rest := NothingHelps(AfterRound(s, r), user, count - 1);
      rounds := [r] + rest;
      assert rounds[0] == r && rounds[1..] == rest;
    }
  }

  // For any user there is a legitimate run to a state in which a withdrawal is on track, and from
  // there any number of rounds through which it stays in flight: past its bound, and long after the
  // chain has finally paid it.
  lemma WithdrawalBlockedForEver(user: User, count: nat) returns (steps: seq<Step>, rounds: seq<Round>)
    ensures IsTrace(Start(3), steps) && Legitimate(steps)
    ensures var s := Final(Start(3), steps);
      && WithdrawalOf(s, WITHDRAWAL) && OnTrack(s, WITHDRAWAL) && Bound(s, WITHDRAWAL) == 14
      && |rounds| == count && AreRounds(s, rounds)
      && var s' := AfterRounds(s, rounds);
        && WithdrawalOf(s', WITHDRAWAL) && InFlight(s'.db.intents[WITHDRAWAL]) && s'.chain.head == 1 + count
        && (count >= 4 ==> TxStatus(s'.chain, WITHDRAWAL).finalized)
  {
    hide Inv, EarlyRefund.Reaches, AfterRounds, AreRounds, ChainInv, DbInv;
    var s;
    steps, s := GetsThere(user);
    EarlyRefund.ReachesInv(steps, s);
    EarlyRefund.ReachesRun(steps, s);
    rounds := NothingHelps(s, user, count);
    var s' := AfterRounds(s, rounds);
    if count >= 4 {
      PartsOf(s');
      BothStatus(s'.chain);
    }
  }
}
