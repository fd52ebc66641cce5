/** How much room the ledger needs. If custody as a whole, with what the settlements that are due may
    still pay out, fits 64 bits, then every visit of the resolver up to a withdrawal's own finds room,
    and the withdrawal is settled in time. */
module Headroom {
  import opened Integers
  import opened Sums
  import opened GoVault
  import opened ChainModel
  import opened ChainInvariants
  import opened Accounts
  import opened Ledger
  import opened Margins
  import opened Store
  import opened StoreInvariants
  import opened System
  import opened SystemInvariants
  import opened Prices
  import opened Engine
  import opened Resolution

  /* ----- custody as a whole ----- */

  // What all users' accounts hold together.
  function Held(b: Book): int
  {
    -(BalanceOf(b, External) + BalanceOf(b, Insurance) + BalanceOf(b, Fees))
  }

  lemma SumWithout(m: map<Account, int>, a: Account)
    ensures Sum(m) == (if a in m then m[a] else 0) + Sum(m - {a})
  {
    if a in m {
      SumRemove(m, a);
    } else {
      assert m - {a} == m;
    }
  }

  // Two accounts of users never hold more than all of them.
  lemma TwoHoldAtMostAll(b: Book, x: Account, y: Account)
    requires BooksSound(b) && Custody(x) && Custody(y) && x != y
    ensures 0 <= BalanceOf(b, x) && 0 <= BalanceOf(b, y) && BalanceOf(b, x) + BalanceOf(b, y) <= Held(b)
  {
    assert Sum(b.balances) == 0 && forall a :: Custody(a) ==> BalanceOf(b, a) >= 0;
    var users := b.balances - {External} - {Insurance} - {Fees};
    SumWithout(b.balances, External);
    SumWithout(b.balances - {External}, Insurance);
    SumWithout(b.balances - {External} - {Insurance}, Fees);
    forall a | a in users ensures users[a] >= 0 {
      assert Custody(a) && users[a] == BalanceOf(b, a);
    }
    hide BooksSound, Sum;
    SumWithout(users, x);
    SumWithout(users - {x}, y);
    SumNonNegative(users - {x} - {y});
  }

  /* ----- the guard ----- */

  function RiskIn(markets: set<Market>): Position -> int
  {
    (p: Position) => if p.state == OpenPos && p.market in markets then RiskOf(p) else 0
  }

  function CollateralOf(markets: set<Market>): Position -> int
  {
    (p: Position) => if p.state == OpenPos && p.market in markets then p.collateral as int else 0
  }

  // Custody and the insurance fund stay within 64 bits even if every open position of these markets
  // is paid what it can gain at most.
  ghost predicate HasRoom(db: Db, due: set<Market>)
  {
    var risk, collateral := SumOf(db.positions, RiskIn(due)), SumOf(db.positions, CollateralOf(due));
    && Held(db.book) + risk <= MAX_INT64
    && -MAX_INT64 <= BalanceOf(db.book, Insurance) - risk && BalanceOf(db.book, Insurance) + collateral <= MAX_INT64
    && 0 <= BalanceOf(db.book, Fees)
  }

  lemma RiskAtLeast(db: Db, due: set<Market>)
    requires Priced(db)
    ensures 0 <= SumOf(db.positions, RiskIn(due)) && 0 <= SumOf(db.positions, CollateralOf(due))
    ensures forall id | id in db.positions && db.positions[id].state == OpenPos && db.positions[id].market in due ::
              RiskOf(db.positions[id]) <= SumOf(db.positions, RiskIn(due)) &&
              db.positions[id].collateral <= SumOf(db.positions, CollateralOf(due))
  {
    forall id | id in db.positions
      ensures RiskIn(due)(db.positions[id]) >= 0 && CollateralOf(due)(db.positions[id]) >= 0
    {
      assert PricedPosition(db.positions[id]);
      PayoutRisk(db.positions[id], 0);
    }
    hide Priced, RiskOf;
    SumOfNonNegative(db.positions, RiskIn(due));
    SumOfNonNegative(db.positions, CollateralOf(due));
    forall id | id in db.positions && db.positions[id].state == OpenPos && db.positions[id].market in due
      ensures RiskOf(db.positions[id]) <= SumOf(db.positions, RiskIn(due))
      ensures db.positions[id].collateral <= SumOf(db.positions, CollateralOf(due))
    {
      SumOfBounds(db.positions, RiskIn(due), id);
      SumOfBounds(db.positions, CollateralOf(due), id);
    }
  }

  // A withdrawal in flight can be confirmed and refunded as long as custody as a whole fits 64 bits and
  // the house's own accounts are not at the very bottom of the column.
  lemma WithdrawalFits(db: Db, n: Nonce)
    requires DbInv(db) && n in db.intents && InFlight(db.intents[n]) && db.intents[n].kind == Withdraw
    requires Held(db.book) <= MAX_INT64 && -MAX_INT64 <= BalanceOf(db.book, Insurance) + BalanceOf(db.book, Fees)
    ensures RefundFits(db, n) && ConfirmFits(db, n)
  {
    hide DbInv, BooksSound, Keyed, Backed, ExternalExplained, Rows, BalanceOf;
    DbParts(db);
    ReservationCovers(db, n);
    var user := db.intents[n].user;
    TwoHoldAtMostAll(db.book, Available(user), Pending(user));
    SoundBalance(db.book, External);
  }

  // That is so whenever the house holds anything at all.
  lemma SolventHouseIsEnough(db: Db, n: Nonce)
    requires DbInv(db) && n in db.intents && InFlight(db.intents[n]) && db.intents[n].kind == Withdraw
    requires BalanceOf(db.book, Insurance) + BalanceOf(db.book, Fees) > 0
    ensures RefundFits(db, n) && ConfirmFits(db, n)
  {
    hide DbInv, BooksSound, Keyed, Backed, ExternalExplained, Rows, BalanceOf, RefundFits, ConfirmFits;
    DbParts(db);
    SoundBalance(db.book, External);
    WithdrawalFits(db, n);
  }

  // With the room of the guard so it is too.
  lemma WithdrawalHasRoom(db: Db, due: set<Market>, n: Nonce)
    requires DbInv(db) && Priced(db) && HasRoom(db, due)
    requires n in db.intents && InFlight(db.intents[n]) && db.intents[n].kind == Withdraw
    ensures RefundFits(db, n) && ConfirmFits(db, n)
  {
    hide DbInv, Priced, BalanceOf, SumOf, RiskIn, CollateralOf, RefundFits, ConfirmFits;
    RiskAtLeast(db, due);
    WithdrawalFits(db, n);
  }

  lemma CloseHasRoom(db: Db, due: set<Market>, id: nat, outcome: int64)
    requires DbInv(db) && Priced(db) && HasRoom(db, due) && (outcome == 0 || outcome == ONE)
    requires id in db.positions && db.positions[id].state == OpenPos && db.positions[id].market in due
    ensures CloseFits(db.book, db.positions[id], SettlePayout(db.positions[id], outcome))
  {
    var p := db.positions[id];
    assert PricedPosition(p);
    PayoutRisk(p, outcome);
    hide DbInv, BooksSound, Keyed, Backed, ExternalExplained, Rows, Priced, BalanceOf, SumOf, RiskIn, CollateralOf,
         RiskOf, SettlePayout, PricedPosition, Room, CloseShift;
    DbParts(db);
    RiskAtLeast(db, due);
    MarginCovers(db, id);
    TwoHoldAtMostAll(db.book, Available(p.user), Margin(p.user));
    forall a ensures Room(db.book, a, CloseShift(p, SettlePayout(p, outcome), a)) {
      SoundBalance(db.book, a);
      ShiftFits(db.book, p, SettlePayout(p, outcome), a);
    }
  }

  lemma ShiftFits(b: Book, p: Position, payout: int64, a: Account)
    requires FitsInt64(BalanceOf(b, a)) && 0 < p.collateral <= BalanceOf(b, Margin(p.user)) && 0 <= payout
    requires 0 <= BalanceOf(b, Available(p.user)) && BalanceOf(b, Available(p.user)) + payout <= MAX_INT64
    requires -MAX_INT64 <= BalanceOf(b, Insurance) + p.collateral - payout
    requires BalanceOf(b, Insurance) + p.collateral <= MAX_INT64
    ensures Room(b, a, CloseShift(p, payout, a))
  {
    hide BalanceOf;
  }

  // Paying one position out takes no more room than was set aside for it.
  lemma CloseLeavesRoom(db: Db, db': Db, due: set<Market>, id: nat, payout: int64)
    requires HasRoom(db, due) && id in db.positions && db.positions[id].state == OpenPos &&
        db.positions[id].market in due
    requires 0 <= payout && payout - db.positions[id].collateral <= RiskOf(db.positions[id])
    requires db'.positions == db.positions[id := db.positions[id].(state := ClosedPos)]
    requires forall a :: BalanceOf(db'.book, a) == BalanceOf(db.book, a) + CloseShift(db.positions[id], payout, a)
    ensures HasRoom(db', due)
  {
    var p := db.positions[id].(state := ClosedPos);
    SumOfUpdate(db.positions, RiskIn(due), id, p);
    SumOfUpdate(db.positions, CollateralOf(due), id, p);
    hide SumOf, BalanceOf, RiskOf;
  }

  lemma SettleOneHasRoom(db: Db, due: set<Market>, id: nat, market: Market, outcome: int64)
    requires DbInv(db) && Priced(db) && HasRoom(db, due) && market in due && id in OpenIn(db, market)
    requires outcome == 0 || outcome == ONE
    ensures SettleOne(db, id, outcome).1 == Done && HasRoom(SettleOne(db, id, outcome).0, due)
  {
    var p := db.positions[id];
    assert PricedPosition(p);
    PayoutRisk(p, outcome);
    hide DbInv, Priced, HasRoom, SettleOne, RiskOf, SettlePayout, CloseFits, BalanceOf, HeldOrOwed;
    CloseHasRoom(db, due, id, outcome);
    SettleOneKeeps(db, id, market, outcome);
    CloseLeavesRoom(db, SettleOne(db, id, outcome).0, due, id, SettlePayout(p, outcome));
  }

  lemma {:induction false} SettleAllHasRoom(db: Db, due: set<Market>, ids: seq<nat>, market: Market, outcome: int64)
    requires DbInv(db) && Priced(db) && HasRoom(db, due) && market in due && (outcome == 0 || outcome == ONE)
    requires Increasing(ids) && forall p | p in ids :: p in db.positions && p in OpenIn(db, market)
    ensures SettleAll(db, ids, outcome).1 == Done && HasRoom(SettleAll(db, ids, outcome).0, due)
    decreases |ids|
  {
    hide DbInv, Priced, HasRoom, SettleOne, PartlySettled, SettlementFits;
    if ids != [] {
      var rest, id := ids[..|ids| - 1], ids[|ids| - 1];
      assert ids == rest + [id];
      SettleAllHasRoom(db, due, rest, market, outcome);
      SettleAllKeeps(db, rest, market, outcome);
      SettleAllIsPriced(db, rest, outcome);
      var before := SettleAll(db, rest, outcome).0;
      StillOpen(db, before, rest, id, market, outcome);
      SettleOneHasRoom(before, due, id, market, outcome);
    }
  }

  lemma StillOpen(db: Db, before: Db, rest: seq<nat>, id: nat, market: Market, outcome: int64)
    requires (forall p | p in rest :: p in db.positions) && PartlySettled(db, before, rest, market, outcome)
    requires id !in rest && id in OpenIn(db, market)
    ensures DbInv(before) && id in OpenIn(before, market)
  {
    hide DbInv, HeldOrOwed, PaidOver, BalanceOf;
    SameRow(db, before, rest, id);
  }

  // A due settlement can be paid out.
  lemma SettlementHasRoom(db: Db, due: set<Market>, market: Market)
    requires DbInv(db) && Priced(db) && HasRoom(db, due) && market in due
    requires market in db.markets && db.markets[market].state != MarketOpen && db.markets[market].outcome.Some?
    ensures var outcome := db.markets[market].outcome.value;
      MarketFits(db, market, outcome) && HasRoom(SettleMarketRows(db, market, outcome).0, due)
  {
    assert PricedMarket(db.markets[market]);
    hide DbInv, Priced, HasRoom, SettleAll, SettlementFits, Ascending;
    var outcome, ids := db.markets[market].outcome.value, Ascending(OpenIn(db, market));
    AscendingEnumerates(OpenIn(db, market));
    SettleAllHasRoom(db, due, ids, market, outcome);
    SettleAllKeeps(db, ids, market, outcome);
    var paid := SettleAll(db, ids, outcome).0;
    SamePositionsSameRoom(paid, SettleMarketRows(db, market, outcome).0, due);
  }

  lemma SamePositionsSameRoom(db: Db, db': Db, due: set<Market>)
    requires db'.positions == db.positions
    requires Held(db'.book) <= Held(db.book) && BalanceOf(db'.book, Insurance) == BalanceOf(db.book, Insurance)
    requires BalanceOf(db'.book, Fees) == BalanceOf(db.book, Fees)
    ensures HasRoom(db, due) ==> HasRoom(db', due)
  {
  }

  /* ----- one visit ----- */

  lemma ConfirmHasRoom(db: Db, due: set<Market>, n: Nonce, height: int, hash: Hash)
    requires DbInv(db) && Priced(db) && HasRoom(db, due) && n in db.intents && InFlight(db.intents[n])
    requires db.intents[n].kind == SettleMarket ==> db.intents[n].market in due
    ensures ConfirmFits(db, n) && HasRoom(Confirm(db, n, height, hash).0, due)
  {
    hide DbInv, Priced, HasRoom, Confirm, MarketFits, BalanceOf, SettleMarketRows, MovedOnly, Rows, BooksSound, Keyed,
         Backed, ExternalExplained;
    DbParts(db);
    IntentRowOf(db, n);
    var i, db' := db.intents[n], Confirm(db, n, height, hash).0;
    if i.kind == Withdraw {
      WithdrawalHasRoom(db, due, n);
      ConfirmWithdrawal(db, n, height, hash);
      PaidOutHolds(db, db', i, External);
      SamePositionsSameRoom(db, db', due);
    } else if i.kind == SettleMarket {
      SettlementHasRoom(db, due, i.market);
      SettlementShape(db, n, height, hash);
      SettleMarketKeeps(db, i.market, db.markets[i.market].outcome.value);
      SamePositionsSameRoom(SettleMarketRows(db, i.market, db.markets[i.market].outcome.value).0, db', due);
    } else {
      ConfirmEscrow(db, n, height, hash);
      SamePositionsSameRoom(db, db', due);
    }
  }

  lemma PaidOutHolds(db: Db, db': Db, i: Intent, y: Account)
    requires forall a :: BalanceOf(db'.book, a) == BalanceOf(db.book, a) + Shift(Pending(i.user), y, i.amount, a)
    requires i.amount > 0 && (y == External || y == Available(i.user))
    ensures Held(db'.book) <= Held(db.book) && BalanceOf(db'.book, Insurance) == BalanceOf(db.book, Insurance)
    ensures BalanceOf(db'.book, Fees) == BalanceOf(db.book, Fees)
  {
    hide BalanceOf;
  }

  lemma ExpireHasRoom(db: Db, due: set<Market>, n: Nonce, observed: int)
    requires DbInv(db) && Priced(db) && HasRoom(db, due) && n in db.intents && InFlight(db.intents[n])
    ensures db.intents[n].kind == Withdraw ==> RefundFits(db, n)
    ensures HasRoom(Expire(db, n, observed).0, due)
  {
    hide DbInv, Priced, HasRoom, Expire, BalanceOf, MovedOnly, Rows, BooksSound, Keyed, Backed, ExternalExplained;
    DbParts(db);
    IntentRowOf(db, n);
    var i, db' := db.intents[n], Expire(db, n, observed).0;
    if i.kind == Withdraw {
      WithdrawalHasRoom(db, due, n);
      ExpireWithdrawal(db, n, observed);
      if observed > i.expiry {
        PaidOutHolds(db, db', i, Available(i.user));
        SamePositionsSameRoom(db, db', due);
      }
    } else if i.kind == EscrowSet {
      ExpireEscrow(db, n, observed);
      SamePositionsSameRoom(db, db', due);
    } else {
      ExpireNothing(db, n, observed);
    }
  }

  // The settlements among the intents in flight whose payout is due no later than this intent's visit.
  ghost function DueBefore(s: Sys, n: Nonce): set<Market>
    requires n in s.db.intents
  {
    set m | m in s.db.intents && IsDue(s, m) && s.db.intents[m].created <= s.db.intents[n].created ::
        s.db.intents[m].market
  }

  ghost predicate IsDue(s: Sys, m: Nonce)
    requires m in s.db.intents
  {
    s.db.intents[m].kind == SettleMarket && InFlight(s.db.intents[m]) && TxStatus(s.chain, m).finalized
  }

  lemma VisitHasRoom(s: Sys, due: set<Market>, n: Nonce, late: bool)
    requires Inv(s) && Priced(s.db) && HasRoom(s.db, due) && n in s.db.intents && InFlight(s.db.intents[n])
    requires IsDue(s, n) ==> s.db.intents[n].market in due
    ensures VisitFits(s, n) && HasRoom(Resolve(s, n, late).db, due) && Priced(Resolve(s, n, late).db)
  {
    hide Inv, DbInv, Priced, HasRoom, Resolve, ResolveAnswer, Confirm, Expire, IsExpired, ConfirmFits, RefundFits,
         TruthfulAbout, IntentRow, Shaped, ChainInv;
    var st := TxStatus(s.chain, n);
    PartsOf(s);
    IntentOf(s, n);
    FinalIsProcessed(s.chain, n);
    WithdrawalExpires(s, n);
    AnswerIs(s, n, late);
    ResolveIsPriced(s, n, late);
    ExpireHasRoom(s.db, due, n, s.chain.head);
    if st.finalized {
      ConfirmHasRoom(s.db, due, n, st.height, st.hash);
    }
  }

  /* ----- a whole pass ----- */

  lemma OnlyQueues(s: Sys, n: Nonce, late: bool)
    requires n in s.db.intents
    ensures Resolve(s, n, late).chain == s.chain.(mempool := Resolve(s, n, late).chain.mempool)
  {
    hide Confirm, Expire, IsExpired, HeadState;
  }

  // Up to the withdrawal's own visit there is room all along.
  lemma {:induction false} RoomAlong(s: Sys, queue: seq<Nonce>, late: set<Nonce>, n: Nonce, i: nat)
    requires Inv(s) && Priced(s.db) && IsQueue(s.db, queue) && n in queue && n in s.db.intents
    requires HasRoom(s.db, DueBefore(s, n)) && i <= |queue| && (i > 0 ==> n !in queue[..i - 1])
    ensures var s' := ResolveAll(s, queue[..i], late);
      && Inv(s') && Priced(s'.db) && HasRoom(s'.db, DueBefore(s, n))
      && s'.chain == s.chain.(mempool := s'.chain.mempool) && StillQueued(s.db, s'.db, queue, i)
    decreases i
  {
    hide Inv, Priced, HasRoom, Resolve, HeadState, SameGround;
    PassState(s, queue, late, i);
    if i > 0 {
      assert i > 1 ==> queue[..i - 1][..i - 2] == queue[..i - 2];
      RoomAlong(s, queue, late, n, i - 1);
      var m := queue[i - 1];
      assert queue[..i][..i - 1] == queue[..i - 1];
      var before := ResolveAll(s, queue[..i - 1], late);
      QueuedEarlier(s, before, queue, n, i - 1);
      VisitHasRoom(before, DueBefore(s, n), m, m in late);
      OnlyQueues(before, m, m in late);
    }
  }

  // Whoever is visited no later than the withdrawal is no younger.
  lemma QueuedEarlier(s: Sys, before: Sys, queue: seq<Nonce>, n: Nonce, i: nat)
    requires IsQueue(s.db, queue) && n in queue && n in s.db.intents && i < |queue| && n !in queue[..i]
    requires StillQueued(s.db, before.db, queue, i) && before.chain == s.chain.(mempool := before.chain.mempool)
    ensures queue[i] in before.db.intents && InFlight(before.db.intents[queue[i]])
    ensures IsDue(before, queue[i]) ==> before.db.intents[queue[i]].market in DueBefore(s, n)
  {
    var at :| 0 <= at < |queue| && queue[at] == n;
    InPrefix(queue, i, at);
    assert i < at ==> s.db.intents[queue[i]].created <= s.db.intents[queue[at]].created;
  }

  lemma InPrefix(queue: seq<Nonce>, i: nat, at: nat)
    requires i <= |queue| && at < |queue|
    ensures at < i ==> queue[at] in queue[..i]
  {
    if at < i {
      assert queue[..i][at] == queue[at];
    }
  }

  // The guard before the pass is enough: the way to the withdrawal is clear.
  lemma RoomClearsTheWay(s: Sys, queue: seq<Nonce>, late: set<Nonce>, n: Nonce)
    requires Inv(s) && Priced(s.db) && IsQueue(s.db, queue) && n in queue && n in s.db.intents
    requires HasRoom(s.db, DueBefore(s, n))
    ensures ClearFor(s, queue, late, n)
  {
    hide Inv, Priced, HasRoom, ResolveAll, VisitFits, DueBefore, IsQueue, StillQueued;
    forall i | 0 <= i < |queue| && n !in queue[..i] ensures VisitFits(ResolveAll(s, queue[..i], late), queue[i]) {
      assert i > 0 ==> queue[..i - 1] <= queue[..i];
      RoomAlong(s, queue, late, n, i);
      QueuedEarlier(s, ResolveAll(s, queue[..i], late), queue, n, i);
      VisitHasRoom(ResolveAll(s, queue[..i], late), DueBefore(s, n), queue[i], false);
    }
  }

  /* ----- rounds ----- */

  // Before every pass in which the withdrawal is still in flight there is room.
  ghost predicate RoomyRound(s: Sys, r: Round, n: Nonce)
    requires IsRound(s, r)
  {
    n in r.queue && n in Mined(s, r).db.intents ==> HasRoom(Mined(s, r).db, DueBefore(Mined(s, r), n))
  }

  ghost predicate AllRoomy(s: Sys, rounds: seq<Round>, n: Nonce)
    requires AreRounds(s, rounds)
    decreases |rounds|
  {
    rounds == [] || (RoomyRound(s, rounds[0], n) && AllRoomy(AfterRound(s, rounds[0]), rounds[1..], n))
  }

  lemma {:induction false} PassIsPriced(s: Sys, queue: seq<Nonce>, late: set<Nonce>, visits: nat)
    requires Inv(s) && Priced(s.db) && IsQueue(s.db, queue) && visits <= |queue|
    ensures Inv(ResolveAll(s, queue[..visits], late)) && Priced(ResolveAll(s, queue[..visits], late).db)
    decreases visits
  {
    hide Inv, Priced, Resolve, SameGround;
    PassState(s, queue, late, visits);
    if visits > 0 {
      PassIsPriced(s, queue, late, visits - 1);
      PassState(s, queue, late, visits - 1);
      assert queue[..visits][..visits - 1] == queue[..visits - 1];
      ResolveIsPriced(ResolveAll(s, queue[..visits - 1], late), queue[visits - 1], queue[visits - 1] in late);
    }
  }

  lemma RoundHasRoom(s: Sys, r: Round, n: Nonce)
    requires Inv(s) && Priced(s.db) && IsRound(s, r)
    ensures Inv(AfterRound(s, r)) && Priced(AfterRound(s, r).db) && (RoomyRound(s, r, n) ==> ClearRound(s, r, n))
  {
    hide Inv, Priced, HasRoom, Mine, ClearFor, Next, Allowed;
    PricesHold(s, r.steps);
    MinesKeeps(Final(s, r.steps), 0, [], r.hash);
    var s2 := Mined(s, r);
    PassIsPriced(s2, r.queue, r.late, r.visits);
    if n in r.queue && RoomyRound(s, r, n) {
      RoomClearsTheWay(s2, r.queue, r.late, n);
    }
  }

  lemma {:induction false} RoomyMeansClear(s: Sys, rounds: seq<Round>, n: Nonce)
    requires Inv(s) && Priced(s.db) && AreRounds(s, rounds) && AllRoomy(s, rounds, n)
    ensures AllClear(s, rounds, n)
    decreases |rounds|
  {
    hide Inv, Priced, IsRound, RoomyRound, ClearRound, AfterRound;
    if rounds != [] {
      RoundHasRoom(s, rounds[0], n);
      RoomyMeansClear(AfterRound(s, rounds[0]), rounds[1..], n);
    }
  }

  // With room before every pass, a withdrawal is confirmed or refunded by expiry + max(Confirms, 2).
  lemma WithdrawalsResolveInRoom(s: Sys, rounds: seq<Round>, n: Nonce)
    requires Inv(s) && Priced(s.db) && AreRounds(s, rounds) && WithdrawalOf(s, n) && OnTrack(s, n)
    requires AllRoomy(s, rounds, n)
    ensures var s' := AfterRounds(s, rounds);
      && Inv(s') && n in s'.db.intents && s'.chain.head == s.chain.head + |rounds|
      && (s'.chain.head >= Bound(s, n) ==> !InFlight(s'.db.intents[n]))
  {
    hide Inv, Priced, AllRoomy, AllClear, OnTrack, AreRounds;
    RoomyMeansClear(s, rounds, n);
    WithdrawalsResolve(s, rounds, n);
  }
}
