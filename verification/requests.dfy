/** What a freeze and a request key mean over whole runs: while the system is halted nobody's money is
    reserved for a withdrawal, and a used key answers for its own request for ever. */
module Requests {
  import opened Integers
  import opened GoVault
  import opened ChainModel
  import opened Accounts
  import opened Ledger
  import opened Store
  import opened StoreInvariants
  import opened System
  import opened SystemInvariants
  import opened SystemRefunds
  import opened Markets

  // No earlier request has this key; the empty key is never used.
  predicate NewKey(db: Db, request: string)
  {
    request == "" || request !in db.requests
  }

  /* ----- halts ----- */

  // A new request is halted if and only if its user or everybody is frozen, and then nothing changes.
  lemma HaltIsExact(db: Db, id: Nonce, user: User, amount: int64, request: string, expiry: int64)
    requires amount > 0 && NewKey(db, request)
    ensures var r := RequestWithdraw(db, id, user, amount, request, expiry);
      (r.1 == Halted <==> user in db.frozen || "*" in db.frozen) && (r.1 == Halted ==> r.0 == db)
  {
    hide Move;
  }

  // Whoever asks for whatever under a new key, now or at any other height, is halted.
  ghost predicate TakesNothingIn(db: Db)
  {
    forall id, user, amount: int64, request, expiry: int64 | amount > 0 && NewKey(db, request) ::
      RequestWithdraw(db, id, user, amount, request, expiry) == (db, Halted)
  }

  lemma HaltedForEverybody(db: Db)
    requires "*" in db.frozen
    ensures TakesNothingIn(db)
  {
    forall id, user, amount: int64, request, expiry: int64 | amount > 0 && NewKey(db, request)
      ensures RequestWithdraw(db, id, user, amount, request, expiry) == (db, Halted)
    {
      HaltIsExact(db, id, user, amount, request, expiry);
    }
  }

  // What a request under a new key answers: the first thing that is wrong with it, or done.
  lemma NewKeyAnswers(db: Db, id: Nonce, user: User, amount: int64, request: string, expiry: int64)
    requires DbInv(db) && id.IntentId? && id !in db.intents && expiry > 0 && NewKey(db, request)
    ensures RequestWithdraw(db, id, user, amount, request, expiry).1 ==
            if amount <= 0 then Invalid
            else if user in db.frozen || "*" in db.frozen then Halted
            else if BalanceOf(db.book, Available(user)) < amount ||
                BalanceOf(db.book, Pending(user)) + amount > MAX_INT64 then Refused
            else Done
  {
    DbParts(db);
    CustodyNonNegative(db.book, Pending(user));
    hide DbInv, BooksSound, Keyed, Backed, ExternalExplained, Rows, BalanceOf, RequestWithdraw;
    RequestWithdrawOutcome(db, id, user, amount, request, expiry);
    RefusalNames(db, id, user, amount, request, expiry);
  }

  lemma RefusalNames(db: Db, id: Nonce, user: User, amount: int64, request: string, expiry: int64)
    requires NewKey(db, request)
    ensures var answer := RequestWithdraw(db, id, user, amount, request, expiry).1;
      if amount <= 0 then answer == Invalid
      else if user in db.frozen || "*" in db.frozen then answer == Halted
      else answer == Refused || answer == Done
  {
    hide Move;
  }

  lemma RevertFreezes(db: Db, e: EventId)
    ensures db.frozen <= RevertFact(db, e).0.frozen
  {
    hide Move, Clawback, SetStatus;
    if e in db.events && e in db.facts {
      var user, amount := db.events[e].user, db.facts[e].amount;
      var clawback := Clawback(db, user, amount);
      var moved := Move(db, ClawbackKey(e), ClawbackLegs(user, clawback, amount));
      MoveOnlyBook(db, ClawbackKey(e), ClawbackLegs(user, clawback, amount));
      if moved.Some? {
        StatusFrame(moved.value.(facts := db.facts[e := db.facts[e].(reverted := true)],
                                 frozen := if clawback < amount then db.frozen + {user} else db.frozen), e,
                                     OrphanedEvent);
      }
    }
  }

  lemma ResolveKeepsFreezes(s: Sys, n: Nonce, late: bool)
    requires Inv(s) && n in s.db.intents && InFlight(s.db.intents[n])
    ensures var db' := Resolve(s, n, late).db;
      db'.frozen == s.db.frozen && db'.intents.Keys == s.db.intents.Keys
  {
    hide Inv, DbInv, Resolve, Confirm, Expire, ConfirmFits, RefundFits;
    PartsOf(s);
    WithdrawalExpiry(s, n);
    ResolveOutcome(s, n, late);
    ConfirmKeeps(s.db, n, TxStatus(s.chain, n).height, TxStatus(s.chain, n).hash);
    ExpireKeeps(s.db, n, s.chain.head);
  }

  lemma MoneyKeepsFreezes(s: Sys, step: Step)
    requires Allowed(s, step) && (MovesMoney(step) || step.PostsOutside? || step.RequestsWithdraw?)
    ensures s.db.frozen <= Next(s, step).db.frozen
  {
    hide OpenPosition, ClosePosition, ApplyDeposit, RevertFact, OrphanedBlock, PostOutside, RequestWithdraw, StatusOnly;
    match step {
      case Opens(id, user, market, side, size, request) => OpenFrame(s.db, id, user, market, side, size, request);
      case Closes(id, mark, liquidation) => CloseFrame(s.db, id, mark, liquidation);
      case Applies(e) => CreditFrame(s.db, e);
      case Reverts(e) => RevertFreezes(s.db, e);
      case PostsOutside(text, user, credit) => OutsideFrame(s.db, text, user, credit);
      case RequestsWithdraw(id, user, amount, request, expiry) => RequestFrame(s.db, id, user, amount, request, expiry);
    }
  }

  // A freeze ends only when it is lifted.
  lemma StepKeepsFreezes(s: Sys, step: Step, subject: string)
    requires Inv(s) && Allowed(s, step) && step != Unfreezes(subject) && subject in s.db.frozen
    ensures subject in Next(s, step).db.frozen
  {
    hide Inv;
    if step.Resolves? {
      hide Resolve;
      ResolveKeepsFreezes(s, step.intent, step.deadlinePassed);
    } else if MovesMoney(step) || step.PostsOutside? || step.RequestsWithdraw? {
      hide Next, Allowed;
      MoneyKeepsFreezes(s, step);
    } else {
      hide Mine, SubmitTx, HeadState, CollateralIn, EscrowInFlight, CanMine, Recorded;
    }
  }

  ghost predicate NoNewWithdrawal(db: Db, db': Db)
  {
    forall n | n in db'.intents && db'.intents[n].kind == Withdraw :: n in db.intents && db.intents[n].kind == Withdraw
  }

  ghost predicate OtherRowsAdded(db: Db, db': Db)
  {
    forall n | n in db'.intents && n !in db.intents :: db'.intents[n].kind != Withdraw
  }

  lemma AddedRows(db: Db, id: Nonce, market: Market, outcome: int64, target: int64, expiry: int64)
    ensures OtherRowsAdded(db, RequestSettlement(db, id, market, outcome).0)
    ensures OtherRowsAdded(db, RequestEscrowSet(db, id, market, target, expiry))
    ensures OtherRowsAdded(db, MarkSubmitted(db, id))
  {
    hide EscrowInFlight, SettleRequest;
  }

  lemma NothingAdded(db: Db, db': Db)
    requires db'.intents.Keys == db.intents.Keys
    ensures OtherRowsAdded(db, db')
  {
  }

  lemma OldRowsKeepTheirKind(db: Db, db': Db)
    requires Progress(db, db') && OtherRowsAdded(db, db')
    ensures NoNewWithdrawal(db, db')
  {
  }

  // Only a request that is done adds a withdrawal.
  lemma StepAddsNoWithdrawal(s: Sys, step: Step)
    requires Inv(s) && Allowed(s, step)
    requires step.RequestsWithdraw? ==>
        RequestWithdraw(s.db, step.id, step.user, step.amount, step.request, step.expiry).1 != Done
    ensures NoNewWithdrawal(s.db, Next(s, step).db)
  {
    hide Inv, DbInv, NoNewWithdrawal, OtherRowsAdded, Progress, OnlyResolves;
    PartsOf(s);
    StepProgress(s, step);
    StepAddsOthers(s, step);
    OldRowsKeepTheirKind(s.db, Next(s, step).db);
  }

  lemma StepAddsOthers(s: Sys, step: Step)
    requires Inv(s) && DbInv(s.db) && Allowed(s, step)
    requires step.RequestsWithdraw? ==>
        RequestWithdraw(s.db, step.id, step.user, step.amount, step.request, step.expiry).1 != Done
    ensures OtherRowsAdded(s.db, Next(s, step).db)
  {
    hide Inv, DbInv, OtherRowsAdded;
    if step.Resolves? {
      hide Resolve;
      ResolveKeepsFreezes(s, step.intent, step.deadlinePassed);
      NothingAdded(s.db, Next(s, step).db);
    } else if TouchesIntents(step) {
      hide RequestSettlement, RequestEscrowSet, MarkSubmitted, CollateralIn, RequestWithdraw;
      match step {
        case RequestsWithdraw(id, user, amount, request, expiry) =>
          RefusedRequestChangesNothing(s.db, id, user, amount, request, expiry);
          NothingAdded(s.db, s.db);
        case RequestsSettlement(id, market, outcome) => AddedRows(s.db, id, market, outcome, 0, 0);
        case RequestsEscrow(id, market, target, expiry) => AddedRows(s.db, id, market, 0, target, expiry);
        case Marks(n) => AddedRows(s.db, n, "", 0, 0, 0);
      }
    } else {
      IntentsUntouched(s, step);
      hide Next;
      NothingAdded(s.db, Next(s, step).db);
    }
  }

  lemma RefusedRequestChangesNothing(db: Db, id: Nonce, user: User, amount: int64, request: string, expiry: int64)
    requires RequestWithdraw(db, id, user, amount, request, expiry).1 != Done
    ensures RequestWithdraw(db, id, user, amount, request, expiry).0 == db
  {
    hide Move;
  }

  predicate NeverLifted(steps: seq<Step>, subject: string)
  {
    forall i | 0 <= i < |steps| :: steps[i] != Unfreezes(subject)
  }

  // From a halt of the whole system until it is lifted, in every run and whoever asks, no withdrawal
  // is taken in; requests already made are still resolved.
  lemma {:induction false} HaltedSystemTakesNothingIn(s: Sys, steps: seq<Step>)
    requires Inv(s) && IsTrace(s, steps) && "*" in s.db.frozen && NeverLifted(steps, "*")
    ensures TakesNothingIn(Final(s, steps).db) && NoNewWithdrawal(s.db, Final(s, steps).db)
    decreases |steps|
  {
    hide Inv, Next, Allowed, RequestWithdraw, NoNewWithdrawal, TakesNothingIn;
    if steps == [] {
      HaltedForEverybody(s.db);
      NothingNew(s.db);
    } else {
      var step := steps[0];
      if step.RequestsWithdraw? {
        HaltedMeansNotDone(s.db, step.id, step.user, step.amount, step.request, step.expiry);
      }
      StepKeeps(s, step);
      StepKeepsFreezes(s, step, "*");
      StepAddsNoWithdrawal(s, step);
      HaltedSystemTakesNothingIn(Next(s, step), steps[1..]);
      NoneAfterNone(s.db, Next(s, step).db, Final(s, steps).db);
    }
  }

  lemma HaltedMeansNotDone(db: Db, id: Nonce, user: User, amount: int64, request: string, expiry: int64)
    requires "*" in db.frozen
    ensures RequestWithdraw(db, id, user, amount, request, expiry).1 != Done
  {
    hide Move;
  }

  lemma NothingNew(db: Db)
    ensures NoNewWithdrawal(db, db)
  {
  }

  lemma NoneAfterNone(a: Db, b: Db, c: Db)
    requires NoNewWithdrawal(a, b) && NoNewWithdrawal(b, c)
    ensures NoNewWithdrawal(a, c)
  {
  }

  /* ----- request keys ----- */

  // A key stays with its intent, and the intent keeps its terms.
  ghost predicate KeyHeld(db: Db, key: string, n: Nonce, user: User, amount: int64)
  {
    && key in db.requests && db.requests[key] == n && n in db.intents
    && db.intents[n].kind == Withdraw && db.intents[n].user == user && db.intents[n].amount == amount
  }

  lemma {:induction false} KeyHeldForEver(s: Sys, steps: seq<Step>, key: string, n: Nonce, user: User, amount: int64)
    requires Inv(s) && IsTrace(s, steps) && KeyHeld(s.db, key, n, user, amount)
    ensures KeyHeld(Final(s, steps).db, key, n, user, amount)
    decreases |steps|
  {
    hide Inv, Next, Allowed, KeyHeld, RequestsKept, RequestsTrue, Progress, OnlyResolves;
    if steps != [] {
      StepKeeps(s, steps[0]);
      StepProgress(s, steps[0]);
      StepKeepsRequests(s, steps[0]);
      KeyStays(s.db, Next(s, steps[0]).db, key, n, user, amount);
      KeyHeldForEver(Next(s, steps[0]), steps[1..], key, n, user, amount);
    }
  }

  lemma KeyStays(db: Db, db': Db, key: string, n: Nonce, user: User, amount: int64)
    requires RequestsKept(db, db') && Progress(db, db') && KeyHeld(db, key, n, user, amount)
    ensures KeyHeld(db', key, n, user, amount)
  {
  }

  lemma DoneHoldsKey(s: Sys, id: Nonce, user: User, amount: int64, key: string, expiry: int64)
    requires key != "" && RequestWithdraw(s.db, id, user, amount, key, expiry).1 == Done
    ensures KeyHeld(RequestWithdraw(s.db, id, user, amount, key, expiry).0, key, id, user, amount)
  {
    hide Move;
  }

  // A withdrawal requested under a key, then any run, then any request under that key: the answer is
  // a replay of the first if user and amount are the same, a conflict if not, and nothing changes.
  lemma UsedKeyAnswers(s: Sys, id: Nonce, user: User, amount: int64, key: string, expiry: int64, steps: seq<Step>,
      again: Nonce, who: User, much: int64, later: int64)
    requires Inv(s) && key != "" && Allowed(s, RequestsWithdraw(id, user, amount, key, expiry))
    requires RequestWithdraw(s.db, id, user, amount, key, expiry).1 == Done
    requires IsTrace(Next(s, RequestsWithdraw(id, user, amount, key, expiry)), steps) && much > 0
    ensures var db := Final(Next(s, RequestsWithdraw(id, user, amount, key, expiry)), steps).db;
      RequestWithdraw(db, again, who, much, key, later) ==
      (db, if who == user && much == amount then Replay(id) else Conflict)
  {
    var step := RequestsWithdraw(id, user, amount, key, expiry);
    hide Inv, RequestWithdraw, KeyHeld;
    StepKeeps(s, step);
    DoneHoldsKey(s, id, user, amount, key, expiry);
    KeyHeldForEver(Next(s, step), steps, key, id, user, amount);
    HeldKeyAnswers(Final(Next(s, step), steps).db, key, id, user, amount, again, who, much, later);
  }

  lemma HeldKeyAnswers(db: Db, key: string, n: Nonce, user: User, amount: int64, again: Nonce, who: User, much: int64,
      later: int64)
    requires KeyHeld(db, key, n, user, amount) && key != "" && much > 0
    ensures RequestWithdraw(db, again, who, much, key, later) ==
            (db, if who == user && much == amount then Replay(n) else Conflict)
  {
    hide Move;
  }

  // The key of a settlement never stands for a withdrawal.
  lemma SettlementKeyConflicts(db: Db, key: string, again: Nonce, who: User, much: int64, later: int64)
    requires key in db.requests && db.requests[key] in db.intents && db.intents[db.requests[key]].kind == SettleMarket
    requires key != "" && much > 0
    ensures RequestWithdraw(db, again, who, much, key, later) == (db, Conflict)
  {
    hide Move;
  }

  // The key of a market's settlement stays with its intent, and the market with its outcome.
  ghost predicate SettlementHeld(db: Db, market: Market, n: Nonce, outcome: int64)
  {
    && SettleRequest(market) in db.requests && db.requests[SettleRequest(market)] == n && n in db.intents
    && db.intents[n].kind == SettleMarket && db.intents[n].market == market
    && market in db.markets && db.markets[market].state != MarketOpen && db.markets[market].outcome == Some(outcome)
  }

  lemma SettlementStays(db: Db, db': Db, market: Market, n: Nonce, outcome: int64)
    requires RequestsKept(db, db') && Progress(db, db') && MarketsOnward(db, db')
    requires SettlementHeld(db, market, n, outcome)
    ensures SettlementHeld(db', market, n, outcome)
  {
    hide SettleRequest;
    assert Onward(db.markets[market], db'.markets[market]);
  }

  lemma {:induction false} SettlementHeldForEver(s: Sys, steps: seq<Step>, market: Market, n: Nonce, outcome: int64)
    requires Inv(s) && IsTrace(s, steps) && SettlementHeld(s.db, market, n, outcome)
    ensures SettlementHeld(Final(s, steps).db, market, n, outcome)
    decreases |steps|
  {
    hide Inv, Next, Allowed, SettlementHeld, RequestsKept, RequestsTrue, Progress, OnlyResolves, MarketsOnward;
    if steps != [] {
      StepKeeps(s, steps[0]);
      StepProgress(s, steps[0]);
      StepKeepsRequests(s, steps[0]);
      StepMovesMarkets(s, steps[0]);
      SettlementStays(s.db, Next(s, steps[0]).db, market, n, outcome);
      SettlementHeldForEver(Next(s, steps[0]), steps[1..], market, n, outcome);
    }
  }

  lemma SettlementDone(db: Db, id: Nonce, market: Market, outcome: int64)
    requires RequestSettlement(db, id, market, outcome).1 == Done
    ensures SettlementHeld(RequestSettlement(db, id, market, outcome).0, market, id, outcome)
  {
    hide SettleRequest;
  }

  // What a settlement under a new key answers.
  lemma NewSettlementAnswers(db: Db, id: Nonce, market: Market, outcome: int64)
    requires SettleRequest(market) !in db.requests
    ensures var r := RequestSettlement(db, id, market, outcome);
      && r.1 == (if outcome != 0 && outcome != 1_000_000 then Invalid
                 else if market in db.markets && db.markets[market].state == MarketOpen then Done else Conflict)
      && (r.1 != Done ==> r.0 == db)
  {
    hide SettleRequest;
  }

  lemma HeldSettlementAnswers(db: Db, id: Nonce, market: Market, outcome: int64, again: Nonce, other: int64)
    requires SettlementHeld(db, market, id, outcome) && (other == 0 || other == 1_000_000)
    ensures RequestSettlement(db, again, market, other) == (db, if other == outcome then Replay(id) else Conflict)
  {
    hide SettleRequest;
  }

  // A settlement requested, then any run, then a settlement of the same market requested again: the
  // answer is a replay of the first if the outcome is the same, a conflict if not, and nothing changes.
  lemma SettlementKeyAnswers(s: Sys, id: Nonce, market: Market, outcome: int64, s1: Sys, steps: seq<Step>,
      again: Nonce, other: int64)
    requires Inv(s) && Allowed(s, RequestsSettlement(id, market, outcome))
    requires RequestSettlement(s.db, id, market, outcome).1 == Done
    requires s1 == Next(s, RequestsSettlement(id, market, outcome)) && IsTrace(s1, steps)
    requires other == 0 || other == 1_000_000
    ensures var db := Final(s1, steps).db;
      RequestSettlement(db, again, market, other) == (db, if other == outcome then Replay(id) else Conflict)
  {
    hide Inv, RequestSettlement, SettlementHeld;
    StepKeeps(s, RequestsSettlement(id, market, outcome));
    SettlementDone(s.db, id, market, outcome);
    SettlementHeldForEver(s1, steps, market, id, outcome);
    HeldSettlementAnswers(Final(s1, steps).db, id, market, outcome, again, other);
  }

  /* ----- the order of creation ----- */

  // Every intent has its own rank, below the number of intents.
  ghost predicate Ranked(db: Db)
  {
    && (forall n | n in db.intents :: db.intents[n].created < |db.intents|)
    && (forall n, m | n in db.intents && m in db.intents && n != m :: db.intents[n].created != db.intents[m].created)
  }

  lemma AddedLast(db: Db, db': Db, id: Nonce)
    requires Ranked(db) && id !in db.intents
    requires db'.intents == db.intents || (id in db'.intents && db'.intents == db.intents[id := db'.intents[id]] &&
        db'.intents[id].created == |db.intents|)
    ensures Ranked(db')
  {
    if id in db'.intents {
      OneMoreKey(db.intents, id, db'.intents[id]);
      forall n, m | n in db'.intents && m in db'.intents && n != m
        ensures db'.intents[n].created < |db'.intents| && db'.intents[n].created != db'.intents[m].created
      {
        assert n != id ==> n in db.intents && db'.intents[n] == db.intents[n];
        assert m != id ==> m in db.intents && db'.intents[m] == db.intents[m];
      }
      forall n | n in db'.intents ensures db'.intents[n].created < |db'.intents| {
        assert n != id ==> n in db.intents && db'.intents[n] == db.intents[n];
      }
    }
  }

  lemma OneMoreKey(m: map<Nonce, Intent>, id: Nonce, i: Intent)
    requires id !in m
    ensures |m[id := i]| == |m| + 1
  {
    assert m[id := i].Keys == m.Keys + {id};
  }

  lemma CountsKeys(m: map<Nonce, Intent>)
    ensures |m| == |m.Keys|
  {
  }

  lemma SameRanks(db: Db, db': Db)
    requires Ranked(db) && Progress(db, db') && db'.intents.Keys == db.intents.Keys
    ensures Ranked(db')
  {
    CountsKeys(db.intents);
    CountsKeys(db'.intents);
    forall n | n in db'.intents ensures n in db.intents && db'.intents[n].created == db.intents[n].created {
      assert n in db.intents.Keys;
      assert MayBecome(db.intents[n], db'.intents[n]);
    }
  }

  lemma RequestIsLast(db: Db, id: Nonce, user: User, amount: int64, request: string, expiry: int64)
    requires Ranked(db) && id !in db.intents
    ensures Ranked(RequestWithdraw(db, id, user, amount, request, expiry).0)
  {
    MoveOnlyBook(db, ReserveKey(id), ReserveLegs(user, amount));
    hide Move, Ranked, ReserveLegs;
    AddedLast(db, RequestWithdraw(db, id, user, amount, request, expiry).0, id);
  }

  lemma OperatorIsLast(db: Db, id: Nonce, market: Market, outcome: int64, target: int64, expiry: int64)
    requires Ranked(db) && id !in db.intents
    ensures Ranked(RequestSettlement(db, id, market, outcome).0)
    ensures Ranked(RequestEscrowSet(db, id, market, target, expiry))
  {
    hide Ranked, SettleRequest, EscrowInFlight;
    AddedLast(db, RequestSettlement(db, id, market, outcome).0, id);
    AddedLast(db, RequestEscrowSet(db, id, market, target, expiry), id);
  }

  lemma MarkKeepsKeys(db: Db, n: Nonce)
    ensures MarkSubmitted(db, n).intents.Keys == db.intents.Keys
  {
  }

  lemma AddingKeepsRanks(s: Sys, step: Step)
    requires Allowed(s, step) && Ranked(s.db)
    requires step.RequestsWithdraw? || step.RequestsSettlement? || step.RequestsEscrow?
    ensures Ranked(Next(s, step).db)
  {
    hide RequestSettlement, RequestEscrowSet, CollateralIn, RequestWithdraw, Ranked;
    match step {
      case RequestsWithdraw(id, user, amount, request, expiry) =>
        RequestIsLast(s.db, id, user, amount, request, expiry);
      case RequestsSettlement(id, market, outcome) => OperatorIsLast(s.db, id, market, outcome, 0, 0);
      case RequestsEscrow(id, market, target, expiry) => OperatorIsLast(s.db, id, market, 0, target, expiry);
    }
  }

  lemma StepKeepsRanks(s: Sys, step: Step)
    requires Inv(s) && Allowed(s, step) && Ranked(s.db)
    ensures Ranked(Next(s, step).db)
  {
    hide Inv, DbInv, Ranked, Progress, OnlyResolves;
    PartsOf(s);
    StepProgress(s, step);
    if step.Resolves? {
      hide Resolve;
      ResolveKeepsFreezes(s, step.intent, step.deadlinePassed);
      SameRanks(s.db, Next(s, step).db);
    } else if step.Marks? {
      hide MarkSubmitted;
      MarkKeepsKeys(s.db, step.intent);
      SameRanks(s.db, Next(s, step).db);
    } else if TouchesIntents(step) {
      hide Next;
      AddingKeepsRanks(s, step);
    } else {
      IntentsUntouched(s, step);
      hide Next;
      SameRanks(s.db, Next(s, step).db);
    }
  }

  lemma StartIsRanked(confirms: int)
    ensures Ranked(Start(confirms).db)
  {
  }

  // In every run no two intents have the same rank, so that the order of the resolver's queue is that
  // of their creation and no other.
  lemma {:induction false} RanksStayUnique(s: Sys, steps: seq<Step>)
    requires Inv(s) && Ranked(s.db) && IsTrace(s, steps)
    ensures Inv(Final(s, steps)) && Ranked(Final(s, steps).db)
    decreases |steps|
  {
    hide Inv, Ranked, Next, Allowed;
    if steps != [] {
      StepKeeps(s, steps[0]);
      StepKeepsRanks(s, steps[0]);
      RanksStayUnique(Next(s, steps[0]), steps[1..]);
    }
  }

  /* ----- what reaches the chain ----- */

  // A withdrawal that is final on the chain was executed there as a payment of its amount to its user.
  lemma FinalPaymentIsTheUsers(s: Sys, n: Nonce) returns (at: nat)
    requires Inv(s) && n in s.db.intents && s.db.intents[n].kind == Withdraw && TxStatus(s.chain, n).finalized
    ensures var calls := AllCalls(s.chain.history);
      && at < |calls| && calls[at].tx.nonce == n && calls[at].tx.kind == Withdraw
      && calls[at].tx.user == s.db.intents[n].user && calls[at].tx.amount == s.db.intents[n].amount
  {
    at := FinalPayload(s, n);
    hide Inv;
    IntentOf(s, n);
  }
}
