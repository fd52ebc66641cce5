/** Paid or refunded, never both. A refund is granted on head state, and head can move back in a
    reorg, so this is where the one hypothesis of the whole development lives. */
module SystemRefunds {
  import opened Integers
  import opened Sums
  import opened GoVault
  import opened ChainModel
  import opened ChainBlocks
  import opened ChainInvariants
  import opened Ledger
  import opened Store
  import opened StoreInvariants
  import opened System
  import opened SystemInvariants
  import opened Residue
  import Deposits
  import Refunds

  ghost predicate RefundedWithdrawal(db: Db, n: Nonce)
  {
    n in db.intents && db.intents[n].kind == Withdraw && db.intents[n].state == StateExpired
  }

  // Hypothesis R for one step: a reorg does not take head below the expiry height of a withdrawal
  // that has already been refunded.
  ghost predicate KeepsRefunds(s: Sys, step: Step)
  {
    step.Mines? && step.depth > 0 ==>
      forall n | RefundedWithdrawal(s.db, n) :: s.chain.head - step.depth >= s.db.intents[n].expiry
  }

  ghost predicate HypothesisR(s: Sys, steps: seq<Step>)
    requires IsTrace(s, steps)
    decreases |steps|
  {
    steps == [] || (KeepsRefunds(s, steps[0]) && HypothesisR(Next(s, steps[0]), steps[1..]))
  }

  // No refunded withdrawal is on the chain, and the next block would refuse it.
  ghost predicate RefundsHold(s: Sys)
  {
    forall n | RefundedWithdrawal(s.db, n) ::
      Site(Canon(s.chain), n) < 0 && s.chain.head >= s.db.intents[n].expiry
  }

  // The engine uses the chain as the refund analysis assumes.
  lemma EngineIsDisciplined(s: Sys, n: Nonce)
    requires Inv(s) && n in s.db.intents && s.db.intents[n].kind == Withdraw
    ensures n in s.db.outbox && Refunds.Disciplined(s.chain, s.db.outbox[n]) && Refunds.IsWithdrawal(s.db.outbox[n])
    ensures s.db.outbox[n].nonce == n && s.db.outbox[n].expiry == s.db.intents[n].expiry
  {
    assert IntentRow(s.db, n);
    var tx := s.db.outbox[n];
    forall t | t in Deposits.Held(s.chain) ensures Refunds.UsedAs(t, tx, s.chain.nextDeposit) {
      assert KnownTx(t, s.db, s.chain.nextDeposit);
      if t.nonce.IntentId? {
        assert IntentRow(s.db, t.nonce);
      }
    }
    forall k | 0 <= k < |Canon(s.chain)| ensures Refunds.AllUsedAs(Canon(s.chain)[k].txs, tx, s.chain.nextDeposit) {
      forall t | t in Canon(s.chain)[k].txs ensures Refunds.UsedAs(t, tx, s.chain.nextDeposit) {
        var j :| 0 <= j < |Canon(s.chain)[k].txs| && Canon(s.chain)[k].txs[j] == t;
        HeldInBlock(s.chain, k, j);
      }
    }
  }

  lemma MiningHoldsRefund(s: Sys, depth: nat, shuffled: seq<Tx>, hash: Hash, n: Nonce)
    requires Inv(s) && CanMine(s.chain, depth, shuffled, hash) && RefundedWithdrawal(s.db, n)
    requires Site(Canon(s.chain), n) < 0 && s.chain.head >= s.db.intents[n].expiry
    requires depth > 0 ==> s.chain.head - depth >= s.db.intents[n].expiry
    ensures Site(Canon(Mine(s.chain, depth, shuffled, hash)), n) < 0
    ensures Mine(s.chain, depth, shuffled, hash).head >= s.db.intents[n].expiry
  {
    var c := s.chain;
    EngineIsDisciplined(s, n);
    Refunds.MineUnpaid(c, depth, shuffled, hash, s.db.outbox[n]);
    var c1 := if depth > 0 then Reorg(c, depth, shuffled) else c;
    HeadAfterFinality(AddBlock(c1, hash));
  }

  lemma {:induction false} HeadAfterFinality(c: Chain)
    ensures FinaliseAll(c).head == c.head
    decreases |c.pending|
  {
    if |c.pending| > c.confirms {
      HeadAfterFinality(FinaliseOne(c));
    }
  }

  // The three things one pass of the resolver can do to the store.
  lemma ResolveOutcome(s: Sys, n: Nonce, deadlinePassed: bool)
    requires n in s.db.intents && (s.db.intents[n].kind == Withdraw ==> s.db.intents[n].expiry > 0)
    ensures var r, st, i := Resolve(s, n, deadlinePassed), TxStatus(s.chain, n), s.db.intents[n];
      || r.db == s.db
      || (st.processed && st.finalized && r.db == Confirm(s.db, n, st.height, st.hash).0)
      || (!st.processed && r.db == Expire(s.db, n, s.chain.head).0 &&
          (i.kind == Withdraw ==> s.chain.head > i.expiry && IsExpired(r.chain, n)))
  {
    hide Confirm, Expire, CancelNonce, IsExpired;
  }

  // A withdrawal is refunded only when the chain does not hold it and is past its expiry.
  lemma RefundIsJustified(s: Sys, n: Nonce, deadlinePassed: bool)
    requires Inv(s) && n in s.db.intents && InFlight(s.db.intents[n])
    requires RefundedWithdrawal(Resolve(s, n, deadlinePassed).db, n)
    ensures Site(Canon(s.chain), n) < 0 && s.chain.head > s.db.intents[n].expiry
    ensures n in s.db.outbox && Refunds.EngineRefunds(Resolve(s, n, deadlinePassed).chain, s.db.outbox[n])
  {
    assert TruthfulAbout(s.chain, n) && IntentRow(s.db, n) && DbInv(s.db);
    var st, i := TxStatus(s.chain, n), s.db.intents[n];
    assert i.kind == Withdraw ==> n in s.db.outbox && s.db.outbox[n].nonce == n && s.db.outbox[n].expiry == i.expiry;
    assert Site(Canon(s.chain), n) < 0 <==> !st.processed;
    hide Inv, DbInv, TruthfulAbout, IntentRow, Resolve, Confirm, Expire;
    ResolveOutcome(s, n, deadlinePassed);
    CanonAfterResolve(s, n, deadlinePassed);
    ConfirmKeeps(s.db, n, st.height, st.hash);
    ExpireKeeps(s.db, n, s.chain.head);
  }

  lemma CanonAfterResolve(s: Sys, n: Nonce, deadlinePassed: bool)
    requires n in s.db.intents
    ensures Canon(Resolve(s, n, deadlinePassed).chain) == Canon(s.chain)
    ensures Resolve(s, n, deadlinePassed).chain.head == s.chain.head
  {
    hide Confirm, Expire;
  }

  /* ----- how intents progress ----- */

  // A row keeps its terms for ever, and a terminal row keeps everything.
  predicate MayBecome(i: Intent, j: Intent)
  {
    j == i.(state := j.state, height := j.height, hash := j.hash) && (j == i || InFlight(i))
  }

  // Old rows progress; new rows start reserved.
  ghost predicate Progress(db: Db, db': Db)
  {
    && (forall n | n in db.intents :: n in db'.intents && MayBecome(db.intents[n], db'.intents[n]))
    && (forall n | n in db'.intents && n !in db.intents :: InFlight(db'.intents[n]))
  }

  // No row other than `n`'s reaches a terminal state.
  ghost predicate OnlyResolves(db: Db, db': Db, which: set<Nonce>)
  {
    forall n | n in db'.intents && !InFlight(db'.intents[n]) && n !in which ::
        n in db.intents && db.intents[n] == db'.intents[n]
  }

  predicate SameIntents(db: Db, db': Db)
  {
    db'.intents == db.intents && db'.outside == db.outside
  }

  lemma NewIntent(db: Db, db': Db, id: Nonce)
    requires db'.intents == db.intents || (id !in db.intents && id in db'.intents && InFlight(db'.intents[id]) &&
                                           db'.intents == db.intents[id := db'.intents[id]])
    ensures Progress(db, db') && OnlyResolves(db, db', {})
  {
  }

  lemma WithdrawAddsIntent(db: Db, id: Nonce, user: User, amount: int64, request: string, expiry: int64)
    requires id !in db.intents
    ensures var db' := RequestWithdraw(db, id, user, amount, request, expiry).0;
      Progress(db, db') && OnlyResolves(db, db', {})
  {
    hide Move, Progress, OnlyResolves;
    MoveOnlyBook(db, ReserveKey(id), ReserveLegs(user, amount));
    var db' := RequestWithdraw(db, id, user, amount, request, expiry).0;
    assert db'.intents == db.intents || db'.intents ==
        db.intents[id := Intent(Withdraw, user, "", amount, StateReserved, expiry, 0, 0, |db.intents|)];
    hide RequestWithdraw;
    NewIntent(db, db', id);
  }

  lemma OperatorsAddIntents(db: Db, id: Nonce, market: Market, outcome: int64, target: int64, expiry: int64)
    requires id !in db.intents
    ensures var db' := RequestSettlement(db, id, market, outcome).0; Progress(db, db') && OnlyResolves(db, db', {})
    ensures var db' := RequestEscrowSet(db, id, market, target, expiry); Progress(db, db') && OnlyResolves(db, db', {})
  {
    hide Progress, OnlyResolves;
    NewIntent(db, RequestSettlement(db, id, market, outcome).0, id);
    NewIntent(db, RequestEscrowSet(db, id, market, target, expiry), id);
  }

  lemma IntentStepProgress(db: Db, db': Db, n: Nonce)
    requires IntentStep(db, db', n) && InFlight(db.intents[n])
    ensures Progress(db, db') && OnlyResolves(db, db', {n})
  {
  }

  lemma NoProgress(db: Db, n: Nonce)
    ensures Progress(db, db) && OnlyResolves(db, db, {n})
  {
  }

  lemma ResolveProgress(s: Sys, n: Nonce, deadlinePassed: bool)
    requires Inv(s) && n in s.db.intents && InFlight(s.db.intents[n])
    ensures Progress(s.db, Resolve(s, n, deadlinePassed).db) &&
        OnlyResolves(s.db, Resolve(s, n, deadlinePassed).db, {n})
  {
    hide Inv, DbInv, Resolve, Confirm, Expire, IntentStep, Progress, OnlyResolves;
    PartsOf(s);
    IntentOf(s, n);
    ResolveOutcome(s, n, deadlinePassed);
    ConfirmKeeps(s.db, n, TxStatus(s.chain, n).height, TxStatus(s.chain, n).hash);
    ExpireKeeps(s.db, n, s.chain.head);
    NoProgress(s.db, n);
    IntentStepProgress(s.db, Confirm(s.db, n, TxStatus(s.chain, n).height, TxStatus(s.chain, n).hash).0, n);
    IntentStepProgress(s.db, Expire(s.db, n, s.chain.head).0, n);
  }

  lemma MarkProgress(db: Db, n: Nonce)
    ensures Progress(db, MarkSubmitted(db, n)) && OnlyResolves(db, MarkSubmitted(db, n), {})
  {
    hide Progress, OnlyResolves;
    if n in db.intents && db.intents[n].state == StateReserved {
      MovedAlong(db, MarkSubmitted(db, n), n, db.intents[n].(state := StateSubmitted));
    } else {
      NewIntent(db, db, n);
    }
  }

  lemma MovedAlong(db: Db, db': Db, n: Nonce, i: Intent)
    requires n in db.intents && InFlight(db.intents[n]) && InFlight(i) && i == db.intents[n].(state := i.state)
    requires db'.intents == db.intents[n := i]
    ensures Progress(db, db') && OnlyResolves(db, db', {})
  {
  }

  ghost function Resolving(step: Step): set<Nonce>
  {
    if step.Resolves? then {step.intent} else {}
  }

  predicate TouchesIntents(step: Step)
  {
    step.RequestsWithdraw? || step.RequestsSettlement? || step.RequestsEscrow? || step.Marks? || step.Resolves?
  }

  predicate MovesMoney(step: Step)
  {
    step.Opens? || step.Closes? || step.Applies? || step.Reverts?
  }

  lemma MoneyLeavesIntents(s: Sys, step: Step)
    requires Allowed(s, step) && MovesMoney(step)
    ensures SameIntents(s.db, Next(s, step).db)
  {
    hide OpenPosition, ClosePosition, ApplyDeposit, RevertFact, OrphanedBlock;
    match step {
      case Opens(id, user, market, side, size, request) => OpenFrame(s.db, id, user, market, side, size, request);
      case Closes(id, mark, liquidation) => CloseFrame(s.db, id, mark, liquidation);
      case Applies(e) => CreditFrame(s.db, e);
      case Reverts(e) => RevertFrame(s.db, e);
    }
  }

  lemma QuietLeavesIntents(s: Sys, step: Step)
    requires Allowed(s, step) && !MovesMoney(step) && !TouchesIntents(step)
    ensures Next(s, step).db.intents == s.db.intents
    ensures !step.PostsOutside? ==> Next(s, step).db.outside == s.db.outside
  {
    hide Mine, SubmitTx, HeadState, Posting, CanMine, Recorded;
  }

  lemma IntentsUntouched(s: Sys, step: Step)
    requires DbInv(s.db) && Allowed(s, step) && !TouchesIntents(step)
    ensures Next(s, step).db.intents == s.db.intents
    ensures !step.PostsOutside? ==> Next(s, step).db.outside == s.db.outside
  {
    hide DbInv, Allowed, Next;
    if MovesMoney(step) {
      MoneyLeavesIntents(s, step);
    } else {
      QuietLeavesIntents(s, step);
    }
  }

  lemma AddingStepProgress(s: Sys, step: Step)
    requires Allowed(s, step) && TouchesIntents(step) && !step.Resolves?
    ensures Progress(s.db, Next(s, step).db) && OnlyResolves(s.db, Next(s, step).db, {})
  {
    hide Progress, OnlyResolves, RequestWithdraw, RequestSettlement, RequestEscrowSet, MarkSubmitted, CollateralIn;
    match step {
      case RequestsWithdraw(id, user, amount, request, expiry) => WithdrawAddsIntent(s.db, id, user, amount, request,
          expiry);
      case RequestsSettlement(id, market, outcome) => OperatorsAddIntents(s.db, id, market, outcome, 0, 0);
      case RequestsEscrow(id, market, target, expiry) => OperatorsAddIntents(s.db, id, market, 0, target, expiry);
      case Marks(n) => MarkProgress(s.db, n);
    }
  }

  // Every step only moves intents forward, and only the resolver reaches a terminal state.
  lemma StepProgress(s: Sys, step: Step)
    requires Inv(s) && Allowed(s, step)
    ensures Progress(s.db, Next(s, step).db) && OnlyResolves(s.db, Next(s, step).db, Resolving(step))
  {
    hide Inv, DbInv, Progress, OnlyResolves;
    PartsOf(s);
    if step.Resolves? {
      hide Resolve;
      ResolveProgress(s, step.intent, step.deadlinePassed);
    } else if TouchesIntents(step) {
      AddingStepProgress(s, step);
    } else {
      IntentsUntouched(s, step);
      hide Next;
      NewIntent(s.db, Next(s, step).db, DepositId(0));
    }
  }

  /* ----- the theorem ----- */

  lemma ExpiryKept(db: Db, db': Db, n: Nonce)
    requires Progress(db, db') && n in db.intents
    ensures n in db'.intents && db'.intents[n].expiry == db.intents[n].expiry
  {
  }

  // Only mining changes the canonical chain.
  lemma CanonHeadFrame(s: Sys, step: Step)
    requires Allowed(s, step) && !step.Mines?
    ensures Canon(Next(s, step).chain) == Canon(s.chain) && Next(s, step).chain.head == s.chain.head
  {
    hide Resolve, RequestWithdraw, OpenPosition, ClosePosition, RequestSettlement, RequestEscrowSet, ApplyDeposit,
         RevertFact, PostOutside, HeadState, IsExpired, SeedMarket, SetMark, AdvanceCursor, SetStatus,
         MarkFactFinalized, RecordEvent, MarkSubmitted, OrphanedBlock, CollateralIn, Recorded, Mine, SubmitTx;
    if step.Resolves? {
      CanonAfterResolve(s, step.intent, step.deadlinePassed);
    } else if step.Submits? {
      SubmitOnlyQueues(s.chain, s.db.outbox[step.intent], step.fate);
    }
  }

  lemma SubmitOnlyQueues(c: Chain, t: Tx, fate: Fate)
    ensures var c' := SubmitTx(c, t, fate).0; c' == c.(mempool := c'.mempool)
  {
    hide HeadState;
  }

  lemma StepHoldsRefunds(s: Sys, step: Step)
    requires Inv(s) && Allowed(s, step) && RefundsHold(s) && KeepsRefunds(s, step)
    ensures RefundsHold(Next(s, step))
  {
    var s' := Next(s, step);
    StepProgress(s, step);
    forall n | RefundedWithdrawal(s'.db, n)
      ensures Site(Canon(s'.chain), n) < 0 && s'.chain.head >= s'.db.intents[n].expiry
    {
      RefundHeld(s, step, n);
    }
  }

  lemma RefundHeld(s: Sys, step: Step, n: Nonce)
    requires Inv(s) && Allowed(s, step) && RefundsHold(s) && KeepsRefunds(s, step)
    requires Progress(s.db, Next(s, step).db) && OnlyResolves(s.db, Next(s, step).db, Resolving(step))
    requires RefundedWithdrawal(Next(s, step).db, n)
    ensures Site(Canon(Next(s, step).chain), n) < 0 && Next(s, step).chain.head >= Next(s, step).db.intents[n].expiry
  {
    hide Inv, Progress;
    if step.Mines? {
      hide Mine;
      MiningHoldsRefund(s, step.depth, step.shuffled, step.hash, n);
    } else {
      ExpiryKept(s.db, Next(s, step).db, n);
      CanonHeadFrame(s, step);
      if step.Resolves? && step.intent == n {
        hide Resolve;
        RefundIsJustified(s, n, step.deadlinePassed);
      } else {
        hide Next;
      }
    }
  }

  // Under R no refunded withdrawal is ever on the canonical chain, at any moment of any run.
  lemma {:induction false} RefundsAlwaysHold(s: Sys, steps: seq<Step>)
    requires Inv(s) && RefundsHold(s) && IsTrace(s, steps) && HypothesisR(s, steps)
    ensures Inv(Final(s, steps)) && RefundsHold(Final(s, steps))
    decreases |steps|
  {
    hide Inv, RefundsHold, KeepsRefunds, Next;
    if steps != [] {
      StepKeeps(s, steps[0]);
      StepHoldsRefunds(s, steps[0]);
      RefundsAlwaysHold(Next(s, steps[0]), steps[1..]);
    }
  }

  lemma NothingPaidTwice(s: Sys)
    requires Inv(s) && RefundsHold(s)
    ensures PaidTwice(s) == 0
  {
    var twice := FinalisedIn(s, Refunded);
    forall n | n in twice ensures twice[n] == 0 {
      assert TruthfulAbout(s.chain, n);
      if s.db.intents[n].state == StateExpired && s.db.intents[n].kind == Withdraw {
        assert RefundedWithdrawal(s.db, n);
      }
    }
    SumSkipsZeros(twice, map[]);
  }

  /* ----- what follows for whole runs ----- */

  // An intent keeps its terms for ever.
  lemma {:induction false} TermsAreForever(s: Sys, steps: seq<Step>, n: Nonce)
    requires Inv(s) && IsTrace(s, steps) && n in s.db.intents
    ensures n in Final(s, steps).db.intents && MayBecome(s.db.intents[n], Final(s, steps).db.intents[n])
    decreases |steps|
  {
    hide Inv, Next, Allowed, OnlyResolves;
    if steps != [] {
      StepKeeps(s, steps[0]);
      StepProgress(s, steps[0]);
      TermsAreForever(Next(s, steps[0]), steps[1..], n);
    }
  }

  // A confirmed or expired intent stays exactly as it is.
  lemma {:induction false} TerminalIsForever(s: Sys, steps: seq<Step>, n: Nonce)
    requires Inv(s) && IsTrace(s, steps) && n in s.db.intents && !InFlight(s.db.intents[n])
    ensures n in Final(s, steps).db.intents && Final(s, steps).db.intents[n] == s.db.intents[n]
    decreases |steps|
  {
    if steps != [] {
      StepKeeps(s, steps[0]);
      StepProgress(s, steps[0]);
      hide Inv, Next;
      TerminalIsForever(Next(s, steps[0]), steps[1..], n);
    }
  }

  // Paid or refunded, never both: once refunded, a withdrawal is on no canonical chain of the rest
  // of the run; once confirmed, it is final on the chain for the rest of the run.
  lemma PaidOrRefundedNeverBoth(s: Sys, steps: seq<Step>, n: Nonce)
    requires Inv(s) && RefundsHold(s) && IsTrace(s, steps) && HypothesisR(s, steps)
    requires n in s.db.intents && s.db.intents[n].kind == Withdraw && !InFlight(s.db.intents[n])
    ensures var c := Final(s, steps).chain;
      if s.db.intents[n].state == StateExpired then !TxStatus(c, n).processed
      else TxStatus(c, n).finalized && TxStatus(c, n).hash == s.db.intents[n].hash
  {
    RefundsAlwaysHold(s, steps);
    TerminalIsForever(s, steps, n);
    var s' := Final(s, steps);
    assert TruthfulAbout(s'.chain, n);
    if s.db.intents[n].state == StateExpired {
      assert RefundedWithdrawal(s'.db, n);
    }
  }

  // R holds by itself while finality has reached the expiry of every refunded withdrawal, and in
  // every step that is not a reorg.
  lemma FinalityGivesR(s: Sys, step: Step)
    requires Inv(s) && Allowed(s, step)
    requires (forall n | RefundedWithdrawal(s.db, n) :: s.chain.finalHeight >= s.db.intents[n].expiry)
          || !step.Mines? || step.depth == 0
    ensures KeepsRefunds(s, step)
  {
    if step.Mines? && step.depth > 0 {
      assert Shaped(s.chain) && step.depth <= |s.chain.pending|;
    }
  }

  lemma OutsideUntouched(s: Sys, step: Step)
    requires Inv(s) && Allowed(s, step) && !step.PostsOutside?
    ensures Next(s, step).db.outside == s.db.outside
  {
    hide Inv, DbInv;
    PartsOf(s);
    if step.Resolves? {
      hide Resolve;
      OutsideAfterResolve(s, step.intent, step.deadlinePassed);
    } else if TouchesIntents(step) {
      hide Next;
      RequestsPostNothing(s, step);
    } else {
      hide Next;
      IntentsUntouched(s, step);
    }
  }

  lemma RequestsPostNothing(s: Sys, step: Step)
    requires Allowed(s, step) && TouchesIntents(step) && !step.Resolves?
    ensures Next(s, step).db.outside == s.db.outside
  {
    if step.RequestsWithdraw? {
      MoveOnlyBook(s.db, ReserveKey(step.id), ReserveLegs(step.user, step.amount));
    }
    hide Move, EscrowInFlight, CollateralIn;
  }

  lemma OutsideAfterResolve(s: Sys, n: Nonce, deadlinePassed: bool)
    requires Inv(s) && n in s.db.intents && InFlight(s.db.intents[n])
    ensures Resolve(s, n, deadlinePassed).db.outside == s.db.outside
  {
    hide Inv, DbInv, Resolve, Confirm, Expire;
    PartsOf(s);
    IntentOf(s, n);
    ResolveOutcome(s, n, deadlinePassed);
    ConfirmKeeps(s.db, n, TxStatus(s.chain, n).height, TxStatus(s.chain, n).hash);
    ExpireKeeps(s.db, n, s.chain.head);
  }

  ghost predicate Legitimate(steps: seq<Step>)
  {
    forall i | 0 <= i < |steps| :: !steps[i].PostsOutside?
  }

  lemma {:induction false} LegitimateRunsPostNothing(s: Sys, steps: seq<Step>)
    requires Inv(s) && IsTrace(s, steps) && Legitimate(steps)
    ensures Final(s, steps).db.outside == s.db.outside
    decreases |steps|
  {
    hide Inv, Next;
    if steps != [] {
      assert !steps[0].PostsOutside?;
      StepKeeps(s, steps[0]);
      OutsideUntouched(s, steps[0]);
      LegitimateRunsPostNothing(Next(s, steps[0]), steps[1..]);
    }
  }

  // The reconciliation identity for whole runs. Under R the residue is the outside money and
  // nothing else, so a legitimate run explains every unit and a shortfall is reported exactly
  // when outside callers have credited users on balance.
  lemma EveryUnitIsExplained(confirms: int, steps: seq<Step>)
    requires IsTrace(Start(confirms), steps) && HypothesisR(Start(confirms), steps)
    ensures var s := Final(Start(confirms), steps);
      && (FactsSettled(s) ==> Unexplained(s) == Wrapped(s.db.outside))
      && (Legitimate(steps) ==> s.db.outside == 0)
  {
    hide Inv, RefundsHold, Unexplained, PaidTwice, FactsSettled, Next, Allowed, Start, Legitimate;
    StartHolds(confirms);
    RefundsAlwaysHold(Start(confirms), steps);
    ResidueUnderR(Final(Start(confirms), steps));
    if Legitimate(steps) {
      LegitimateRunsPostNothing(Start(confirms), steps);
    }
  }

  lemma StartHolds(confirms: int)
    ensures Inv(Start(confirms)) && RefundsHold(Start(confirms)) && Start(confirms).db.outside == 0
  {
    StartSound(confirms);
    hide Inv;
  }

  lemma ResidueUnderR(s: Sys)
    requires Inv(s) && RefundsHold(s)
    ensures FactsSettled(s) ==> Unexplained(s) == Wrapped(s.db.outside)
  {
    hide Inv, RefundsHold, Unexplained, PaidTwice, FactsSettled;
    NothingPaidTwice(s);
    if FactsSettled(s) {
      ResidueIsExact(s);
    }
  }
}
