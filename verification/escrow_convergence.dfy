/** Ledger and vault draw together, market by market. At most one instruction works on a market; a gap
    nobody works on gets one with the very level the ledger holds; and a final instruction that no
    later call has overtaken leaves exactly that level in the vault. */
module EscrowConvergence {
  import opened Integers
  import opened GoVault
  import opened ChainModel
  import opened Ledger
  import opened Store
  import opened StoreInvariants
  import opened System
  import opened SystemInvariants
  import opened SystemRefunds
  import opened Resolution
  import opened Escrow
  import opened EscrowTick
  import opened EscrowResolution
  import Requests

  /* ----- one instruction per market ----- */

  predicate Rivals(i: Intent, j: Intent)
  {
    i.kind == EscrowSet && j.kind == EscrowSet && InFlight(i) && InFlight(j) && i.market == j.market
  }

  ghost predicate OneEach(db: Db)
  {
    forall n, m | n in db.intents && m in db.intents && n != m :: !Rivals(db.intents[n], db.intents[m])
  }

  ghost predicate NoInstructionAdded(db: Db, db': Db)
  {
    forall n | n in db'.intents && n !in db.intents :: db'.intents[n].kind != EscrowSet
  }

  lemma ProgressKeepsOne(db: Db, db': Db)
    requires OneEach(db) && Progress(db, db') && NoInstructionAdded(db, db')
    ensures OneEach(db')
  {
    forall n, m | n in db'.intents && m in db'.intents && n != m ensures !Rivals(db'.intents[n], db'.intents[m]) {
      if n in db.intents && m in db.intents {
        assert MayBecome(db.intents[n], db'.intents[n]) && MayBecome(db.intents[m], db'.intents[m]);
        assert !Rivals(db.intents[n], db.intents[m]);
      }
    }
  }

  lemma InstructKeepsOne(db: Db, id: Nonce, market: Market, target: int64, expiry: int64)
    requires OneEach(db) && id !in db.intents
    ensures OneEach(RequestEscrowSet(db, id, market, target, expiry))
  {
    var db' := RequestEscrowSet(db, id, market, target, expiry);
    forall n, m | n in db'.intents && m in db'.intents && n != m ensures !Rivals(db'.intents[n], db'.intents[m]) {
      if n in db.intents && m in db.intents {
        assert !Rivals(db.intents[n], db.intents[m]);
      }
    }
  }

  lemma OthersAdded(db: Db, id: Nonce, market: Market, outcome: int64)
    ensures NoInstructionAdded(db, RequestSettlement(db, id, market, outcome).0)
    ensures NoInstructionAdded(db, MarkSubmitted(db, id))
  {
    hide SettleRequest;
  }

  lemma WithdrawalAdded(db: Db, id: Nonce, user: User, amount: int64, request: string, expiry: int64)
    ensures NoInstructionAdded(db, RequestWithdraw(db, id, user, amount, request, expiry).0)
  {
    MoveOnlyBook(db, ReserveKey(id), ReserveLegs(user, amount));
    hide Move, ReserveLegs;
  }

  lemma NothingAdded(db: Db, db': Db)
    requires db'.intents.Keys == db.intents.Keys
    ensures NoInstructionAdded(db, db')
  {
  }

  lemma StepAddsNoInstruction(s: Sys, step: Step)
    requires Inv(s) && DbInv(s.db) && Allowed(s, step) && !step.RequestsEscrow?
    ensures NoInstructionAdded(s.db, Next(s, step).db)
  {
    hide Inv, DbInv, NoInstructionAdded;
    if step.Resolves? {
      hide Resolve;
      Requests.ResolveKeepsFreezes(s, step.intent, step.deadlinePassed);
      NothingAdded(s.db, Next(s, step).db);
    } else if TouchesIntents(step) {
      hide RequestSettlement, RequestWithdraw, MarkSubmitted;
      match step {
        case RequestsWithdraw(id, user, amount, request, expiry) =>
          WithdrawalAdded(s.db, id, user, amount, request, expiry);
        case RequestsSettlement(id, market, outcome) => OthersAdded(s.db, id, market, outcome);
        case Marks(n) => OthersAdded(s.db, n, "", 0);
      }
    } else {
      IntentsUntouched(s, step);
      hide Next;
      NothingAdded(s.db, Next(s, step).db);
    }
  }

  lemma StepKeepsOne(s: Sys, step: Step)
    requires Inv(s) && Allowed(s, step) && OneEach(s.db)
    ensures OneEach(Next(s, step).db)
  {
    hide Inv, DbInv, OneEach, NoInstructionAdded, Progress, OnlyResolves;
    PartsOf(s);
    if step.RequestsEscrow? {
      hide RequestEscrowSet, CollateralIn;
      InstructKeepsOne(s.db, step.id, step.market, step.target, step.expiry);
    } else {
      hide Next, Allowed;
      StepProgress(s, step);
      StepAddsNoInstruction(s, step);
      ProgressKeepsOne(s.db, Next(s, step).db);
    }
  }

  lemma StartHasOne(confirms: int)
    ensures OneEach(Start(confirms).db)
  {
  }

  // In every run at most one instruction per market is in flight.
  lemma {:induction false} OneInstructionEach(s: Sys, steps: seq<Step>)
    requires Inv(s) && OneEach(s.db) && IsTrace(s, steps)
    ensures Inv(Final(s, steps)) && OneEach(Final(s, steps).db)
    decreases |steps|
  {
    hide Inv, OneEach, Next, Allowed;
    if steps != [] {
      StepKeeps(s, steps[0]);
      StepKeepsOne(s, steps[0]);
      OneInstructionEach(Next(s, steps[0]), steps[1..]);
    }
  }

  /* ----- a gap is taken up ----- */

  // An instruction in flight that carries this level to this market.
  ghost predicate Carries(db: Db, n: Nonce, market: Market, level: int)
  {
    && n in db.intents && n in db.outbox && IsTarget(db.intents[n], market) && db.intents[n].amount == level
    && db.outbox[n].kind == EscrowSet && db.outbox[n].market == market && db.outbox[n].target == level
    && db.outbox[n].expiry == db.intents[n].expiry
  }

  // After an issuing pass somebody works on every gap of a live market that the vault has not settled:
  // who did before, or a new instruction to hold exactly the collateral.
  lemma StandingGapIsInstructed(s: Sys, targets: map<Market, int>, issued: seq<Market>, db': Db, first: nat, m: Market)
    requires AllBelow(s.db, first) && TargetsInFlight(s.db, targets)
    requires IssuesFor(s, targets, LiveMarkets(s.db), issued) && Instructed(s, db', issued, first)
    requires m in LiveMarkets(s.db) && Collateral(s.db, m) != EscrowOf(s.chain.final, m) && m !in s.chain.final.settled
    ensures EscrowInFlight(s.db, m) || exists n :: n !in s.db.intents && Carries(db', n, m, Collateral(s.db, m))
  {
    hide LiveMarkets, Collateral, EscrowInFlight;
    if !EscrowInFlight(s.db, m) {
      assert m !in targets && ShouldIssue(s, targets, m) && m in issued;
      var i :| 0 <= i < |issued| && issued[i] == m;
      var n := IntentId(first + i);
      assert IsInstruction(s, db', n, issued[i]);
      assert n !in s.db.intents && Carries(db', n, m, Collateral(s.db, m));
    }
  }

  // However a market's instruction fares, by its bound it makes way: in the next issuing pass a gap
  // that still stands, or stands again, is worked on by another.
  lemma LostInstructionIsReplaced(s: Sys, rounds: seq<Round>, n: Nonce, targets: map<Market, int>,
      issued: seq<Market>, db': Db, first: nat)
    requires Inv(s) && AreRounds(s, rounds) && AllClear(s, rounds, n) && InstructionOf(s, n) && InTime(s, n)
    requires AfterRounds(s, rounds).chain.head >= s.db.intents[n].expiry + s.chain.confirms
    requires var s', m := AfterRounds(s, rounds), s.db.intents[n].market;
      && AllBelow(s'.db, first) && TargetsInFlight(s'.db, targets)
      && IssuesFor(s', targets, LiveMarkets(s'.db), issued) && Instructed(s', db', issued, first)
      && m in LiveMarkets(s'.db) && Collateral(s'.db, m) != EscrowOf(s'.chain.final, m) && m !in s'.chain.final.settled
    ensures var s', m := AfterRounds(s, rounds), s.db.intents[n].market;
      && n in s'.db.intents && !InFlight(s'.db.intents[n])
      && exists other :: other != n && other in db'.intents && IsTarget(db'.intents[other], m)
  {
    var s', m := AfterRounds(s, rounds), s.db.intents[n].market;
    InstructionsResolve(s, rounds, n);
    hide Inv, LiveMarkets, Collateral, AreRounds, AllClear, AfterRounds, IssuesFor, TargetsInFlight, AllBelow, InTime;
    StandingGapIsInstructed(s', targets, issued, db', first, m);
    SomebodyWorks(s', issued, db', first, n, m);
  }

  lemma SomebodyWorks(s: Sys, issued: seq<Market>, db': Db, first: nat, n: Nonce, m: Market)
    requires Instructed(s, db', issued, first) && n in s.db.intents && !InFlight(s.db.intents[n])
    requires EscrowInFlight(s.db, m) || exists x :: x !in s.db.intents && Carries(db', x, m, Collateral(s.db, m))
    ensures exists other :: other != n && other in db'.intents && IsTarget(db'.intents[other], m)
  {
    hide Collateral;
    if EscrowInFlight(s.db, m) {
      var x :| x in s.db.intents && s.db.intents[x].kind == EscrowSet && s.db.intents[x].market == m &&
          InFlight(s.db.intents[x]);
      assert x != n && db'.intents[x] == s.db.intents[x] && IsTarget(db'.intents[x], m);
    } else {
      var x :| x !in s.db.intents && Carries(db', x, m, Collateral(s.db, m));
      assert x != n && IsTarget(db'.intents[x], m);
    }
  }

  /* ----- what a final instruction leaves in the vault ----- */

  predicate MovesEscrowOf(tx: Tx, market: Market)
  {
    (tx.kind == EscrowSet || tx.kind == SettleMarket) && tx.market == market
  }

  lemma SetsEscrow(v: Vault, c: Call)
    requires Apply(v, c.tx, c.height).ok && c.tx.kind == EscrowSet
    ensures EscrowOf(Apply(v, c.tx, c.height).vault, c.tx.market) == c.tx.target
  {
    hide Free, Wrapped;
  }

  lemma LeavesEscrow(v: Vault, c: Call, market: Market)
    requires !MovesEscrowOf(c.tx, market)
    ensures EscrowOf(Apply(v, c.tx, c.height).vault, market) == EscrowOf(v, market)
  {
    hide Free, Wrapped;
  }

  lemma {:induction false} EscrowStands(calls: seq<Call>, at: nat)
    requires Accepted(EMPTY, calls) && at < |calls| && calls[at].tx.kind == EscrowSet
    requires forall k | at < k < |calls| :: !MovesEscrowOf(calls[k].tx, calls[at].tx.market)
    ensures EscrowOf(Run(EMPTY, calls), calls[at].tx.market) == calls[at].tx.target
    decreases |calls|
  {
    var last := |calls| - 1;
    var rest := calls[..last];
    assert calls == rest + [calls[last]];
    RunSnoc(EMPTY, rest, calls[last]);
    hide Apply, EscrowOf;
    if at == last {
      SetsEscrow(Run(EMPTY, rest), calls[last]);
    } else {
      assert rest[at] == calls[at];
      forall k | at < k < |rest| ensures !MovesEscrowOf(rest[k].tx, rest[at].tx.market) {
        assert rest[k] == calls[k];
      }
      EscrowStands(rest, at);
      LeavesEscrow(Run(EMPTY, rest), calls[last], calls[at].tx.market);
    }
  }

  // A final instruction stands in the finalised history with its market and its level, and the vault
  // holds that level for the market unless a later call has moved it.
  lemma FinalInstructionStands(s: Sys, n: Nonce) returns (at: nat)
    requires Inv(s) && InstructionOf(s, n) && TxStatus(s.chain, n).finalized
    ensures var calls, i := AllCalls(s.chain.history), s.db.intents[n];
      && at < |calls| && calls[at].tx.nonce == n && calls[at].tx.kind == EscrowSet
      && calls[at].tx.market == i.market && calls[at].tx.target == i.amount
      && ((forall k | at < k < |calls| :: !MovesEscrowOf(calls[k].tx, i.market)) ==>
            EscrowOf(s.chain.final, i.market) == i.amount)
  {
    at := FinalPayload(s, n);
    hide Inv;
    IntentOf(s, n);
    PayloadIsInstruction(s.db, n);
    FinalRun(s);
    var calls := AllCalls(s.chain.history);
    hide Run, Accepted, EscrowOf, MovesEscrowOf, IntentRow;
    if forall k | at < k < |calls| :: !MovesEscrowOf(calls[k].tx, s.db.intents[n].market) {
      EscrowStands(calls, at);
    }
  }

  lemma PayloadIsInstruction(db: Db, n: Nonce)
    requires n in db.intents && db.intents[n].kind == EscrowSet && IntentRow(db, n)
    ensures var tx := db.outbox[n];
      tx.nonce == n && tx.kind == EscrowSet && tx.market == db.intents[n].market && tx.target == db.intents[n].amount
  {
  }

  lemma FinalRun(s: Sys)
    requires Inv(s)
    ensures s.chain.final == Run(EMPTY, AllCalls(s.chain.history))
  {
  }

  // From the pass that issues it on, through any run: once the instruction is final, and unless a
  // later call has moved the market's escrow, the vault holds the collateral the pass saw; if the
  // ledger holds the same by then, the gap is closed.
  lemma InstructionClosesTheGap(s: Sys, id: Nonce, market: Market, level: int64, expiry: int64, s1: Sys,
      steps: seq<Step>) returns (at: nat)
    requires Inv(s) && !EscrowInFlight(s.db, market) && Allowed(s, RequestsEscrow(id, market, level, expiry))
    requires s1 == Next(s, RequestsEscrow(id, market, level, expiry))
    requires IsTrace(s1, steps) && TxStatus(Final(s1, steps).chain, id).finalized
    ensures var s2 := Final(s1, steps);
      var calls := AllCalls(s2.chain.history);
      && at < |calls| && calls[at].tx.nonce == id
      && ((forall k | at < k < |calls| :: !MovesEscrowOf(calls[k].tx, market)) ==>
            EscrowOf(s2.chain.final, market) == Collateral(s.db, market))
  {
    IssuedRow(s, id, market, level, expiry);
    hide Inv, Next, Allowed, EscrowInFlight, RequestEscrowSet, Collateral, EscrowOf, Run;
    EveryTraceKeeps(s1, steps);
    TermsAreForever(s1, steps, id);
    at := FinalInstructionStands(Final(s1, steps), id);
  }

  lemma IssuedRow(s: Sys, id: Nonce, market: Market, level: int64, expiry: int64)
    requires Inv(s) && !EscrowInFlight(s.db, market) && Allowed(s, RequestsEscrow(id, market, level, expiry))
    ensures var s1 := Next(s, RequestsEscrow(id, market, level, expiry));
      && Inv(s1) && InstructionOf(s1, id) && s1.db.intents[id].market == market
      && s1.db.intents[id].amount == level == Collateral(s.db, market)
  {
    hide Inv, EscrowInFlight;
    StepKeeps(s, RequestsEscrow(id, market, level, expiry));
    EscrowRequestAdds(s.db, id, market, level, expiry);
  }
}
