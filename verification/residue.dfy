/** The reconciliation identity. Whatever the system has been through, the part of
    `ledger - vault` that the reconciler's three terms do not explain is exactly the money posted
    from outside the protocol plus the refunded withdrawals the chain has paid anyway. */
module Residue {
  import opened Integers
  import opened Sums
  import opened GoVault
  import opened ChainModel
  import opened ChainBlocks
  import opened ChainInvariants
  import opened Ledger
  import opened Store
  import opened StoreInvariants
  import opened System
  import opened SystemInvariants

  /* ----- the reconciler's terms ----- */

  function FinalisedAmount(s: Sys, n: Nonce): int
    requires n in s.db.intents
  {
    if s.db.intents[n].kind == Withdraw && TxStatus(s.chain, n).finalized then s.db.intents[n].amount else 0
  }

  ghost function FinalisedIn(s: Sys, part: Intent -> bool): map<Nonce, int>
  {
    map n | n in s.db.intents :: if part(s.db.intents[n]) then FinalisedAmount(s, n) else 0
  }

  predicate Refunded(i: Intent)
  {
    i.state == StateExpired
  }

  // Withdrawals the chain has finalised but the ledger has not recognised yet.
  ghost function WithdrawnNotRecognised(s: Sys): int
  {
    Sum(FinalisedIn(s, InFlight))
  }

  // Facts with a credit that has not been compensated.
  ghost function AppliedFacts(db: Db): set<Nonce>
  {
    set e | e in db.facts && !db.facts[e].reverted :: e.fact
  }

  ghost function MissingTotal(facts: seq<Event>, applied: set<Nonce>): int
  {
    if facts == [] then 0
    else
      var last := facts[|facts| - 1];
      MissingTotal(facts[..|facts| - 1], applied) + if last.fact in applied then 0 else last.amount
  }

  // Deposits finalised on chain that never reached the ledger.
  ghost function DepositsNotIngested(s: Sys): int
  {
    MissingTotal(FinalizedFacts(s.chain, Deposit), AppliedFacts(s.db))
  }

  function CreditAbove(height: int): FactRow -> int
  {
    (f: FactRow) => if !f.reverted && f.height > height then f.amount as int else 0
  }

  // Credits granted on blocks that are not final yet.
  ghost function ProvisionalCredits(s: Sys): int
  {
    SumOf(s.db.facts, CreditAbove(s.chain.finalHeight))
  }

  ghost function Explained(s: Sys): int
  {
    WithdrawnNotRecognised(s) - DepositsNotIngested(s) + ProvisionalCredits(s)
  }

  // The residue as the reconciler computes it, in 64 bits.
  ghost function Unexplained(s: Sys): int64
  {
    Wrapped(Internal(s.db.book) - s.chain.final.balance - Explained(s))
  }

  // The custody that the finalised history has built up.
  ghost function FinalCustody(s: Sys): int
  {
    TrueCustody(AllCalls(s.chain.history))
  }

  // Refunded withdrawals that the chain has finalised all the same.
  ghost function PaidTwice(s: Sys): int
  {
    Sum(FinalisedIn(s, Refunded))
  }

  // What the pass over provisional credits leaves behind.
  ghost predicate FactsSettled(s: Sys)
  {
    forall e | e in s.db.facts && Provisional(s.db.facts[e]) :: LiveFact(s.chain, e, s.db.facts[e].height)
  }

  /* ----- the withdrawal side ----- */

  lemma {:induction false} BlockOfCall(blocks: seq<Block>, at: nat) returns (k: nat, j: nat)
    requires at < |AllCalls(blocks)|
    ensures k < |blocks| && j < |blocks[k].txs| && AllCalls(blocks)[at] == Call(blocks[k].txs[j], blocks[k].height)
    decreases |blocks|
  {
    var last := |blocks| - 1;
    var before := AllCalls(blocks[..last]);
    if at < |before| {
      k, j := BlockOfCall(blocks[..last], at);
      assert blocks[..last][k] == blocks[k];
    } else {
      k, j := last, at - |before|;
    }
  }

  // A nonce lands in the finalised history exactly when its status says so.
  lemma FinalisedIsLanded(c: Chain, n: Nonce)
    requires ChainInv(c)
    ensures TxStatus(c, n).finalized <==> Landed(AllCalls(c.history), n)
    ensures Accepted(EMPTY, AllCalls(c.history))
  {
    assert TruthfulAbout(c, n);
    HeadIsFullReplay(c);
    SiteLanded(c.history, n);
    SitePrefix(c.history, c.pending, n);
  }

  // The vault's payouts, nonce by nonce, are the finalised withdrawal intents.
  lemma PayoutIsIntent(s: Sys, n: Nonce)
    requires Inv(s) && n in Moved(AllCalls(s.chain.history), Withdraw)
    ensures n in s.db.intents && s.db.intents[n].kind == Withdraw && TxStatus(s.chain, n).finalized
    ensures Moved(AllCalls(s.chain.history), Withdraw)[n] == s.db.intents[n].amount
  {
    var calls := AllCalls(s.chain.history);
    hide Inv, DbInv, ChainInv;
    PartsOf(s);
    FinalisedIsLanded(s.chain, n);
    MovedKeys(calls, Withdraw, n);
    var i :| 0 <= i < |calls| && calls[i].tx.nonce == n && calls[i].tx.kind == Withdraw;
    assert Landed(calls, n);
    var k, j := BlockOfCall(s.chain.history, i);
    assert Canon(s.chain)[k] == s.chain.history[k];
    HeldInBlock(s.chain, k, j);
    KnownOf(s, calls[i].tx);
    IntentOf(s, n);
    MovedValue(calls, Withdraw, i);
  }

  lemma IntentIsPayout(s: Sys, n: Nonce)
    requires Inv(s) && n in s.db.intents && s.db.intents[n].kind == Withdraw && TxStatus(s.chain, n).finalized
    ensures n in Moved(AllCalls(s.chain.history), Withdraw)
  {
    var calls := AllCalls(s.chain.history);
    var at := FinalPayload(s, n);
    assert IntentRow(s.db, n);
    assert calls[at].tx.nonce == n && calls[at].tx.kind == Withdraw;
    MovedKeys(calls, Withdraw, n);
  }

  lemma PayoutsAreIntents(s: Sys)
    requires Inv(s)
    ensures Sum(Moved(AllCalls(s.chain.history), Withdraw))
            == SumOf(s.db.intents, Paid) + WithdrawnNotRecognised(s) + PaidTwice(s)
  {
    var paid := Moved(AllCalls(s.chain.history), Withdraw);
    var all := map n | n in s.db.intents :: FinalisedAmount(s, n);
    forall n | n in paid ensures n in all && all[n] == paid[n] {
      PayoutIsIntent(s, n);
    }
    forall n | n in all && n !in paid ensures all[n] == 0 {
      if all[n] != 0 {
        IntentIsPayout(s, n);
      }
    }
    SumSkipsZeros(all, paid);
    assert ConfirmedTrue(s);
    hide Inv, ConfirmedTrue;
    ByState(s, all);
  }

  // Every finalised withdrawal is confirmed, still in flight, or refunded.
  lemma ByState(s: Sys, all: map<Nonce, int>)
    requires ConfirmedTrue(s) && all.Keys == s.db.intents.Keys && forall n | n in all :: all[n] == FinalisedAmount(s, n)
    ensures Sum(all) == SumOf(s.db.intents, Paid) + WithdrawnNotRecognised(s) + PaidTwice(s)
  {
    var intents := s.db.intents;
    var waiting, refunded := FinalisedIn(s, InFlight), FinalisedIn(s, Refunded);
    forall n | n in intents ensures all[n] == Paid(intents[n]) + waiting[n] + refunded[n] {
      OneState(s, n);
    }
    assert waiting.Keys == intents.Keys == refunded.Keys;
    hide Sum, ConfirmedTrue, FinalisedAmount, Paid, FinalisedIn, InFlight, Refunded;
    var confirmed := map n | n in intents :: Paid(intents[n]);
    var rest := map n | n in intents :: waiting[n] + refunded[n];
    SumPlus(rest, waiting, refunded);
    SumOfIs(intents, Paid, confirmed);
    SumPlus(all, confirmed, rest);
  }

  lemma OneState(s: Sys, n: Nonce)
    requires ConfirmedTrue(s) && n in s.db.intents
    ensures FinalisedAmount(s, n) == Paid(s.db.intents[n]) + FinalisedIn(s, InFlight)[n] + FinalisedIn(s, Refunded)[n]
  {
  }

  /* ----- the deposit side ----- */

  // A final fact of the event log is a deposit of the finalised history.
  lemma FinalFactIsDeposit(c: Chain, i: nat) returns (k: nat, j: nat)
    requires ChainInv(c) && i < |c.log| && IsFinalFact(c, c.log[i], Deposit)
    ensures k < |c.history| && j < |c.history[k].txs| && Site(Canon(c), c.log[i].fact) == k
    ensures c.log[i] == EventOf(i + 1, c.history[k].txs[j], k + 1, c.history[k].hash)
    ensures var deposits := Moved(AllCalls(c.history), Deposit);
      c.log[i].fact in deposits && deposits[c.log[i].fact] == c.log[i].amount
  {
    var n := c.log[i].fact;
    assert TruthfulAbout(c, n);
    HeadIsFullReplay(c);
    k := Site(Canon(c), n);
    assert Canon(c)[k] == c.history[k];
    j := LiveEvent(c, i, k);
    var at := CallOfBlock(c.history, k, j);
    MovedValue(AllCalls(c.history), Deposit, at);
  }

  lemma DepositIsFinalFact(c: Chain, n: Nonce) returns (i: nat)
    requires ChainInv(c) && n in Moved(AllCalls(c.history), Deposit)
    ensures i < |c.log| && c.log[i].fact == n && IsFinalFact(c, c.log[i], Deposit)
    ensures 0 <= Site(Canon(c), n) < |c.history|
  {
    var calls := AllCalls(c.history);
    MovedKeys(calls, Deposit, n);
    var at :| 0 <= at < |calls| && calls[at].tx.nonce == n && calls[at].tx.kind == Deposit;
    var k, j := BlockOfCall(c.history, at);
    var b := c.history[k];
    assert Canon(c)[k] == b && b.txs[j].nonce == n && b.txs[j].kind == Deposit;
    assert Carries(b.txs, n);
    SiteUnique(Canon(c), n, k);
    assert TruthfulAbout(c, n) && LoggedBlock(c.log, b);
    i := b.log[j];
  }

  // No fact is reported twice.
  lemma FinalFactOnce(c: Chain, i: nat, i': nat)
    requires ChainInv(c) && i < i' < |c.log|
    requires IsFinalFact(c, c.log[i], Deposit) && IsFinalFact(c, c.log[i'], Deposit)
    ensures c.log[i].fact != c.log[i'].fact
  {
    var k, j := FinalFactIsDeposit(c, i);
    var k', j' := FinalFactIsDeposit(c, i');
    if c.log[i].fact == c.log[i'].fact {
      assert Canon(c)[k] == c.history[k];
      SamePosition(c, k, i, j, i', j');
    }
  }

  lemma SamePosition(c: Chain, k: nat, i: nat, j: nat, i': nat, j': nat)
    requires ChainInv(c) && k < |Canon(c)| && i < |c.log| && i' < |c.log|
    requires j < |Canon(c)[k].txs| && j' < |Canon(c)[k].txs| && Canon(c)[k].txs[j].nonce == Canon(c)[k].txs[j'].nonce
    requires c.log[i] == EventOf(i + 1, Canon(c)[k].txs[j], k + 1, Canon(c)[k].hash)
    requires c.log[i'] == EventOf(i' + 1, Canon(c)[k].txs[j'], k + 1, Canon(c)[k].hash)
    ensures i == i'
  {
    var b := Canon(c)[k];
    assert LoggedBlock(c.log, b);
    var p :| 0 <= p < |b.log| && b.log[p] == i;
    var p' :| 0 <= p' < |b.log| && b.log[p'] == i';
    OncePerBlock(c, k, p, p');
    OncePerBlock(c, k, j, j');
    OncePerBlock(c, k, p, j);
  }

  // The reported facts as a table.
  function AmountsOf(facts: seq<Event>): map<Nonce, int>
  {
    if facts == [] then map[] else AmountsOf(facts[..|facts| - 1])[facts[|facts| - 1].fact := facts[|facts| - 1].amount]
  }

  ghost predicate Reported(c: Chain, count: nat, n: Nonce)
    requires count <= |c.log|
  {
    exists i | 0 <= i < count :: c.log[i].fact == n && IsFinalFact(c, c.log[i], Deposit)
  }

  lemma ReportedSnoc(c: Chain, count: nat, n: Nonce)
    requires 0 < count <= |c.log|
    ensures Reported(c, count, n) <==>
            Reported(c, count - 1, n) || (c.log[count - 1].fact == n && IsFinalFact(c, c.log[count - 1], Deposit))
  {
  }

  lemma AmountsSnoc(facts: seq<Event>, e: Event)
    ensures AmountsOf(facts + [e]) == AmountsOf(facts)[e.fact := e.amount as int]
  {
    assert (facts + [e])[..|facts|] == facts;
  }

  lemma FactsUpToStep(c: Chain, count: nat)
    requires 0 < count <= |c.log|
    ensures var before, last := FactsUpTo(c, Deposit, count - 1), c.log[count - 1];
      FactsUpTo(c, Deposit, count) == if IsFinalFact(c, last, Deposit) then before + [last] else before
  {
  }

  lemma {:induction false} FactListed(c: Chain, count: nat, n: Nonce)
    requires ChainInv(c) && count <= |c.log|
    ensures n in AmountsOf(FactsUpTo(c, Deposit, count)) <==> Reported(c, count, n)
    ensures n in AmountsOf(FactsUpTo(c, Deposit, count)) ==>
              n in Moved(AllCalls(c.history), Deposit) &&
              AmountsOf(FactsUpTo(c, Deposit, count))[n] == Moved(AllCalls(c.history), Deposit)[n]
    decreases count
  {
    hide ChainInv, FactsUpTo, AmountsOf, Moved, AllCalls;
    if count > 0 {
      var before, last := FactsUpTo(c, Deposit, count - 1), c.log[count - 1];
      FactListed(c, count - 1, n);
      FactsUpToStep(c, count);
      ReportedSnoc(c, count, n);
      if IsFinalFact(c, last, Deposit) {
        AmountsSnoc(before, last);
        var k, j := FinalFactIsDeposit(c, count - 1);
      }
    } else {
      NothingListed(c, n);
    }
  }

  lemma NothingListed(c: Chain, n: Nonce)
    ensures n !in AmountsOf(FactsUpTo(c, Deposit, 0)) && !Reported(c, 0, n)
  {
  }

  lemma {:induction false} MissingIsSum(c: Chain, count: nat, applied: set<Nonce>)
    requires ChainInv(c) && count <= |c.log|
    ensures MissingTotal(FactsUpTo(c, Deposit, count), applied) ==
        Sum(AmountsOf(FactsUpTo(c, Deposit, count)) - applied)
    decreases count
  {
    hide ChainInv, MissingTotal, AmountsOf, Sum;
    if count == 0 {
      NothingMissing(applied);
    } else {
      MissingIsSum(c, count - 1, applied);
      if IsFinalFact(c, c.log[count - 1], Deposit) {
        NewFact(c, count);
        hide IsFinalFact, FactsUpTo;
        MissingSnoc(FactsUpTo(c, Deposit, count), applied);
      }
    }
  }

  lemma NothingMissing(applied: set<Nonce>)
    ensures MissingTotal([], applied) == Sum(AmountsOf([]) - applied)
  {
    assert AmountsOf([]) - applied == map[];
  }

  // A finalised fact of the log is listed after the earlier ones, and is none of them.
  lemma NewFact(c: Chain, count: nat)
    requires ChainInv(c) && 0 < count <= |c.log| && IsFinalFact(c, c.log[count - 1], Deposit)
    ensures var facts, before := FactsUpTo(c, Deposit, count), FactsUpTo(c, Deposit, count - 1);
      facts == before + [c.log[count - 1]] && facts[..|facts| - 1] == before &&
          c.log[count - 1].fact !in AmountsOf(before)
  {
    hide ChainInv, AmountsOf;
    var last := c.log[count - 1];
    FactListed(c, count - 1, last.fact);
    forall i | 0 <= i < count - 1 && IsFinalFact(c, c.log[i], Deposit) ensures c.log[i].fact != last.fact {
      FinalFactOnce(c, i, count - 1);
    }
  }

  lemma MissingSnoc(facts: seq<Event>, applied: set<Nonce>)
    requires facts != [] && facts[|facts| - 1].fact !in AmountsOf(facts[..|facts| - 1])
    requires MissingTotal(facts[..|facts| - 1], applied) == Sum(AmountsOf(facts[..|facts| - 1]) - applied)
    ensures MissingTotal(facts, applied) == Sum(AmountsOf(facts) - applied)
  {
    var before, last := AmountsOf(facts[..|facts| - 1]), facts[|facts| - 1];
    if last.fact in applied {
      assert AmountsOf(facts) - applied == before - applied;
    } else {
      assert AmountsOf(facts) - applied == (before - applied)[last.fact := last.amount as int];
      SumUpdate(before - applied, last.fact, last.amount);
    }
  }

  // The third tier's list of finalised deposits is complete, exact and free of repeats.
  lemma MissingAreDeposits(s: Sys)
    requires Inv(s)
    ensures DepositsNotIngested(s) == Sum(Moved(AllCalls(s.chain.history), Deposit) - AppliedFacts(s.db))
  {
    var c := s.chain;
    var deposits := Moved(AllCalls(c.history), Deposit);
    var table := AmountsOf(FactsUpTo(c, Deposit, |c.log|));
    forall n ensures (n in table <==> n in deposits) && (n in table ==> table[n] == deposits[n]) {
      FactListed(c, |c.log|, n);
      if n in deposits {
        var i := DepositIsFinalFact(c, n);
        assert Reported(c, |c.log|, n);
      }
    }
    assert table == deposits;
    MissingIsSum(c, |c.log|, AppliedFacts(s.db));
  }

  /* ----- the credits ----- */

  // After the pass over provisional credits every standing credit is live.
  lemma StandingCreditIsLive(s: Sys, e: EventId) returns (k: nat)
    requires Inv(s) && FactsSettled(s) && e in s.db.facts && !s.db.facts[e].reverted
    ensures k < |Canon(s.chain)| && Canon(s.chain)[k].hash == e.hash && Site(Canon(s.chain), e.fact) == k
    ensures s.db.facts[e].height == k + 1
    ensures exists j | 0 <= j < |Canon(s.chain)[k].txs| :: var t := Canon(s.chain)[k].txs[j];
              t.nonce == e.fact && t.kind == Deposit && t.amount == s.db.facts[e].amount
  {
    assert FactRowFits(s.db, e);
    if s.db.facts[e].finalized {
      assert TruthfulAbout(s.chain, e.fact);
    } else {
      LiveFactIsExact(s, e);
    }
    assert HashLive(Canon(s.chain), e.hash);
    k :| 0 <= k < |Canon(s.chain)| && Canon(s.chain)[k].hash == e.hash;
    LiveDeposit(s, e, k);
  }

  // Exactly once: a fact never has two standing credits.
  lemma OneStandingCredit(s: Sys, e: EventId, e': EventId)
    requires Inv(s) && FactsSettled(s) && e in s.db.facts && e' in s.db.facts && e.fact == e'.fact
    requires !s.db.facts[e].reverted && !s.db.facts[e'].reverted
    ensures e == e'
  {
    var k := StandingCreditIsLive(s, e);
    var k' := StandingCreditIsLive(s, e');
  }

  ghost function FinalCredits(s: Sys): map<EventId, int>
  {
    map e | e in s.db.facts && !s.db.facts[e].reverted && s.db.facts[e].height <= s.chain.finalHeight ::
        s.db.facts[e].amount as int
  }

  lemma FinalCreditIsDeposit(s: Sys, e: EventId)
    requires Inv(s) && FactsSettled(s) && e in FinalCredits(s)
    ensures var deposits := Moved(AllCalls(s.chain.history), Deposit);
      e.fact in deposits && deposits[e.fact] == FinalCredits(s)[e] && e.fact in AppliedFacts(s.db)
  {
    var c := s.chain;
    var k := StandingCreditIsLive(s, e);
    assert Canon(c)[k] == c.history[k];
    HeadIsFullReplay(c);
    var j :| 0 <= j < |c.history[k].txs| && c.history[k].txs[j].nonce == e.fact && c.history[k].txs[j].kind == Deposit
             && c.history[k].txs[j].amount == s.db.facts[e].amount;
    var at := CallOfBlock(c.history, k, j);
    MovedValue(AllCalls(c.history), Deposit, at);
  }

  lemma AppliedDepositIsFinalCredit(s: Sys, n: Nonce) returns (e: EventId)
    requires Inv(s) && FactsSettled(s) && n in AppliedFacts(s.db) && n in Moved(AllCalls(s.chain.history), Deposit)
    ensures e in FinalCredits(s) && e.fact == n
  {
    e :| e in s.db.facts && !s.db.facts[e].reverted && e.fact == n;
    var k := StandingCreditIsLive(s, e);
    var i := DepositIsFinalFact(s.chain, n);
  }

  lemma OnlyHolds(m: map<Nonce, int>, part: set<Nonce>, n: Nonce)
    ensures n in Only(m, part) <==> n in m && n in part
    ensures n in Only(m, part) ==> Only(m, part)[n] == m[n]
  {
  }

  // The standing credits on final blocks are exactly the applied deposits of the history.
  lemma FinalCreditsAreDeposits(s: Sys)
    requires Inv(s) && FactsSettled(s)
    ensures Sum(FinalCredits(s)) == Sum(Only(Moved(AllCalls(s.chain.history), Deposit), AppliedFacts(s.db)))
  {
    hide Inv, FactsSettled, Moved, AllCalls, AppliedFacts, Only, Sum;
    var credits := FinalCredits(s);
    var deposits := Only(Moved(AllCalls(s.chain.history), Deposit), AppliedFacts(s.db));
    var factOf := map e | e in credits :: e.fact;
    forall a, b | a in factOf && b in factOf && factOf[a] == factOf[b] ensures a == b {
      OneStandingCredit(s, a, b);
    }
    forall e | e in factOf ensures factOf[e] in deposits && deposits[factOf[e]] == credits[e] {
      FinalCreditIsDeposit(s, e);
      OnlyHolds(Moved(AllCalls(s.chain.history), Deposit), AppliedFacts(s.db), e.fact);
    }
    forall n | n in deposits ensures exists e :: e in factOf && factOf[e] == n {
      OnlyHolds(Moved(AllCalls(s.chain.history), Deposit), AppliedFacts(s.db), n);
      var e := AppliedDepositIsFinalCredit(s, n);
      assert factOf[e] == n;
    }
    SumReindex(credits, factOf, deposits);
  }

  lemma CreditsSplit(s: Sys)
    ensures SumOf(s.db.facts, Credit) == ProvisionalCredits(s) + Sum(FinalCredits(s))
  {
    hide Sum;
    var facts, height := s.db.facts, s.chain.finalHeight;
    var all := map e | e in facts :: Credit(facts[e]);
    var above := map e | e in facts :: CreditAbove(height)(facts[e]);
    var below := map e | e in facts :: all[e] - above[e];
    SumOfIs(facts, Credit, all);
    SumOfIs(facts, CreditAbove(height), above);
    SumPlus(all, above, below);
    SumSkipsZeros(below, FinalCredits(s));
  }

  lemma DepositsAreCredits(s: Sys)
    requires Inv(s) && FactsSettled(s)
    ensures Sum(Moved(AllCalls(s.chain.history), Deposit))
            == SumOf(s.db.facts, Credit) - ProvisionalCredits(s) + DepositsNotIngested(s)
  {
    SumSplit(Moved(AllCalls(s.chain.history), Deposit), AppliedFacts(s.db));
    FinalCreditsAreDeposits(s);
    CreditsSplit(s);
    MissingAreDeposits(s);
  }

  /* ----- the identity ----- */

  // In every state that keeps the invariant, once provisional credits have been settled, the
  // residue of the reconciliation is exactly the money posted from outside the protocol plus the
  // refunded withdrawals that the chain finalised anyway. No fault hypothesis is needed; and what the
  // reconciler computes is what 64 bits hold of it.
  lemma ResidueIsExact(s: Sys)
    requires Inv(s) && FactsSettled(s)
    ensures Internal(s.db.book) - FinalCustody(s) - Explained(s) == s.db.outside + PaidTwice(s)
    ensures Unexplained(s) == Wrapped(s.db.outside + PaidTwice(s))
  {
    hide Inv, FactsSettled, Wrapped, Internal, Explained, PaidTwice, Run, TrueCustody;
    FinalIsReplay(s);
    BalanceIsCustody(AllCalls(s.chain.history));
    TrueResidue(s);
    var known := Internal(s.db.book) - Explained(s);
    SameResidue(known, FinalCustody(s));
  }

  lemma FinalIsReplay(s: Sys)
    requires Inv(s)
    ensures s.chain.final == Run(EMPTY, AllCalls(s.chain.history))
  {
    hide DbInv;
  }

  // Taking the 64-bit balance for the custody changes nothing in 64 bits.
  lemma SameResidue(known: int, custody: int)
    ensures Wrapped(known - Wrapped(custody)) == Wrapped(known - custody)
  {
    WrapsApart(known, custody);
    WrapsApart(known, Wrapped(custody));
    assert Wrapped(Wrapped(custody)) == Wrapped(custody);
  }

  lemma TrueResidue(s: Sys)
    requires Inv(s) && FactsSettled(s)
    ensures Internal(s.db.book) - FinalCustody(s) - Explained(s) == s.db.outside + PaidTwice(s)
  {
    InternalIsMinusExternal(s.db.book);
    HeadIsFullReplay(s.chain);
    hide Wrapped;
    BalanceIsDepositsMinusPayouts(AllCalls(s.chain.history));
    PayoutsAreIntents(s);
    DepositsAreCredits(s);
  }

  // The same, said of runs: whatever mix of deposits, withdrawals, trades, settlements, lost
  // receipts, retries, reorgs, event loss and crashes led here.
  lemma ResidueOfEveryRun(confirms: int, steps: seq<Step>)
    requires IsTrace(Start(confirms), steps)
    ensures var s := Final(Start(confirms), steps);
      FactsSettled(s) ==>
        && Internal(s.db.book) - FinalCustody(s) - Explained(s) == s.db.outside + PaidTwice(s)
        && Unexplained(s) == Wrapped(s.db.outside + PaidTwice(s))
  {
    hide Inv, FactsSettled, Wrapped, Internal, Explained, PaidTwice, FinalCustody, Next, Allowed, Unexplained;
    StartSound(confirms);
    EveryTraceKeeps(Start(confirms), steps);
    if FactsSettled(Final(Start(confirms), steps)) {
      ResidueIsExact(Final(Start(confirms), steps));
    }
  }
}
