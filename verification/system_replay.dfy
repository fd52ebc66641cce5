/** The differential test over whole runs of the system: whatever the engine, its users and the
    chain have done, the exported history replays through the Rust contract without a refusal. */
module SystemReplay {
  import opened Integers
  import opened ChainModel
  import opened ChainInvariants
  import opened Differential
  import Store
  import opened StoreInvariants
  import opened System
  import opened SystemInvariants
  import Go = GoVault

  // Every finalised call is one the export can carry: nothing negative, no deposit that expires.
  lemma HistoryIsIssued(s: Sys, k: nat, i: nat)
    requires Inv(s) && k < |s.chain.history| && i < |s.chain.history[k].txs|
    ensures Issued(s.chain.history[k].txs[i])
  {
    var c := s.chain;
    var t := c.history[k].txs[i];
    hide Inv, DbInv;
    PartsOf(s);
    assert Canon(c)[k] == c.history[k];
    HeldInBlock(c, k, i);
    KnownOf(s, t);
    if t.nonce.IntentId? {
      IntentOf(s, t.nonce);
    } else {
      var at := CallOfBlock(Canon(c), k, i);
      AcceptedCall(Go.EMPTY, AllCalls(Canon(c)), at);
    }
  }

  // For every run of the whole system: zero refusals and equal storage, and every expectation met if
  // and only if custody fits 64 bits.
  lemma EveryRunReplays(confirms: int, steps: seq<Step>, markets: seq<string>)
    requires IsTrace(Start(confirms), steps)
    requires Final(Start(confirms), steps).chain.head < TWO_TO_THE_63
    requires forall m | m in markets :: m in Final(Start(confirms), steps).chain.final.escrow
    ensures var c := Final(Start(confirms), steps).chain;
      var p := PlayAll(Trace(AllCalls(c.history)) + Expectations(c.final, markets));
      && p.refused == 0 && Same(c.final, p.vault) && p.vault.balance == Go.TrueCustody(AllCalls(c.history))
      && Verdict(p) == if Go.TrueCustody(AllCalls(c.history)) <= MAX_INT64 then Agree else Mismatch
  {
    var s := Final(Start(confirms), steps);
    StartSound(confirms);
    EveryTraceKeeps(Start(confirms), steps);
    PartsOf(s);
    forall k, i | 0 <= k < |s.chain.history| && 0 <= i < |s.chain.history[k].txs|
        ensures Issued(s.chain.history[k].txs[i]) {
      HistoryIsIssued(s, k, i);
    }
    hide Inv, Start, Next;
    FinalisedHistoryReplays(s.chain, markets);
  }

  // The finalised history of a run is one that can be exported and replayed.
  lemma HistoryReads(confirms: int, steps: seq<Step>)
    requires IsTrace(Start(confirms), steps)
    ensures var c := Final(Start(confirms), steps).chain;
      && Go.Accepted(Go.EMPTY, AllCalls(c.history)) && Go.Run(Go.EMPTY, AllCalls(c.history)) == c.final
      && Ascending(AllCalls(c.history), |c.history|) && |c.history| <= c.head
      && (forall i | 0 <= i < |AllCalls(c.history)| :: Issued(AllCalls(c.history)[i].tx))
  {
    var s := Final(Start(confirms), steps);
    var c := s.chain;
    StartSound(confirms);
    EveryTraceKeeps(Start(confirms), steps);
    PartsOf(s);
    forall k, i | 0 <= k < |c.history| && 0 <= i < |c.history[k].txs| ensures Issued(c.history[k].txs[i]) {
      HistoryIsIssued(s, k, i);
    }
    hide Inv, Start, Next, Final;
    HeadIsFullReplay(c);
    forall k | 0 <= k < |c.history| ensures c.history[k].height == k + 1 {
      assert Canon(c)[k] == c.history[k];
    }
    CallsAscend(c.history);
    CallsIssued(c.history);
  }

  // A market the ledger has settled is settled in the Rust contract after the replay, and with the
  // outcome the ledger has paid by.
  lemma SettledOutcomesReplay(confirms: int, steps: seq<Step>, n: Go.Nonce)
    requires IsTrace(Start(confirms), steps) && Final(Start(confirms), steps).chain.head < TWO_TO_THE_63
    requires var db := Final(Start(confirms), steps).db;
      n in db.intents && db.intents[n].kind == Go.SettleMarket && db.intents[n].state == Store.StateConfirmed
    ensures var s := Final(Start(confirms), steps);
      var m, r := s.db.intents[n].market, PlayAll(Trace(AllCalls(s.chain.history))).vault;
      && m in s.db.markets && s.db.markets[m].outcome.Some?
      && m in r.settled && r.settled[m] == (s.db.markets[m].outcome.value > 0)
  {
    var s := Final(Start(confirms), steps);
    var calls := AllCalls(s.chain.history);
    HistoryReads(confirms, steps);
    StartSound(confirms);
    EveryTraceKeeps(Start(confirms), steps);
    SettlementOnChain(s, n);
    hide Inv, Start, Next, Final, IsTrace, Go.Run, Go.Accepted, Ascending, PlayAll, Trace;
    OutcomesReplay(calls, |s.chain.history|);
  }

  lemma SettlementOnChain(s: Sys, n: Go.Nonce)
    requires Inv(s) && n in s.db.intents && s.db.intents[n].kind == Go.SettleMarket
    requires s.db.intents[n].state == Store.StateConfirmed
    ensures var m, calls := s.db.intents[n].market, AllCalls(s.chain.history);
      && m in s.db.markets && s.db.markets[m].outcome.Some?
      && exists at :: 0 <= at < |calls| && calls[at].tx.kind == Go.SettleMarket && calls[at].tx.market == m &&
          calls[at].tx.outcome == s.db.markets[m].outcome.value
  {
    hide Inv, DbInv, Known, EventsTrue, FactsTrue, ClosedTrue;
    TiesOf(s);
    IntentOf(s, n);
    var at := FinalPayload(s, n);
    assert AllCalls(s.chain.history)[at].tx.kind == Go.SettleMarket;
  }
}
