/** What every step of the whole system keeps: the store's own invariant, the chain's own
    invariant, and the facts that tie the two together. */
module SystemInvariants {
  import opened Integers
  import opened Sums
  import opened GoVault
  import opened ChainModel
  import opened ChainBlocks
  import opened ChainInvariants
  import opened Ledger
  import opened Store
  import Margins
  import opened StoreInvariants
  import opened System
  import Deposits

  /* ----- the ties ----- */

  // Everything the chain holds was put there by a user's deposit, by the outbox, or by the
  // resolver's cancellation of a withdrawal.
  predicate KnownTx(t: Tx, db: Db, nextDeposit: nat)
  {
    match t.nonce
    case DepositId(number) => t.kind == Deposit && number <= nextDeposit && t.target == 0 && t.expiry == 0
    case IntentId(_) =>
      t.nonce in db.intents && t.nonce in db.outbox &&
      (t == db.outbox[t.nonce] ||
       (db.intents[t.nonce].kind == Withdraw && t == CancelTx(t.nonce, db.intents[t.nonce].expiry)))
  }

  ghost predicate Known(s: Sys)
  {
    forall t | t in Deposits.Held(s.chain) :: KnownTx(t, s.db, s.chain.nextDeposit)
  }

  predicate Matches(log: Event, e: EventId, row: EventRow)
  {
    && log.fact == e.fact && log.hash == e.hash && log.user == row.user && log.amount == row.amount
    && log.height == row.height && log.number == row.number
    && (log.kind == Of(row.kind) || log.kind == Orphaned)
  }

  ghost predicate Witnessed(log: seq<Event>, e: EventId, row: EventRow)
  {
    exists i | 0 <= i < |log| :: Matches(log[i], e, row)
  }

  // Every recorded event was on the chain once, and still is unless its block was orphaned.
  ghost predicate EventsTrue(s: Sys)
  {
    forall e | e in s.db.events ::
      Witnessed(s.chain.log, e, s.db.events[e]) &&
      (s.db.events[e].kind == Deposit ==> s.db.events[e].amount > 0)
  }

  // A copy of a log entry, made while its block was canonical.
  ghost predicate CopyOf(log: seq<Event>, ev: Event)
  {
    && ev.kind.Of? && (ev.kind == Of(Deposit) ==> ev.amount > 0)
    && exists i | 0 <= i < |log| :: log[i] == ev || log[i] == ev.(kind := Orphaned)
  }

  ghost predicate CopiesTrue(s: Sys)
  {
    forall ev | ev in s.polled :: CopyOf(s.chain.log, ev)
  }

  // A block's events are told apart by their facts, even once the block is gone.
  ghost predicate NamedOnce(log: seq<Event>)
  {
    forall i, j | 0 <= i < j < |log| :: log[i].hash == log[j].hash ==> log[i].fact != log[j].fact
  }

  // The chain has finalised the event's block with this fact in it.
  predicate FinalEvent(c: Chain, e: EventId)
  {
    TxStatus(c, e.fact).finalized && TxStatus(c, e.fact).hash == e.hash
  }

  // A promoted credit is final on the chain; a compensated one is gone from it.
  ghost predicate FactsTrue(s: Sys)
  {
    forall e | e in s.db.facts ::
      (s.db.facts[e].reverted ==> !HashLive(Canon(s.chain), e.hash)) &&
      (s.db.facts[e].finalized && !s.db.facts[e].reverted ==> FinalEvent(s.chain, e))
  }

  // A confirmed intent is final on the chain, in the block the confirmation recorded.
  ghost predicate ConfirmedTrue(s: Sys)
  {
    forall n | n in s.db.intents && s.db.intents[n].state == StateConfirmed ::
      TxStatus(s.chain, n).finalized &&
      TxStatus(s.chain, n).height == s.db.intents[n].height && TxStatus(s.chain, n).hash == s.db.intents[n].hash
  }

  // A market the ledger has settled is settled in the finalised vault.
  ghost predicate ClosedTrue(s: Sys)
  {
    forall m | m in s.db.markets && s.db.markets[m].state == MarketClosed :: m in s.chain.final.settled
  }

  ghost predicate Inv(s: Sys)
  {
    && ChainInv(s.chain) && DbInv(s.db) && Known(s) && EventsTrue(s) && FactsTrue(s) && ConfirmedTrue(s) &&
        ClosedTrue(s)
    && CopiesTrue(s) && NamedOnce(s.chain.log)
  }

  lemma CopyFrom(s: Sys, ev: Event)
    requires Inv(s) && ev in s.polled
    ensures CopyOf(s.chain.log, ev)
  {
  }

  // The parts of the invariant, for proofs that need one and not the rest.
  lemma PartsOf(s: Sys)
    requires Inv(s)
    ensures DbInv(s.db) && ChainInv(s.chain) && Shaped(s.chain)
  {
  }

  lemma TiesOf(s: Sys)
    requires Inv(s)
    ensures Known(s) && EventsTrue(s) && FactsTrue(s) && ConfirmedTrue(s) && ClosedTrue(s) && CopiesTrue(s) &&
        NamedOnce(s.chain.log)
  {
  }

  lemma Whole(s: Sys)
    requires ChainInv(s.chain) && DbInv(s.db) && Known(s) && EventsTrue(s) && FactsTrue(s) && ConfirmedTrue(s) &&
        ClosedTrue(s)
    requires CopiesTrue(s) && NamedOnce(s.chain.log)
    ensures Inv(s)
  {
  }

  lemma IntentOf(s: Sys, n: Nonce)
    requires Inv(s) && n in s.db.intents
    ensures IntentRow(s.db, n) && n.IntentId? && TruthfulAbout(s.chain, n)
  {
  }

  lemma KnownOf(s: Sys, t: Tx)
    requires Inv(s) && t in Deposits.Held(s.chain)
    ensures KnownTx(t, s.db, s.chain.nextDeposit)
  {
  }

  lemma DepositRowOf(s: Sys, e: EventId)
    requires Inv(s) && e in s.db.events && s.db.events[e].kind == Deposit
    ensures s.db.events[e].amount > 0
  {
  }

  lemma FactOf(s: Sys, e: EventId)
    requires Inv(s) && e in s.db.facts
    ensures FactRowFits(s.db, e) && s.db.facts[e].amount > 0
    ensures s.db.facts[e].reverted ==> !HashLive(Canon(s.chain), e.hash)
    ensures s.db.facts[e].finalized && !s.db.facts[e].reverted ==> FinalEvent(s.chain, e)
  {
  }

  lemma StartSound(confirms: int)
    ensures Inv(Start(confirms))
  {
    GenesisSound(confirms);
    EmptyStoreSound();
    assert Deposits.Held(Genesis(confirms)) == [];
  }

  /* ----- how the chain evolves ----- */

  // What any simulator call leaves true of the past.
  ghost predicate Evolves(c: Chain, c': Chain)
  {
    && c.history <= c'.history && c.final.settled <= c'.final.settled
    && |c.log| <= |c'.log|
    && (forall i | 0 <= i < |c.log| :: c'.log[i] == c.log[i] || c'.log[i] == c.log[i].(kind := Orphaned))
    && (forall h | h in c.used && HashLive(Canon(c'), h) :: HashLive(Canon(c), h))
  }

  lemma EvolvesTransitive(a: Chain, b: Chain, c: Chain)
    requires Evolves(a, b) && Evolves(b, c) && a.used <= b.used
    ensures Evolves(a, c)
  {
    forall i | 0 <= i < |a.log| ensures c.log[i] == a.log[i] || c.log[i] == a.log[i].(kind := Orphaned) {
      assert b.log[i] == a.log[i] || b.log[i] == a.log[i].(kind := Orphaned);
    }
  }

  lemma ReorgEvolves(c: Chain, depth: nat, shuffled: seq<Tx>)
    requires 1 <= depth <= |c.pending|
    ensures Evolves(c, Reorg(c, depth, shuffled)) && Reorg(c, depth, shuffled).used == c.used
  {
    var c' := Reorg(c, depth, shuffled);
    ReorgCanon(c, depth, shuffled);
    forall h | HashLive(Canon(c'), h) ensures HashLive(Canon(c), h) {
      HashLiveConcat(Canon(c'), c.pending[|c.pending| - depth..], h);
    }
  }

  lemma AddBlockEvolves(c: Chain, hash: Hash)
    requires hash !in c.used
    ensures Evolves(c, AddBlock(c, hash)) && c.used <= AddBlock(c, hash).used
  {
    var c' := AddBlock(c, hash);
    AddBlockCanon(c, hash);
    AddBlockLogs(c, hash);
    forall h | h in c.used && HashLive(Canon(c'), h) ensures HashLive(Canon(c), h) {
      AddedHashLive(Canon(c), NextBlock(c, hash), h);
    }
  }

  lemma {:induction false} SettledGrows(v: Vault, calls: seq<Call>)
    ensures v.settled <= Run(v, calls).settled
    decreases |calls|
  {
    if calls != [] {
      SettledGrows(v, calls[..|calls| - 1]);
    }
  }

  lemma {:induction false} FinaliseAllEvolves(c: Chain)
    ensures var c' := FinaliseAll(c);
      Evolves(c, c') && c'.used == c.used && Canon(c') == Canon(c) && c'.nextDeposit == c.nextDeposit
    decreases |c.pending|
  {
    if |c.pending| > c.confirms {
      FinaliseCanon(c);
      SettledGrows(c.final, CallsAt(c.pending[0].txs, c.pending[0].height));
      FinaliseAllEvolves(FinaliseOne(c));
      EvolvesTransitive(c, FinaliseOne(c), FinaliseAll(c));
    }
  }

  lemma MineEvolves(c: Chain, depth: nat, shuffled: seq<Tx>, hash: Hash)
    requires CanMine(c, depth, shuffled, hash)
    ensures Evolves(c, Mine(c, depth, shuffled, hash))
  {
    var c1 := if depth > 0 then Reorg(c, depth, shuffled) else c;
    if depth > 0 {
      ReorgEvolves(c, depth, shuffled);
    }
    AddBlockEvolves(c1, hash);
    EvolvesTransitive(c, c1, AddBlock(c1, hash));
    FinaliseAllEvolves(AddBlock(c1, hash));
    EvolvesTransitive(c, AddBlock(c1, hash), FinaliseAll(AddBlock(c1, hash)));
  }

  // Mining invents no transaction.
  lemma MineHolds(c: Chain, depth: nat, shuffled: seq<Tx>, hash: Hash, t: Tx)
    requires CanMine(c, depth, shuffled, hash) && t in Deposits.Held(Mine(c, depth, shuffled, hash))
    ensures t in Deposits.Held(c)
  {
    var c1 := if depth > 0 then Reorg(c, depth, shuffled) else c;
    Deposits.FinaliseAllConserves(AddBlock(c1, hash), (t: Tx) => 0);
    Deposits.AddBlockHolds(c1, hash);
    assert t in Deposits.Held(c1);
    if depth > 0 {
      Deposits.ReorgHolds(c, depth, shuffled, t);
    }
  }

  lemma MineNumbersNothing(c: Chain, depth: nat, shuffled: seq<Tx>, hash: Hash)
    requires CanMine(c, depth, shuffled, hash)
    ensures Mine(c, depth, shuffled, hash).nextDeposit == c.nextDeposit
  {
    var c1 := if depth > 0 then Reorg(c, depth, shuffled) else c;
    FinaliseAllEvolves(AddBlock(c1, hash));
  }

  /* ----- what a canonical block proves ----- */

  // The transaction at position j of block k is one of the calls of the replay.
  lemma {:induction false} CallOfBlock(blocks: seq<Block>, k: nat, j: nat) returns (at: nat)
    requires k < |blocks| && j < |blocks[k].txs|
    ensures at < |AllCalls(blocks)| && AllCalls(blocks)[at] == Call(blocks[k].txs[j], blocks[k].height)
    ensures at == |AllCalls(blocks[..k])| + j
    decreases |blocks|
  {
    var last := |blocks| - 1;
    var before := AllCalls(blocks[..last]);
    if k < last {
      assert blocks[..last][k] == blocks[k] && blocks[..last][..k] == blocks[..k];
      at := CallOfBlock(blocks[..last], k, j);
    } else {
      at := |before| + j;
    }
  }

  lemma {:induction false} AcceptedCall(v: Vault, calls: seq<Call>, i: nat)
    requires Accepted(v, calls) && i < |calls|
    ensures calls[i].tx.kind == Deposit ==> calls[i].tx.amount > 0
    ensures calls[i].tx.kind == SettleMarket ==> calls[i].tx.market in Run(v, calls).settled
    ensures calls[i].tx.kind != Cancel && calls[i].tx.expiry > 0 ==> calls[i].height <= calls[i].tx.expiry
    decreases |calls|
  {
    var last := |calls| - 1;
    if i < last {
      assert calls[..last][i] == calls[i];
      AcceptedCall(v, calls[..last], i);
    }
  }

  // A logged event whose block is canonical is the event of one of that block's transactions.
  lemma LiveEvent(c: Chain, i: nat, k: nat) returns (j: nat)
    requires ChainInv(c) && i < |c.log| && k < |Canon(c)| && Canon(c)[k].hash == c.log[i].hash
    ensures j < |Canon(c)[k].txs| && c.log[i] == EventOf(i + 1, Canon(c)[k].txs[j], k + 1, Canon(c)[k].hash)
  {
    var b := Canon(c)[k];
    assert LoggedBlock(c.log, b);
    j :| 0 <= j < |b.log| && b.log[j] == i;
  }

  // A live event tells exactly what a canonical transaction did: which call, for whom, how much, which
  // market, and where it landed.
  lemma LiveEventTells(c: Chain, i: nat) returns (k: nat, j: nat)
    requires ChainInv(c) && i < |c.log| && c.log[i].kind.Of?
    ensures k < |Canon(c)| && j < |Canon(c)[k].txs|
    ensures var e, tx := c.log[i], Canon(c)[k].txs[j];
      && e.number == i + 1 && e.fact == tx.nonce && e.kind.kind == tx.kind && e.user == tx.user
      && e.amount == tx.amount && e.market == tx.market && e.target == tx.target && e.outcome == tx.outcome
      && e.height == Canon(c)[k].height && e.hash == Canon(c)[k].hash
  {
    assert HashLive(Canon(c), c.log[i].hash);
    k :| 0 <= k < |Canon(c)| && Canon(c)[k].hash == c.log[i].hash;
    j := LiveEvent(c, i, k);
  }

  lemma DepositEventPositive(c: Chain, i: nat)
    requires ChainInv(c) && i < |c.log| && c.log[i].kind == Of(Deposit)
    ensures c.log[i].amount > 0
  {
    assert HashLive(Canon(c), c.log[i].hash);
    var k :| 0 <= k < |Canon(c)| && Canon(c)[k].hash == c.log[i].hash;
    var j := LiveEvent(c, i, k);
    var at := CallOfBlock(Canon(c), k, j);
    AcceptedCall(EMPTY, AllCalls(Canon(c)), at);
  }

  // A recorded deposit whose block is canonical is exactly where the chain's nonce lookup points.
  lemma LiveDeposit(s: Sys, e: EventId, k: nat)
    requires ChainInv(s.chain) && EventsTrue(s) && e in s.db.events && s.db.events[e].kind == Deposit
    requires k < |Canon(s.chain)| && Canon(s.chain)[k].hash == e.hash
    ensures Site(Canon(s.chain), e.fact) == k && LiveFact(s.chain, e, s.db.events[e].height)
    ensures s.db.events[e].height == k + 1
    ensures exists j | 0 <= j < |Canon(s.chain)[k].txs| :: var t := Canon(s.chain)[k].txs[j];
              t.nonce == e.fact && t.kind == Deposit && t.amount == s.db.events[e].amount
  {
    var c := s.chain;
    var b := Canon(c)[k];
    assert Witnessed(c.log, e, s.db.events[e]);
    var i :| 0 <= i < |c.log| && Matches(c.log[i], e, s.db.events[e]);
    var j := LiveEvent(c, i, k);
    assert b.txs[j].nonce == e.fact && b.txs[j].kind == Deposit;
    assert Carries(b.txs, e.fact);
    SiteUnique(Canon(c), e.fact, k);
    assert TruthfulAbout(c, e.fact);
  }

  // The engine's truthful test of a credit decides exactly whether its block is canonical.
  lemma LiveFactIsExact(s: Sys, e: EventId)
    requires Inv(s) && e in s.db.facts
    ensures LiveFact(s.chain, e, s.db.facts[e].height) <==> HashLive(Canon(s.chain), e.hash)
  {
    assert FactRowFits(s.db, e);
    var height := s.db.facts[e].height;
    if LiveFact(s.chain, e, height) {
      assert Canon(s.chain)[height - 1].hash == e.hash;
    }
    if HashLive(Canon(s.chain), e.hash) {
      var k :| 0 <= k < |Canon(s.chain)| && Canon(s.chain)[k].hash == e.hash;
      LiveDeposit(s, e, k);
    }
  }

  /* ----- chain steps keep the ties ----- */

  lemma EventHashUsed(s: Sys, e: EventId)
    requires ChainInv(s.chain) && EventsTrue(s) && e in s.db.events
    ensures e.hash in s.chain.used
  {
    assert Witnessed(s.chain.log, e, s.db.events[e]);
    var i :| 0 <= i < |s.chain.log| && Matches(s.chain.log[i], e, s.db.events[e]);
    assert s.chain.log[i].hash in s.chain.used;
  }

  lemma WitnessKept(c: Chain, c': Chain, e: EventId, row: EventRow)
    requires Evolves(c, c') && Witnessed(c.log, e, row)
    ensures Witnessed(c'.log, e, row)
  {
    var i :| 0 <= i < |c.log| && Matches(c.log[i], e, row);
    assert c'.log[i] == c.log[i] || c'.log[i] == c.log[i].(kind := Orphaned);
    assert Matches(c'.log[i], e, row);
  }

  lemma CopyKept(c: Chain, c': Chain, ev: Event)
    requires Evolves(c, c') && CopyOf(c.log, ev)
    ensures CopyOf(c'.log, ev)
  {
    var i :| 0 <= i < |c.log| && (c.log[i] == ev || c.log[i] == ev.(kind := Orphaned));
    assert c'.log[i] == c.log[i] || c'.log[i] == c.log[i].(kind := Orphaned);
  }

  lemma FactKept(s: Sys, c': Chain, e: EventId)
    requires Inv(s) && ChainInv(c') && Evolves(s.chain, c') && e in s.db.facts
    ensures s.db.facts[e].reverted ==> !HashLive(Canon(c'), e.hash)
    ensures s.db.facts[e].finalized && !s.db.facts[e].reverted ==> FinalEvent(c', e)
  {
    assert FactRowFits(s.db, e);
    EventHashUsed(s, e);
    assert TruthfulAbout(s.chain, e.fact) && TruthfulAbout(c', e.fact);
    if s.db.facts[e].finalized && !s.db.facts[e].reverted {
      FinalReceiptStable(s.chain, c', e.fact);
    }
  }

  lemma TiesEvolve(s: Sys, c': Chain)
    requires Inv(s) && ChainInv(c') && Evolves(s.chain, c')
    ensures var s' := s.(chain := c');
        EventsTrue(s') && FactsTrue(s') && ConfirmedTrue(s') && ClosedTrue(s') && CopiesTrue(s')
  {
    forall e | e in s.db.events ensures Witnessed(c'.log, e, s.db.events[e]) {
      WitnessKept(s.chain, c', e, s.db.events[e]);
    }
    forall ev | ev in s.polled ensures CopyOf(c'.log, ev) {
      CopyKept(s.chain, c', ev);
    }
    forall e | e in s.db.facts
      ensures s.db.facts[e].reverted ==> !HashLive(Canon(c'), e.hash)
      ensures s.db.facts[e].finalized && !s.db.facts[e].reverted ==> FinalEvent(c', e)
    {
      FactKept(s, c', e);
    }
    forall n | n in s.db.intents && s.db.intents[n].state == StateConfirmed
      ensures TxStatus(c', n).finalized
      ensures TxStatus(c', n).height == s.db.intents[n].height && TxStatus(c', n).hash == s.db.intents[n].hash
    {
      assert TruthfulAbout(s.chain, n) && TruthfulAbout(c', n);
      FinalReceiptStable(s.chain, c', n);
    }
  }

  // The nonces of a canonical block's transactions are distinct.
  lemma OncePerBlock(c: Chain, k: nat, j: nat, j': nat)
    requires ChainInv(c) && k < |Canon(c)| && j < |Canon(c)[k].txs| && j' < |Canon(c)[k].txs|
    requires Canon(c)[k].txs[j].nonce == Canon(c)[k].txs[j'].nonce
    ensures j == j'
  {
    var at := CallOfBlock(Canon(c), k, j);
    var at' := CallOfBlock(Canon(c), k, j');
    if at < at' {
      OncePerNonce(AllCalls(Canon(c)), at, at');
    } else if at' < at {
      OncePerNonce(AllCalls(Canon(c)), at', at);
    }
  }

  lemma ReorgNamed(c: Chain, depth: nat, shuffled: seq<Tx>)
    requires 1 <= depth <= |c.pending| && NamedOnce(c.log)
    ensures NamedOnce(Reorg(c, depth, shuffled).log)
  {
  }

  lemma NamedAppend(first: seq<Event>, rest: seq<Event>, hash: Hash)
    requires NamedOnce(first) && NamedOnce(rest)
    requires forall i | 0 <= i < |first| :: first[i].hash != hash
    requires forall i | 0 <= i < |rest| :: rest[i].hash == hash
    ensures NamedOnce(first + rest)
  {
  }

  lemma BlockNamed(c: Chain, k: nat, base: nat)
    requires ChainInv(c) && k < |Canon(c)|
    ensures var b := Canon(c)[k];
      var events := Events(base, b.txs, b.height, b.hash);
      (forall i | 0 <= i < |events| :: events[i].hash == b.hash) &&
      (forall i, j | 0 <= i < j < |events| :: events[i].fact != events[j].fact)
  {
    var b := Canon(c)[k];
    forall i, j | 0 <= i < j < |b.txs| ensures b.txs[i].nonce != b.txs[j].nonce {
      if b.txs[i].nonce == b.txs[j].nonce {
        OncePerBlock(c, k, i, j);
      }
    }
    hide ChainInv, Canon;
  }

  lemma AddBlockNamed(c: Chain, hash: Hash)
    requires Hashed(c) && ChainInv(AddBlock(c, hash)) && hash !in c.used && NamedOnce(c.log)
    ensures NamedOnce(AddBlock(c, hash).log)
  {
    hide NamedOnce, ChainInv, Hashed, AddBlock, NextBlock, Canon, Events;
    AddBlockCanon(c, hash);
    AddBlockLogIs(c, hash);
    BlockNamed(AddBlock(c, hash), |Canon(c)|, |c.log|);
    FreshNames(c, Events(|c.log|, NextBlock(c, hash).txs, NextBlock(c, hash).height, hash), hash);
  }

  lemma FreshNames(c: Chain, rest: seq<Event>, hash: Hash)
    requires Hashed(c) && hash !in c.used && NamedOnce(c.log)
    requires forall i | 0 <= i < |rest| :: rest[i].hash == hash
    requires forall i, j | 0 <= i < j < |rest| :: rest[i].fact != rest[j].fact
    ensures NamedOnce(c.log + rest)
  {
    assert NamedOnce(rest);
    forall i | 0 <= i < |c.log| ensures c.log[i].hash != hash {
      assert c.log[i].hash in c.used;
    }
    NamedAppend(c.log, rest, hash);
  }

  lemma AddBlockLogIs(c: Chain, hash: Hash)
    ensures var b := NextBlock(c, hash);
        b.hash == hash && AddBlock(c, hash).log == c.log + Events(|c.log|, b.txs, b.height, hash)
  {
  }

  lemma {:induction false} FinaliseAllLog(c: Chain)
    ensures FinaliseAll(c).log == c.log
    decreases |c.pending|
  {
    if |c.pending| > c.confirms {
      FinaliseAllLog(FinaliseOne(c));
    }
  }

  lemma MineNamed(c: Chain, depth: nat, shuffled: seq<Tx>, hash: Hash)
    requires ChainInv(c) && CanMine(c, depth, shuffled, hash) && NamedOnce(c.log)
    ensures NamedOnce(Mine(c, depth, shuffled, hash).log)
  {
    var c1 := if depth > 0 then Reorg(c, depth, shuffled) else c;
    if depth > 0 {
      ReorgKeeps(c, depth, shuffled);
      ReorgNamed(c, depth, shuffled);
    }
    assert Hashed(c1);
    hide ChainInv, NamedOnce, Reorg, AddBlock, Hashed;
    AddBlockKeeps(c1, hash);
    AddBlockNamed(c1, hash);
    FinaliseAllLog(AddBlock(c1, hash));
  }

  lemma MinesKeeps(s: Sys, depth: nat, shuffled: seq<Tx>, hash: Hash)
    requires Inv(s) && CanMine(s.chain, depth, shuffled, hash)
    ensures Inv(s.(chain := Mine(s.chain, depth, shuffled, hash)))
  {
    var c' := Mine(s.chain, depth, shuffled, hash);
    MineNamed(s.chain, depth, shuffled, hash);
    MineKeeps(s.chain, depth, shuffled, hash);
    MineEvolves(s.chain, depth, shuffled, hash);
    MineNumbersNothing(s.chain, depth, shuffled, hash);
    TiesEvolve(s, c');
    forall t | t in Deposits.Held(c') ensures KnownTx(t, s.db, c'.nextDeposit) {
      MineHolds(s.chain, depth, shuffled, hash, t);
    }
  }

  // The calls other than mining only append to the mempool, number a deposit, or set `confirms`.
  lemma PoolStepKeeps(s: Sys, c': Chain, added: seq<Tx>)
    requires Inv(s)
    requires c' == s.chain.(mempool := s.chain.mempool + added, nextDeposit := c'.nextDeposit, confirms := c'.confirms)
    requires c'.confirms >= 1 && c'.nextDeposit >= s.chain.nextDeposit
    requires forall t | t in added :: KnownTx(t, s.db, c'.nextDeposit)
    ensures Inv(s.(chain := c'))
  {
    hide Inv, ChainInv, Shaped, DbInv, EventsTrue, FactsTrue, ConfirmedTrue, ClosedTrue, CopiesTrue, NamedOnce;
    PartsOf(s);
    TiesOf(s);
    PoolOnly(s.chain, c');
    PoolEvolves(s.chain, c');
    TiesEvolve(s, c');
    forall t | t in Deposits.Held(c') ensures KnownTx(t, s.db, c'.nextDeposit) {
      assert t in added || t in Deposits.Held(s.chain);
    }
    Whole(s.(chain := c'));
  }

  lemma PoolEvolves(c: Chain, c': Chain)
    requires c' == c.(mempool := c'.mempool, nextDeposit := c'.nextDeposit, confirms := c'.confirms)
    ensures Evolves(c, c')
  {
  }

  lemma SubmitShape(c: Chain, t: Tx, fate: Fate)
    ensures var c' := SubmitTx(c, t, fate).0; c' == c || c' == c.(mempool := c.mempool + [t])
  {
    hide HeadState;
  }

  lemma CancelShape(c: Chain, n: Nonce, expiry: int64)
    ensures var c' := CancelNonce(c, n, expiry).0; c' == c || c' == c.(mempool := c.mempool + [CancelTx(n, expiry)])
  {
    hide HeadState;
  }

  lemma OwnPayload(s: Sys, n: Nonce)
    requires Inv(s) && n in s.db.outbox
    ensures n in s.db.intents && n.IntentId? && s.db.outbox[n].nonce == n &&
        KnownTx(s.db.outbox[n], s.db, s.chain.nextDeposit)
    ensures s.db.intents[n].kind == Withdraw ==> KnownTx(CancelTx(n, s.db.intents[n].expiry), s.db, s.chain.nextDeposit)
    ensures s.chain.confirms >= 1
  {
    hide Inv, DbInv, ChainInv, Rows;
    PartsOf(s);
    DbParts(s.db);
    assert n in s.db.intents by {
      OutboxRow(s.db, n);
    }
    IntentRowOf(s.db, n);
  }

  lemma OutboxRow(db: Db, n: Nonce)
    requires Rows(db) && n in db.outbox
    ensures n in db.intents
  {
  }

  lemma SubmitsKeeps(s: Sys, n: Nonce, fate: Fate)
    requires Inv(s) && n in s.db.outbox
    ensures Inv(s.(chain := SubmitTx(s.chain, s.db.outbox[n], fate).0))
  {
    hide Inv, SubmitTx, KnownTx;
    var c' := SubmitTx(s.chain, s.db.outbox[n], fate).0;
    OwnPayload(s, n);
    SubmitShape(s.chain, s.db.outbox[n], fate);
    if c' == s.chain {
      assert s.(chain := c') == s;
    } else {
      PoolStepKeeps(s, c', [s.db.outbox[n]]);
    }
  }

  lemma CancelKeeps(s: Sys, n: Nonce)
    requires Inv(s) && n in s.db.intents && s.db.intents[n].kind == Withdraw
    ensures Inv(s.(chain := CancelNonce(s.chain, n, s.db.intents[n].expiry).0))
  {
    hide Inv, CancelNonce, KnownTx, IntentRow;
    var c', t := CancelNonce(s.chain, n, s.db.intents[n].expiry).0, CancelTx(n, s.db.intents[n].expiry);
    IntentOf(s, n);
    assert n in s.db.outbox by {
      PayloadOf(s.db, n);
    }
    OwnPayload(s, n);
    CancelShape(s.chain, n, s.db.intents[n].expiry);
    if c' == s.chain {
      assert s.(chain := c') == s;
    } else {
      PoolStepKeeps(s, c', [t]);
    }
  }

  lemma PayloadOf(db: Db, n: Nonce)
    requires n in db.intents && IntentRow(db, n)
    ensures n in db.outbox
  {
  }

  lemma DepositsKeeps(s: Sys, user: User, amount: int64)
    requires Inv(s)
    ensures Inv(s.(chain := UserDeposit(s.chain, user, amount)))
  {
    hide Inv;
    ConfirmsPositive(s);
    PoolStepKeeps(s, UserDeposit(s.chain, user, amount),
                  [Tx(DepositId(s.chain.nextDeposit + 1), Deposit, user, amount, "", 0, 0, 0)]);
  }

  lemma ConfirmsPositive(s: Sys)
    requires Inv(s)
    ensures s.chain.confirms >= 1
  {
  }

  lemma SetsConfirmsKeeps(s: Sys, confirms: int)
    requires Inv(s)
    ensures Inv(s.(chain := SetConfirms(s.chain, confirms)))
  {
    hide Inv;
    ConfirmsPositive(s);
    assert s.chain.mempool + [] == s.chain.mempool;
    PoolStepKeeps(s, SetConfirms(s.chain, confirms), []);
  }

  /* ----- store steps keep the ties ----- */

  // Intents and their payloads are never rewritten, only their progress is.
  ghost predicate IntentsKept(db: Db, db': Db)
  {
    && (forall n | n in db.intents ::
        n in db'.intents && db'.intents[n].kind == db.intents[n].kind && db'.intents[n].expiry == db.intents[n].expiry)
    && (forall n | n in db.outbox :: n in db'.outbox && db'.outbox[n] == db.outbox[n])
  }

  ghost predicate NothingConfirmed(db: Db, db': Db)
  {
    && (forall n | n in db'.intents && db'.intents[n].state == StateConfirmed ::
        n in db.intents && db.intents[n] == db'.intents[n])
    && (forall m | m in db'.markets && db'.markets[m].state == MarketClosed ::
        m in db.markets && db.markets[m].state == MarketClosed)
  }

  ghost predicate EventsKept(db: Db, db': Db)
  {
    forall e | e in db'.events :: e in db.events && db'.events[e] == db.events[e].(status := db'.events[e].status)
  }

  lemma KnownKept(s: Sys, db': Db)
    requires Known(s) && IntentsKept(s.db, db')
    ensures Known(s.(db := db'))
  {
    forall t | t in Deposits.Held(s.chain) ensures KnownTx(t, db', s.chain.nextDeposit) {
      assert KnownTx(t, s.db, s.chain.nextDeposit);
    }
  }

  // A store step that confirms nothing, records no event and touches no fact.
  ghost predicate Routine(db: Db, db': Db)
  {
    IntentsKept(db, db') && NothingConfirmed(db, db') && EventsKept(db, db') && db'.facts == db.facts
  }

  lemma StoreStepKeeps(s: Sys, db': Db)
    requires Inv(s) && DbInv(db') && Routine(s.db, db')
    ensures Inv(s.(db := db'))
  {
    KnownKept(s, db');
    forall e | e in db'.events ensures Witnessed(s.chain.log, e, db'.events[e]) {
      assert Witnessed(s.chain.log, e, s.db.events[e]);
      var i :| 0 <= i < |s.chain.log| && Matches(s.chain.log[i], e, s.db.events[e]);
      assert Matches(s.chain.log[i], e, db'.events[e]);
    }
  }

  // A live log entry makes a true copy.
  lemma LiveCopy(c: Chain, i: nat)
    requires ChainInv(c) && i < |c.log| && c.log[i].kind.Of?
    ensures CopyOf(c.log, c.log[i])
  {
    if c.log[i].kind == Of(Deposit) {
      DepositEventPositive(c, i);
    }
  }

  lemma PollsKeeps(s: Sys, copies: set<Event>)
    requires Inv(s) && forall ev | ev in copies :: ev in s.chain.log && ev.kind.Of?
    ensures Inv(s.(polled := s.polled + copies))
  {
    hide Inv, ChainInv, DbInv, Shaped, CopyOf, NamedOnce;
    PartsOf(s);
    TiesOf(s);
    forall ev | ev in copies ensures CopyOf(s.chain.log, ev) {
      var i :| 0 <= i < |s.chain.log| && s.chain.log[i] == ev;
      LiveCopy(s.chain, i);
    }
    hide Known, EventsTrue, FactsTrue, ConfirmedTrue, ClosedTrue;
    SameTies(s, s.(polled := s.polled + copies));
    Whole(s.(polled := s.polled + copies));
  }

  // The copies that have been handed out tie into nothing else.
  lemma SameTies(s: Sys, s': Sys)
    requires s' == s.(polled := s'.polled)
    requires Known(s) && EventsTrue(s) && FactsTrue(s) && ConfirmedTrue(s) && ClosedTrue(s)
    ensures Known(s') && EventsTrue(s') && FactsTrue(s') && ConfirmedTrue(s') && ClosedTrue(s')
  {
  }

  lemma RecordedWitness(s: Sys, ev: Event)
    requires EventsTrue(s) && CopyOf(s.chain.log, ev)
    ensures EventsTrue(s.(db := RecordEvent(s.db, ev)))
  {
    var db' := RecordEvent(s.db, ev);
    var i :| 0 <= i < |s.chain.log| && (s.chain.log[i] == ev || s.chain.log[i] == ev.(kind := Orphaned));
    forall e | e in db'.events ensures Witnessed(s.chain.log, e, db'.events[e]) {
      if e in s.db.events {
        assert Witnessed(s.chain.log, e, s.db.events[e]);
      } else {
        assert Matches(s.chain.log[i], e, db'.events[e]);
      }
    }
  }

  lemma RecordShape(db: Db, ev: Event)
    requires ev.kind.Of?
    ensures var db' := RecordEvent(db, ev);
      db' == db.(events := db'.events) && forall x | x in db.events :: x in db'.events && db'.events[x] == db.events[x]
  {
  }

  // Writing down a copy, even one whose block has gone since it was read, keeps the invariant.
  // A copy is written down once, as it was read, to be dealt with later; a second copy of an event
  // changes nothing.
  lemma RecordTells(db: Db, e: Event)
    requires e.kind.Of?
    ensures var id, db' := EventId(e.fact, e.hash), RecordEvent(db, e);
      && id in db'.events && (id in db.events ==> db' == db)
      && (id !in db.events ==>
            && db' == db.(events := db.events[id := db'.events[id]])
            && var row := db'.events[id];
              row.number == e.number && row.kind == e.kind.kind && row.user == e.user && row.amount == e.amount &&
              row.height == e.height && row.status == Received)
  {
  }

  lemma RecordsKeeps(s: Sys, ev: Event)
    requires Inv(s) && CopyOf(s.chain.log, ev)
    ensures Inv(s.(db := RecordEvent(s.db, ev)))
  {
    hide Inv, DbInv, ChainInv, Shaped, EventsTrue, Known, FactsTrue, ConfirmedTrue, ClosedTrue, CopiesTrue, NamedOnce,
         RecordEvent;
    PartsOf(s);
    TiesOf(s);
    RecordShape(s.db, ev);
    EventsGrow(s.db, RecordEvent(s.db, ev));
    RecordedWitness(s, ev);
    KnownKept(s, RecordEvent(s.db, ev));
    RecordFrame(s, RecordEvent(s.db, ev));
    Whole(s.(db := RecordEvent(s.db, ev)));
  }

  lemma RecordFrame(s: Sys, db': Db)
    requires db' == s.db.(events := db'.events) && FactsTrue(s) && ConfirmedTrue(s) && ClosedTrue(s) && CopiesTrue(s)
    ensures var s' := s.(db := db'); FactsTrue(s') && ConfirmedTrue(s') && ClosedTrue(s') && CopiesTrue(s')
  {
  }

  // Steps that change one fact row and, at most, that event's status.
  ghost predicate FactStep(db: Db, db': Db, e: EventId)
  {
    && db' == db.(book := db'.book, events := db'.events, facts := db'.facts, frozen := db'.frozen)
    && e in db.events && e in db'.events && db'.events == db.events[e := db.events[e].(status := db'.events[e].status)]
    && e in db'.facts && db'.facts == db.facts[e := db'.facts[e]]
  }

  lemma FactStepEvents(s: Sys, db': Db, e: EventId)
    requires EventsTrue(s) && FactStep(s.db, db', e)
    ensures EventsTrue(s.(db := db'))
  {
    forall x | x in db'.events ensures Witnessed(s.chain.log, x, db'.events[x]) {
      assert Witnessed(s.chain.log, x, s.db.events[x]);
      var i :| 0 <= i < |s.chain.log| && Matches(s.chain.log[i], x, s.db.events[x]);
      assert Matches(s.chain.log[i], x, db'.events[x]);
    }
  }

  lemma FactStepKeeps(s: Sys, db': Db, e: EventId)
    requires Inv(s) && DbInv(db') && FactStep(s.db, db', e)
    requires db'.facts[e].reverted ==> !HashLive(Canon(s.chain), e.hash)
    requires db'.facts[e].finalized && !db'.facts[e].reverted ==> FinalEvent(s.chain, e)
    ensures Inv(s.(db := db'))
  {
    FactStepEvents(s, db', e);
    FactStepFacts(s, db', e);
    FactStepFrame(s, db', e);
    hide DbInv, EventsTrue, FactsTrue, ConfirmedTrue, ClosedTrue, Known, ChainInv, FactStep;
  }

  lemma FactStepFrame(s: Sys, db': Db, e: EventId)
    requires Known(s) && ConfirmedTrue(s) && ClosedTrue(s) && FactStep(s.db, db', e)
    ensures var s' := s.(db := db'); Known(s') && ConfirmedTrue(s') && ClosedTrue(s')
  {
    KnownKept(s, db');
    hide Known;
  }

  lemma FactStepFacts(s: Sys, db': Db, e: EventId)
    requires FactsTrue(s) && FactStep(s.db, db', e)
    requires db'.facts[e].reverted ==> !HashLive(Canon(s.chain), e.hash)
    requires db'.facts[e].finalized && !db'.facts[e].reverted ==> FinalEvent(s.chain, e)
    ensures FactsTrue(s.(db := db'))
  {
  }

  lemma ApplyIsFactStep(db: Db, e: EventId)
    requires DbInv(db) && e in db.events && db.events[e].kind == Deposit && db.events[e].amount > 0
    ensures var r := ApplyDeposit(db, e);
      if e !in db.facts && !CreditFits(db.book, db.events[e].user, db.events[e].amount) then r == (db, Refused)
      else
        r.1 == Done && DbInv(r.0) && FactStep(db, r.0, e) &&
        r.0.facts[e] == if e in db.facts then db.facts[e]
            else FactRow(db.events[e].amount, db.events[e].height, false, false)
  {
    hide ApplyDeposit, DbInv, CreditedTo, CreditFits;
    ApplyDepositKeeps(db, e);
    if e in db.facts {
      assert db.facts == db.facts[e := db.facts[e]];
    }
  }

  lemma AppliesKeeps(s: Sys, e: EventId)
    requires Inv(s) && e in s.db.events && s.db.events[e].kind == Deposit
    ensures Inv(s.(db := ApplyDeposit(s.db, e).0))
    ensures ApplyDeposit(s.db, e).1 == Done <==>
        e in s.db.facts || CreditFits(s.db.book, s.db.events[e].user, s.db.events[e].amount)
  {
    hide Inv, ApplyDeposit, DbInv, FactStep, HashLive, FactRowFits, CreditFits;
    PartsOf(s);
    DepositRowOf(s, e);
    ApplyIsFactStep(s.db, e);
    if e in s.db.facts {
      FactOf(s, e);
    }
    if ApplyDeposit(s.db, e).1 == Done {
      assert e in ApplyDeposit(s.db, e).0.facts by {
        StepHasFact(s.db, ApplyDeposit(s.db, e).0, e);
      }
      FactStepKeeps(s, ApplyDeposit(s.db, e).0, e);
    } else {
      assert s.(db := ApplyDeposit(s.db, e).0) == s;
    }
  }

  lemma StepHasFact(db: Db, db': Db, e: EventId)
    requires FactStep(db, db', e)
    ensures e in db'.facts
  {
  }

  lemma PromotesKeeps(s: Sys, e: EventId)
    requires Inv(s) && e in s.db.facts && FinalEvent(s.chain, e)
    ensures Inv(s.(db := MarkFactFinalized(s.db, e)))
  {
    hide Inv, DbInv, HashLive, FinalEvent, ChainInv;
    PartsOf(s);
    FactOf(s, e);
    var db' := MarkFactFinalized(s.db, e);
    MarkFactFinalizedKeeps(s.db, e);
    if s.db.facts[e].reverted {
      assert s.(db := db') == s;
    } else {
      assert s.db.events == s.db.events[e := s.db.events[e]];
      FactStepKeeps(s, db', e);
    }
  }

  // Only credits whose block has left the chain are ever compensated.
  lemma OrphansAreDead(s: Sys, hash: Hash)
    requires Inv(s) && OrphanedBlock(s, hash)
    ensures !HashLive(Canon(s.chain), hash)
  {
    var e :| e in s.db.facts && e.hash == hash && Provisional(s.db.facts[e]) &&
        !LiveFact(s.chain, e, s.db.facts[e].height);
    LiveFactIsExact(s, e);
  }

  lemma RevertsKeeps(s: Sys, e: EventId)
    requires Inv(s) && e in s.db.facts && !s.db.facts[e].reverted && !HashLive(Canon(s.chain), e.hash)
    ensures Inv(s.(db := RevertFact(s.db, e).0)) && e in s.db.events
    ensures RevertFact(s.db, e).1 == if ClawbackFits(s.db, s.db.events[e].user, s.db.facts[e].amount) then Done
        else Refused
  {
    hide Inv, DbInv, RevertFact, HashLive, ChainInv, ClawbackFits;
    PartsOf(s);
    FactOf(s, e);
    RevertIsFactStep(s.db, e);
    hide FactStep;
    if RevertFact(s.db, e).1 == Done {
      FactStepKeeps(s, RevertFact(s.db, e).0, e);
    } else {
      assert s.(db := RevertFact(s.db, e).0) == s;
    }
  }

  lemma RevertIsFactStep(db: Db, e: EventId)
    requires DbInv(db) && e in db.facts && e in db.events && !db.facts[e].reverted && db.facts[e].amount > 0
    ensures var r := RevertFact(db, e);
      if !ClawbackFits(db, db.events[e].user, db.facts[e].amount) then r == (db, Refused)
      else
        && r.1 == Done && DbInv(r.0) && FactStep(db, r.0, e) && e in r.0.facts
        && r.0.facts[e] == db.facts[e].(reverted := true)
  {
    hide DbInv, RevertFact, Clawback, ClawbackShift, BalanceOf, ClawbackFits;
    RevertFactKeeps(db, e);
  }

  /* ----- the resolver ----- */

  // A finalised nonce of an intent is the intent's own payload, executed in the finalised history.
  lemma FinalPayload(s: Sys, n: Nonce) returns (at: nat)
    requires Inv(s) && n in s.db.intents && TxStatus(s.chain, n).finalized
    ensures Accepted(EMPTY, AllCalls(s.chain.history)) && at < |AllCalls(s.chain.history)|
    ensures n in s.db.outbox && AllCalls(s.chain.history)[at].tx == s.db.outbox[n]
  {
    var c := s.chain;
    assert IntentRow(s.db, n) && TruthfulAbout(c, n);
    HeadIsFullReplay(c);
    var k := Site(Canon(c), n);
    SiteLanded(Canon(c), n);
    assert Canon(c)[k] == c.history[k];
    var txs := c.history[k].txs;
    var j :| 0 <= j < |txs| && txs[j].nonce == n && txs[j].kind != Cancel;
    HeldInBlock(c, k, j);
    assert KnownTx(txs[j], s.db, c.nextDeposit);
    at := CallOfBlock(c.history, k, j);
  }

  lemma {:induction false} InTxsOf(blocks: seq<Block>, k: nat, j: nat)
    requires k < |blocks| && j < |blocks[k].txs|
    ensures blocks[k].txs[j] in TxsOf(blocks)
    decreases |blocks|
  {
    var last := |blocks| - 1;
    if k < last {
      assert blocks[..last][k] == blocks[k];
      InTxsOf(blocks[..last], k, j);
    }
  }

  lemma HeldInBlock(c: Chain, k: nat, j: nat)
    requires k < |Canon(c)| && j < |Canon(c)[k].txs|
    ensures Canon(c)[k].txs[j] in Deposits.Held(c)
  {
    InTxsOf(Canon(c), k, j);
  }

  lemma ConfirmsKeeps(s: Sys, n: Nonce)
    requires Inv(s) && n in s.db.intents && InFlight(s.db.intents[n]) && TxStatus(s.chain, n).finalized
    ensures var r := Confirm(s.db, n, TxStatus(s.chain, n).height, TxStatus(s.chain, n).hash);
      Inv(s.(db := r.0)) && r.1 == if ConfirmFits(s.db, n) then Done else Refused
  {
    var st := TxStatus(s.chain, n);
    var i := s.db.intents[n];
    ConfirmKeeps(s.db, n, st.height, st.hash);
    var db' := Confirm(s.db, n, st.height, st.hash).0;
    if ConfirmFits(s.db, n) {
      assert IntentRow(s.db, n);
      if i.kind == SettleMarket {
        var at := FinalPayload(s, n);
        AcceptedCall(EMPTY, AllCalls(s.chain.history), at);
      }
      hide Confirm, DbInv, ConfirmFits;
      ConfirmedTies(s, db', n);
    } else {
      assert s.(db := db') == s;
    }
  }

  lemma ConfirmedTies(s: Sys, db': Db, n: Nonce)
    requires Inv(s) && DbInv(db') && n in s.db.intents && TxStatus(s.chain, n).finalized
    requires ConfirmedStep(s.db, db', n, TxStatus(s.chain, n).height, TxStatus(s.chain, n).hash)
    requires s.db.intents[n].kind == SettleMarket ==> s.db.intents[n].market in s.chain.final.settled
    ensures Inv(s.(db := db'))
  {
    ConfirmedEvents(s, db', n);
    ConfirmedRows(s, db', n);
    KnownAfterConfirm(s, db', n);
    hide DbInv, ChainInv, EventsTrue, FactsTrue, ConfirmedTrue, ClosedTrue, Known, ConfirmedStep;
  }

  lemma ConfirmedEvents(s: Sys, db': Db, n: Nonce)
    requires EventsTrue(s) && FactsTrue(s) && IntentStep(s.db, db', n)
    ensures EventsTrue(s.(db := db')) && FactsTrue(s.(db := db'))
  {
  }

  lemma ConfirmedRows(s: Sys, db': Db, n: Nonce)
    requires ConfirmedTrue(s) && ClosedTrue(s) && n in s.db.intents && TxStatus(s.chain, n).finalized
    requires ConfirmedStep(s.db, db', n, TxStatus(s.chain, n).height, TxStatus(s.chain, n).hash)
    requires s.db.intents[n].kind == SettleMarket ==> s.db.intents[n].market in s.chain.final.settled
    ensures ConfirmedTrue(s.(db := db')) && ClosedTrue(s.(db := db'))
  {
  }

  lemma KnownAfterConfirm(s: Sys, db': Db, n: Nonce)
    requires Known(s) && IntentStep(s.db, db', n)
    ensures Known(s.(db := db'))
  {
    KnownKept(s, db');
  }

  lemma ExpiresKeeps(s: Sys, n: Nonce, observed: int)
    requires Inv(s) && n in s.db.intents && InFlight(s.db.intents[n])
    ensures Inv(s.(db := Expire(s.db, n, observed).0))
  {
    hide Inv, Expire, DbInv, ExpiredStep, Routine;
    PartsOf(s);
    ExpireKeeps(s.db, n, observed);
    var r := Expire(s.db, n, observed);
    ExpiredIsRoutine(s.db, r.0, n, r.1 == Done);
    StoreStepKeeps(s, r.0);
  }

  lemma ExpiredIsRoutine(db: Db, db': Db, n: Nonce, done: bool)
    requires ExpiredStep(db, db', n, done)
    ensures Routine(db, db')
  {
  }

  lemma ResolvesKeeps(s: Sys, n: Nonce, deadlinePassed: bool)
    requires Inv(s) && n in s.db.intents && InFlight(s.db.intents[n])
    ensures Inv(Resolve(s, n, deadlinePassed))
  {
    hide Inv, Confirm, Expire, CancelNonce, IsExpired;
    if TxStatus(s.chain, n).finalized {
      ConfirmsKeeps(s, n);
    }
    var i := s.db.intents[n];
    var c' := if i.kind == Withdraw then CancelNonce(s.chain, n, i.expiry).0 else s.chain;
    if i.kind == Withdraw {
      CancelKeeps(s, n);
    }
    ExpiresKeeps(s, n, s.chain.head);
    ExpiresKeeps(s.(chain := c'), n, s.chain.head);
  }

  /* ----- every step, every run ----- */

  // Steps that leave intents, markets, events and facts alone.
  lemma RoutineElsewhere(db: Db, db': Db)
    requires db'.intents == db.intents && db'.outbox == db.outbox && db'.markets == db.markets
    requires db'.events == db.events && db'.facts == db.facts
    ensures Routine(db, db')
  {
  }

  // Steps that add an unconfirmed intent, or move one along, and close no market.
  lemma RoutineIntent(db: Db, db': Db, n: Nonce, i: Intent)
    requires db'.intents == db.intents[n := i] && i.state != StateConfirmed
    requires n in db.intents ==>
        i.kind == db.intents[n].kind && i.expiry == db.intents[n].expiry && db'.outbox == db.outbox
    requires n !in db.intents ==> n !in db.outbox && n in db'.outbox && db'.outbox == db.outbox[n := db'.outbox[n]]
    requires db'.events == db.events && db'.facts == db.facts
    requires forall m | m in db'.markets && db'.markets[m].state == MarketClosed ::
        m in db.markets && db.markets[m] == db'.markets[m]
    ensures Routine(db, db')
  {
  }

  lemma WithdrawRoutine(db: Db, id: Nonce, user: User, amount: int64, request: string, expiry: int64)
    requires id !in db.intents && id !in db.outbox
    ensures Routine(db, RequestWithdraw(db, id, user, amount, request, expiry).0)
  {
    hide Routine;
    MoveOnlyBook(db, ReserveKey(id), ReserveLegs(user, amount));
    hide Move;
    var r := RequestWithdraw(db, id, user, amount, request, expiry);
    if r.1 == Done {
      RoutineIntent(db, r.0, id, Intent(Withdraw, user, "", amount, StateReserved, expiry, 0, 0, |db.intents|));
    } else {
      RoutineElsewhere(db, r.0);
    }
  }

  lemma SettlementRoutine(db: Db, id: Nonce, market: Market, outcome: int64)
    requires id !in db.intents && id !in db.outbox
    ensures Routine(db, RequestSettlement(db, id, market, outcome).0)
  {
    hide Routine;
    var r := RequestSettlement(db, id, market, outcome);
    if r.1 == Done {
      RoutineIntent(db, r.0, id, Intent(SettleMarket, "", market, 0, StateReserved, 0, 0, 0, |db.intents|));
    } else {
      RoutineElsewhere(db, r.0);
    }
  }

  lemma EscrowRoutine(db: Db, id: Nonce, market: Market, target: int64, expiry: int64)
    requires id !in db.intents && id !in db.outbox
    ensures Routine(db, RequestEscrowSet(db, id, market, target, expiry))
  {
    hide Routine;
    var db' := RequestEscrowSet(db, id, market, target, expiry);
    if EscrowInFlight(db, market) {
      RoutineElsewhere(db, db');
    } else {
      RoutineIntent(db, db', id, Intent(EscrowSet, "", market, target, StateReserved, expiry, 0, 0, |db.intents|));
    }
  }

  lemma MarkSubmittedRoutine(db: Db, n: Nonce)
    ensures Routine(db, MarkSubmitted(db, n))
  {
    hide Routine;
    if n in db.intents && db.intents[n].state == StateReserved {
      RoutineIntent(db, MarkSubmitted(db, n), n, db.intents[n].(state := StateSubmitted));
    } else {
      RoutineElsewhere(db, db);
    }
  }

  lemma OpenRoutine(db: Db, id: nat, user: User, market: Market, side: Margins.Side, size: int64, request: string)
    ensures Routine(db, OpenPosition(db, id, user, market, side, size, request).0)
  {
    hide OpenPosition, Routine;
    OpenFrame(db, id, user, market, side, size, request);
    RoutineElsewhere(db, OpenPosition(db, id, user, market, side, size, request).0);
  }

  lemma CloseRoutine(db: Db, id: nat, mark: int64, liquidation: bool)
    ensures Routine(db, ClosePosition(db, id, mark, liquidation).0)
  {
    hide ClosePosition, Routine;
    CloseFrame(db, id, mark, liquidation);
    RoutineElsewhere(db, ClosePosition(db, id, mark, liquidation).0);
  }

  // Seeding and repricing leave closed markets closed and others open.
  lemma MarketRoutine(db: Db, markets: map<Market, MarketRow>)
    requires forall m | m in markets && markets[m].state == MarketClosed ::
        m in db.markets && db.markets[m] == markets[m]
    ensures Routine(db, db.(markets := markets))
  {
  }

  lemma SeedRoutine(db: Db, market: Market, mark: int64)
    ensures Routine(db, SeedMarket(db, market, mark))
  {
    hide Routine;
    var markets := SeedMarket(db, market, mark).markets;
    assert SeedMarket(db, market, mark) == db.(markets := markets);
    assert forall m | m in markets && markets[m].state == MarketClosed ::
        m in db.markets && db.markets[m] == markets[m];
    hide SeedMarket;
    MarketRoutine(db, markets);
  }

  lemma RepriceRoutine(db: Db, market: Market, mark: int64)
    ensures Routine(db, SetMark(db, market, mark))
  {
    hide Routine;
    var markets := SetMark(db, market, mark).markets;
    assert SetMark(db, market, mark) == db.(markets := markets);
    assert forall m | m in markets && markets[m].state == MarketClosed ::
        m in db.markets && db.markets[m] == markets[m];
    hide SetMark;
    MarketRoutine(db, markets);
  }

  // Steps that change only the status of recorded events.
  lemma RoutineEvents(db: Db, events: map<EventId, EventRow>)
    requires EventsKept(db, db.(events := events))
    ensures Routine(db, db.(events := events))
  {
    hide EventsKept;
  }

  lemma StatusRoutine(db: Db, e: EventId, status: EventStatus)
    ensures Routine(db, SetStatus(db, e, status))
  {
    hide Routine, IntentsKept, NothingConfirmed;
    RoutineEvents(db, SetStatus(db, e, status).events);
  }

  lemma OutsideRoutine(db: Db, text: string, user: User, credit: int64)
    ensures Routine(db, PostOutside(db, text, user, credit))
  {
    hide PostOutside, Routine;
    OutsideFrame(db, text, user, credit);
    RoutineElsewhere(db, PostOutside(db, text, user, credit));
  }

  // A store step taken by itself.
  lemma RoutineStep(s: Sys, db': Db)
    requires Inv(s) && DbInv(db') && Routine(s.db, db')
    ensures Inv(s.(db := db'))
  {
    StoreStepKeeps(s, db');
  }

  lemma Parts(s: Sys)
    requires Inv(s)
    ensures DbInv(s.db) && Rows(s.db) && s.chain.head >= 0
    ensures forall id | FreshIntent(s, id) :: id !in s.db.outbox
  {
  }

  lemma CollateralNonNegative(db: Db, market: Market)
    requires Rows(db)
    ensures SumOf(db.positions, CollateralIn(market)) >= 0
  {
    var column := CollateralIn(market);
    forall p | p in db.positions ensures column(db.positions[p]) >= 0 {
      assert PositionRow(db, p);
    }
    SumOfNonNegative(db.positions, column);
  }

  lemma UserStepKeeps(s: Sys, step: Step)
    requires Inv(s) && Allowed(s, step)
    requires step.RequestsWithdraw? || step.Opens? || step.Closes? || step.Seeds? || step.Reprices? ||
        step.RequestsSettlement?
    ensures Inv(Next(s, step))
  {
    hide Inv, DbInv, Rows, Shaped, Routine, RequestWithdraw, OpenPosition, ClosePosition, RequestSettlement, SeedMarket,
         SetMark;
    Parts(s);
    match step {
      case RequestsWithdraw(id, user, amount, request, expiry) =>
        RequestWithdrawKeeps(s.db, id, user, amount, request, expiry);
        WithdrawRoutine(s.db, id, user, amount, request, expiry);
      case Opens(id, user, market, side, size, request) =>
        OpenPositionKeeps(s.db, id, user, market, side, size, request);
        OpenRoutine(s.db, id, user, market, side, size, request);
      case Closes(id, mark, liquidation) =>
        ClosePositionKeeps(s.db, id, mark, liquidation);
        CloseRoutine(s.db, id, mark, liquidation);
      case Seeds(market, mark) =>
        SeedMarketKeeps(s.db, market, mark);
        SeedRoutine(s.db, market, mark);
      case Reprices(market, mark) =>
        SetMarkKeeps(s.db, market, mark);
        RepriceRoutine(s.db, market, mark);
      case RequestsSettlement(id, market, outcome) =>
        RequestSettlementKeeps(s.db, id, market, outcome);
        SettlementRoutine(s.db, id, market, outcome);
    }
    RoutineStep(s, Next(s, step).db);
  }

  lemma WorkerStepKeeps(s: Sys, step: Step)
    requires Inv(s) && Allowed(s, step)
    requires step.Marks? || step.Advances? || step.Ignores?
    ensures Inv(Next(s, step))
  {
    hide Inv, DbInv, ChainInv, Shaped, Routine, MarkSubmitted, SetStatus, AdvanceCursor;
    PartsOf(s);
    match step {
      case Marks(n) =>
        MarkSubmittedKeeps(s.db, n);
        MarkSubmittedRoutine(s.db, n);
      case Advances(number) => CursorKeeps(s.db, number);
      case Ignores(e) =>
        StatusKeeps(s.db, e, Ignored);
        StatusRoutine(s.db, e, Ignored);
    }
    RoutineStep(s, Next(s, step).db);
  }

  lemma EscrowStepKeeps(s: Sys, step: Step)
    requires Inv(s) && Allowed(s, step) && step.RequestsEscrow?
    ensures Inv(Next(s, step))
  {
    hide Inv, DbInv, Rows, Shaped, Routine, RequestEscrowSet;
    Parts(s);
    CollateralNonNegative(s.db, step.market);
    RequestEscrowSetKeeps(s.db, step.id, step.market, step.target, step.expiry);
    EscrowRoutine(s.db, step.id, step.market, step.target, step.expiry);
    RoutineStep(s, Next(s, step).db);
  }

  lemma OutsiderStepKeeps(s: Sys, step: Step)
    requires Inv(s) && Allowed(s, step) && (step.Freezes? || step.Unfreezes? || step.PostsOutside?)
    ensures Inv(Next(s, step))
  {
    hide Inv, DbInv, Shaped, Routine, PostOutside, ChainInv;
    PartsOf(s);
    match step {
      case Freezes(subject) => FreezesKeep(s.db, s.db.frozen + {subject});
      case Unfreezes(subject) => FreezesKeep(s.db, s.db.frozen - {subject});
      case PostsOutside(text, user, credit) =>
        PostOutsideKeeps(s.db, text, user, credit);
        OutsideRoutine(s.db, text, user, credit);
    }
    RoutineStep(s, Next(s, step).db);
  }

  lemma FreezesKeep(db: Db, frozen: set<string>)
    requires DbInv(db)
    ensures DbInv(db.(frozen := frozen)) && Routine(db, db.(frozen := frozen))
  {
    hide DbInv, Routine;
    SameEventsKeep(db, db.(frozen := frozen));
    RoutineElsewhere(db, db.(frozen := frozen));
  }

  lemma CursorKeeps(db: Db, number: nat)
    requires DbInv(db)
    ensures DbInv(AdvanceCursor(db, number)) && Routine(db, AdvanceCursor(db, number))
  {
    hide DbInv, Routine;
    var db' := AdvanceCursor(db, number);
    assert db' == db.(cursor := db'.cursor);
    hide AdvanceCursor;
    SameEventsKeep(db, db');
    RoutineElsewhere(db, db');
  }

  lemma StatusKeeps(db: Db, e: EventId, status: EventStatus)
    requires DbInv(db)
    ensures DbInv(SetStatus(db, e, status))
  {
    hide DbInv;
    var db' := SetStatus(db, e, status);
    assert db' == db.(events := db'.events);
    assert forall x | x in db.events ::
        x in db'.events && db'.events[x] == db.events[x].(status := db'.events[x].status);
    hide SetStatus;
    EventsGrow(db, db');
  }

  // Every step the system can take keeps the invariant.
  lemma StepKeeps(s: Sys, step: Step)
    requires Inv(s) && Allowed(s, step)
    ensures Inv(Next(s, step))
  {
    hide Inv, Resolve, Mine, SubmitTx, RequestWithdraw, OpenPosition, ClosePosition, RequestSettlement,
         RequestEscrowSet, ApplyDeposit, RevertFact, PostOutside, OrphanedBlock, RecordEvent;
    match step {
      case Deposits(user, amount) => DepositsKeeps(s, user, amount);
      case Mines(depth, shuffled, hash) => MinesKeeps(s, depth, shuffled, hash);
      case SetsConfirms(confirms) => SetsConfirmsKeeps(s, confirms);
      case Submits(n, fate) => SubmitsKeeps(s, n, fate);
      case Resolves(n, deadlinePassed) => ResolvesKeeps(s, n, deadlinePassed);
      case Polls(i) => PollsKeeps(s, {s.chain.log[i]});
      case Records(ev) =>
        CopyFrom(s, ev);
        RecordsKeeps(s, ev);
      case Applies(e) => AppliesKeeps(s, e);
      case Promotes(e) => PromotesKeeps(s, e);
      case Reverts(e) =>
        OrphansAreDead(s, e.hash);
        RevertsKeeps(s, e);
      case RequestsWithdraw(_, _, _, _, _) => UserStepKeeps(s, step);
      case Opens(_, _, _, _, _, _) => UserStepKeeps(s, step);
      case Closes(_, _, _) => UserStepKeeps(s, step);
      case Seeds(_, _) => UserStepKeeps(s, step);
      case Reprices(_, _) => UserStepKeeps(s, step);
      case RequestsSettlement(_, _, _) => UserStepKeeps(s, step);
      case Freezes(_) => OutsiderStepKeeps(s, step);
      case Unfreezes(_) => OutsiderStepKeeps(s, step);
      case PostsOutside(_, _, _) => OutsiderStepKeeps(s, step);
      case RequestsEscrow(_, _, _, _) => EscrowStepKeeps(s, step);
      case _ => WorkerStepKeeps(s, step);
    }
  }

  // Every state the system can reach, by any steps in any order with any faults, satisfies it.
  lemma {:induction false} EveryTraceKeeps(s: Sys, steps: seq<Step>)
    requires Inv(s) && IsTrace(s, steps)
    ensures Inv(Final(s, steps))
    decreases |steps|
  {
    if steps != [] {
      StepKeeps(s, steps[0]);
      EveryTraceKeeps(Next(s, steps[0]), steps[1..]);
    }
  }
}
