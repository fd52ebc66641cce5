/** Bounded resolution. With a fixed number of confirmations and no reorgs, a withdrawal cannot
    stay in flight: mining a block and running the resolver each round settles it by the time head
    is `max(Confirms, 2)` past its expiry, whatever happens to its submissions, as long as it and the
    intents older than it find room in the ledger when they are visited. */
module Resolution {
  import opened Integers
  import opened GoVault
  import opened ChainModel
  import opened ChainBlocks
  import opened ChainInvariants
  import opened Store
  import opened StoreInvariants
  import opened System
  import opened SystemInvariants
  import opened SystemRefunds
  import opened Engine
  import Deposits
  import Refunds

  // Anything but mining and changing the number of confirmations.
  predicate Quiet(step: Step)
  {
    !step.Mines? && !step.SetsConfirms?
  }

  ghost predicate AllQuiet(steps: seq<Step>)
  {
    forall i | 0 <= i < |steps| :: Quiet(steps[i])
  }

  ghost function Bound(s: Sys, n: Nonce): int
    requires n in s.db.intents
  {
    s.db.intents[n].expiry + if s.chain.confirms > 2 then s.chain.confirms else 2
  }

  ghost predicate WithdrawalOf(s: Sys, n: Nonce)
  {
    n in s.db.intents && s.db.intents[n].kind == Withdraw
  }

  // The measure: where a withdrawal in flight can stand at the end of a round.
  ghost predicate OnTrack(s: Sys, n: Nonce)
    requires n in s.db.intents
  {
    var c, e := s.chain, s.db.intents[n].expiry;
    InFlight(s.db.intents[n]) ==>
      || c.head <= e
      || (Site(Canon(c), n) >= 0 && c.head < e + c.confirms)
      || (Site(Canon(c), n) < 0 && c.head == e + 1 && CancelTx(n, e) in c.mempool)
  }

  /* ----- quiet steps ----- */

  lemma MempoolGrows(s: Sys, step: Step)
    requires Allowed(s, step) && Quiet(step)
    ensures Next(s, step).chain.confirms == s.chain.confirms
    ensures forall t | t in s.chain.mempool :: t in Next(s, step).chain.mempool
  {
    hide RequestWithdraw, OpenPosition, ClosePosition, RequestSettlement, RequestEscrowSet, ApplyDeposit, RevertFact,
         PostOutside, HeadState, IsExpired, Confirm, Expire, OrphanedBlock, CollateralIn;
  }

  lemma QuietKeepsTrack(s: Sys, step: Step, n: Nonce)
    requires Inv(s) && Allowed(s, step) && Quiet(step) && WithdrawalOf(s, n) && OnTrack(s, n)
    ensures WithdrawalOf(Next(s, step), n) && OnTrack(Next(s, step), n)
    ensures Next(s, step).db.intents[n].expiry == s.db.intents[n].expiry &&
        Next(s, step).chain.confirms == s.chain.confirms
    ensures Next(s, step).chain.head == s.chain.head
  {
    StepProgress(s, step);
    MempoolGrows(s, step);
    CanonHeadFrame(s, step);
    hide Inv, Next, Allowed, OnlyResolves;
  }

  lemma {:induction false} QuietRunKeepsTrack(s: Sys, steps: seq<Step>, n: Nonce)
    requires Inv(s) && IsTrace(s, steps) && AllQuiet(steps) && WithdrawalOf(s, n) && OnTrack(s, n)
    ensures Inv(Final(s, steps)) && WithdrawalOf(Final(s, steps), n) && OnTrack(Final(s, steps), n)
    ensures Final(s, steps).db.intents[n].expiry == s.db.intents[n].expiry
    ensures Final(s, steps).chain.confirms == s.chain.confirms && Final(s, steps).chain.head == s.chain.head
    decreases |steps|
  {
    hide Inv, Next, Allowed, OnTrack;
    if steps != [] {
      assert Quiet(steps[0]);
      StepKeeps(s, steps[0]);
      QuietKeepsTrack(s, steps[0], n);
      QuietRunKeepsTrack(Next(s, steps[0]), steps[1..], n);
    }
  }

  /* ----- mining ----- */

  // Where a withdrawal in flight can stand right after a block.
  ghost predicate AfterBlock(s: Sys, n: Nonce)
    requires n in s.db.intents
  {
    var c, e := s.chain, s.db.intents[n].expiry;
    InFlight(s.db.intents[n]) ==>
      || c.head <= e
      || Site(Canon(c), n) >= 0
      || c.head == e + 1
      || (c.head == e + 2 && n in HeadState(c).cancelled)
  }

  // A queued cancellation takes effect in the next block past the expiry.
  lemma {:induction false} CancelLands(v: Vault, pool: seq<Tx>, height: int, tx: Tx, next: nat)
    requires Refunds.AllUsedAs(pool, tx, next) && Refunds.IsWithdrawal(tx) && height > tx.expiry
    requires tx.nonce !in v.processed
    ensures tx.nonce !in PoolState(v, pool, height).processed
    ensures CancelTx(tx.nonce, tx.expiry) in pool || tx.nonce in v.cancelled ==>
        tx.nonce in PoolState(v, pool, height).cancelled
    decreases |pool|
  {
    if pool != [] {
      var rest, t := pool[..|pool| - 1], pool[|pool| - 1];
      assert pool == rest + [t];
      forall u | u in rest ensures u in pool {}
      CancelLands(v, rest, height, tx, next);
      PoolStateSnoc(v, rest, t, height);
      assert Refunds.UsedAs(t, tx, next);
      LateCall(PoolState(v, rest, height), t, height, tx);
    }
  }

  lemma LateCall(v: Vault, t: Tx, height: int, tx: Tx)
    requires Refunds.IsWithdrawal(tx) && height > tx.expiry && tx.nonce !in v.processed
    requires t.nonce == tx.nonce ==> t == tx || (t.kind == Cancel && t.expiry == tx.expiry)
    ensures var r := Apply(v, t, height);
      && tx.nonce !in r.vault.processed
      && (tx.nonce in v.cancelled || t == CancelTx(tx.nonce, tx.expiry) ==> tx.nonce in r.vault.cancelled)
      && (!r.ok ==> r.vault == v)
  {
  }

  // A submission past the expiry is refused for good, and the refusal is put on record.
  lemma {:induction false} LateRefusalIsFiled(receipts: map<Nonce, Receipt>, v: Vault, pool: seq<Tx>, height: int,
      tx: Tx, next: nat)
    requires Refunds.AllUsedAs(pool, tx, next) && Refunds.IsWithdrawal(tx) && height > tx.expiry
    requires tx.nonce !in v.processed && tx in pool
    ensures var r := Rejections(receipts, v, pool, height);
      tx.nonce in r && r[tx.nonce] == Receipt(false, false, 0, 0, Expired)
    decreases |pool|
  {
    var rest, t := pool[..|pool| - 1], pool[|pool| - 1];
    assert pool == rest + [t];
    forall u | u in rest ensures u in pool {}
    CancelLands(v, rest, height, tx, next);
    assert Refunds.UsedAs(t, tx, next);
    if t != tx {
      assert tx in rest;
      LateRefusalIsFiled(receipts, v, rest, height, tx, next);
    }
    LateVerdict(PoolState(v, rest, height), t, height, tx);
    hide Apply, PoolState;
  }

  lemma LateVerdict(v: Vault, t: Tx, height: int, tx: Tx)
    requires Refunds.IsWithdrawal(tx) && height > tx.expiry && tx.nonce !in v.processed
    requires t.nonce == tx.nonce ==> t == tx || (t.kind == Cancel && t.expiry == tx.expiry)
    ensures t == tx ==> !Apply(v, t, height).ok && Apply(v, t, height).reason == Expired
    ensures t.nonce == tx.nonce && !Apply(v, t, height).ok ==> Apply(v, t, height).reason == Expired
  {
  }

  lemma AddBlockHead(c: Chain, hash: Hash)
    ensures HeadState(AddBlock(c, hash)) == PoolState(HeadState(c), c.mempool, c.head + 1)
  {
    var b := NextBlock(c, hash);
    AllCallsSnoc(c.pending, b);
    RunConcat(c.final, AllCalls(c.pending), CallsAt(b.txs, b.height));
  }

  lemma FinaliseHead(c: Chain)
    requires ChainInv(c)
    ensures HeadState(FinaliseAll(c)) == HeadState(c) && Canon(FinaliseAll(c)) == Canon(c)
  {
    FinaliseAllKeeps(c);
    HeadIsFullReplay(c);
    HeadIsFullReplay(FinaliseAll(c));
  }

  // The executing state after a block is the state its pool was executed to.
  lemma HeadAfterBlock(c: Chain, hash: Hash)
    requires ChainInv(c) && hash !in c.used
    ensures HeadState(Mine(c, 0, [], hash)) == PoolState(HeadState(c), c.mempool, c.head + 1)
    ensures Canon(Mine(c, 0, [], hash)) == Canon(c) + [NextBlock(c, hash)]
    ensures var c' := Mine(c, 0, [], hash);
        c'.head == c.head + 1 && c'.confirms == c.confirms && |c'.pending| <= c.confirms
  {
    var mined := AddBlock(c, hash);
    AddBlockKeeps(c, hash);
    AddBlockCanon(c, hash);
    AddBlockHead(c, hash);
    assert mined.head == c.head + 1 && mined.confirms == c.confirms;
    hide ChainInv, HeadState, AddBlock, NextBlock, Canon, PoolState, FinaliseAll;
    FinaliseHead(mined);
    Refunds.FinaliseAllFrame(mined);
  }

  // A landed withdrawal stays landed, and a queued cancellation past the expiry takes effect.
  lemma MinedCancel(s: Sys, hash: Hash, n: Nonce)
    requires Inv(s) && WithdrawalOf(s, n) && hash !in s.chain.used
    requires Site(Canon(s.chain), n) < 0 && s.chain.head == s.db.intents[n].expiry + 1
    requires CancelTx(n, s.db.intents[n].expiry) in s.chain.mempool
    ensures n in HeadState(Mine(s.chain, 0, [], hash)).cancelled
  {
    var c := s.chain;
    EngineIsDisciplined(s, n);
    HeadKnows(c, n);
    assert ChainInv(c) && Refunds.AllUsedAs(c.mempool, s.db.outbox[n], c.nextDeposit);
    hide Inv, HeadState, Mine, PoolState, ChainInv, Refunds.AllUsedAs;
    HeadAfterBlock(c, hash);
    CancelLands(HeadState(c), c.mempool, c.head + 1, s.db.outbox[n], c.nextDeposit);
  }

  lemma MineTrack(s: Sys, hash: Hash, n: Nonce)
    requires Inv(s) && WithdrawalOf(s, n) && OnTrack(s, n) && hash !in s.chain.used
    ensures AfterBlock(s.(chain := Mine(s.chain, 0, [], hash)), n)
  {
    var c := s.chain;
    var e: int := s.db.intents[n].expiry;
    assert ChainInv(c);
    hide Inv, ChainInv, HeadState, Mine, PoolState, NextBlock, Canon, Site;
    HeadAfterBlock(c, hash);
    SiteSnoc(Canon(c), NextBlock(c, hash), n);
    SiteLanded(Canon(c), n);
    if InFlight(s.db.intents[n]) && c.head == e + 1 && Site(Canon(c), n) < 0 {
      MinedCancel(s, hash, n);
    }
  }

  lemma {:induction false} StampedElsewhere(receipts: map<Nonce, Receipt>, txs: seq<Tx>, height: int, hash: Hash,
      n: Nonce)
    requires forall t | t in txs && t.kind != Cancel :: t.nonce != n
    ensures n in Stamped(receipts, txs, height, hash) <==> n in receipts
    ensures n in receipts ==> Stamped(receipts, txs, height, hash)[n] == receipts[n]
    decreases |txs|
  {
    if txs != [] {
      var rest, t := txs[..|txs| - 1], txs[|txs| - 1];
      assert txs == rest + [t] && t in txs;
      forall u | u in rest ensures u in txs {}
      StampedElsewhere(receipts, rest, height, hash, n);
    }
  }

  // A submission that comes too late is evidence: the block that refuses it leaves the withdrawal
  // expired for the resolver, without any cancellation.
  lemma LateSubmissionIsEvidence(s: Sys, hash: Hash, n: Nonce)
    requires Inv(s) && WithdrawalOf(s, n) && hash !in s.chain.used && Site(Canon(s.chain), n) < 0
    requires s.chain.head + 1 > s.db.intents[n].expiry && n in s.db.outbox && s.db.outbox[n] in s.chain.mempool
    ensures IsExpired(AddBlock(s.chain, hash), n)
  {
    var c, tx := s.chain, s.db.outbox[n];
    EngineIsDisciplined(s, n);
    assert ChainInv(c);
    HeadKnows(c, n);
    hide Inv, ChainInv, HeadState, AddBlock, Site, Canon, IsExpired, Refunds.AllUsedAs, Refunds.IsWithdrawal;
    LateInPool(c, hash, tx);
  }

  lemma LateInPool(c: Chain, hash: Hash, tx: Tx)
    requires Refunds.AllUsedAs(c.mempool, tx, c.nextDeposit) && Refunds.IsWithdrawal(tx) && tx in c.mempool
    requires c.head + 1 > tx.expiry && tx.nonce !in HeadState(c).processed
    ensures IsExpired(AddBlock(c, hash), tx.nonce)
  {
    hide HeadState, PoolState, Apply, Stamped, Rejections, Included, IsExpired, Refunds.AllUsedAs,
         Refunds.IsWithdrawal;
    LateRefusalIsFiled(c.receipts, HeadState(c), c.mempool, c.head + 1, tx, c.nextDeposit);
    NotIncluded(HeadState(c), c.mempool, c.head + 1, tx, c.nextDeposit);
    StampedElsewhere(Rejections(c.receipts, HeadState(c), c.mempool, c.head + 1), NextBlock(c, hash).txs, c.head + 1,
        hash, tx.nonce);
    FiledIsExpired(AddBlock(c, hash), tx.nonce);
  }

  lemma FiledIsExpired(c: Chain, n: Nonce)
    requires n in c.receipts && c.receipts[n] == Receipt(false, false, 0, 0, Expired)
    ensures IsExpired(c, n)
  {
  }

  lemma {:induction false} NotIncluded(v: Vault, pool: seq<Tx>, height: int, tx: Tx, next: nat)
    requires Refunds.AllUsedAs(pool, tx, next) && Refunds.IsWithdrawal(tx) && height > tx.expiry
    requires tx.nonce !in v.processed
    ensures forall t | t in Included(v, pool, height) && t.kind != Cancel :: t.nonce != tx.nonce
    decreases |pool|
  {
    if pool != [] {
      var rest, t := pool[..|pool| - 1], pool[|pool| - 1];
      assert pool == rest + [t];
      forall u | u in rest ensures u in pool {}
      NotIncluded(v, rest, height, tx, next);
      CancelLands(v, rest, height, tx, next);
      assert Refunds.UsedAs(t, tx, next);
      LateVerdict(PoolState(v, rest, height), t, height, tx);
      hide Apply;
    }
  }

  /* ----- the resolver's pass ----- */

  // A withdrawal lands no later than its expiry height.
  lemma LandsInTime(s: Sys, n: Nonce)
    requires Inv(s) && WithdrawalOf(s, n) && Site(Canon(s.chain), n) >= 0
    ensures Site(Canon(s.chain), n) + 1 <= s.db.intents[n].expiry
  {
    var c := s.chain;
    hide Inv, DbInv, Refunds.Disciplined, Site;
    PartsOf(s);
    EngineIsDisciplined(s, n);
    SiteLanded(Canon(c), n);
    var k := Site(Canon(c), n);
    var txs := Canon(c)[k].txs;
    var j :| 0 <= j < |txs| && txs[j].nonce == n && txs[j].kind != Cancel;
    HeldInBlock(c, k, j);
    KnownOf(s, txs[j]);
    var at := CallOfBlock(Canon(c), k, j);
    AcceptedCall(EMPTY, AllCalls(Canon(c)), at);
  }

  lemma StillPending(s: Sys, n: Nonce)
    requires Inv(s) && WithdrawalOf(s, n) && |s.chain.pending| <= s.chain.confirms
    requires TxStatus(s.chain, n).processed && !TxStatus(s.chain, n).finalized
    ensures Site(Canon(s.chain), n) >= 0 && s.chain.head < s.db.intents[n].expiry + s.chain.confirms
  {
    assert TruthfulAbout(s.chain, n);
    LandsInTime(s, n);
  }

  // A queued cancellation for the withdrawal is the resolver's own.
  lemma QueuedCancel(s: Sys, n: Nonce)
    requires Inv(s) && WithdrawalOf(s, n) && CancelQueued(s.chain, n)
    ensures CancelTx(n, s.db.intents[n].expiry) in s.chain.mempool
  {
    var c := s.chain;
    var i :| 0 <= i < |c.mempool| && c.mempool[i].nonce == n && c.mempool[i].kind == Cancel;
    assert c.mempool[i] in Deposits.Held(c);
    EngineIsDisciplined(s, n);
  }

  // Not past the expiry: the pass leaves it alone.
  lemma ResolveEarly(s: Sys, n: Nonce, late: bool)
    requires WithdrawalOf(s, n) && s.db.intents[n].expiry > 0 && !TxStatus(s.chain, n).processed
    requires s.chain.head <= s.db.intents[n].expiry
    ensures Resolve(s, n, late) == s
  {
    hide Expire, Confirm, CancelNonce, IsExpired;
  }

  // Past the expiry and refused for good: the pass refunds it.
  lemma ResolveRefused(s: Sys, n: Nonce, late: bool)
    requires WithdrawalOf(s, n) && s.db.intents[n].expiry > 0 && !TxStatus(s.chain, n).processed
    requires s.chain.head > s.db.intents[n].expiry && IsExpired(s.chain, n)
    ensures Resolve(s, n, late) == s.(db := Expire(s.db, n, s.chain.head).0)
  {
    hide Expire, Confirm, CancelNonce, IsExpired;
  }

  // Past the expiry and not refused yet: the pass queues a cancellation and waits.
  lemma ResolveCancels(s: Sys, n: Nonce, late: bool)
    requires Inv(s) && WithdrawalOf(s, n) && !TxStatus(s.chain, n).processed
    requires s.chain.head > s.db.intents[n].expiry > 0 && !IsExpired(s.chain, n)
    ensures Resolve(s, n, late).db == s.db && CancelTx(n, s.db.intents[n].expiry) in Resolve(s, n, late).chain.mempool
  {
    hide Inv, Expire, Confirm, HeadState;
    if CancelQueued(s.chain, n) {
      QueuedCancel(s, n);
    }
    assert n !in HeadState(s.chain).cancelled;
  }

  lemma ResolveUnlanded(s: Sys, n: Nonce, late: bool)
    requires Inv(s) && WithdrawalOf(s, n) && InFlight(s.db.intents[n]) && !TxStatus(s.chain, n).processed
    requires s.chain.head <= s.db.intents[n].expiry + 1 || n in HeadState(s.chain).cancelled
    requires GoesOn(ResolveAnswer(s, n, late))
    ensures n in Resolve(s, n, late).db.intents && OnTrack(Resolve(s, n, late), n)
  {
    hide Inv, DbInv, Expire, HeadState, Resolve, ResolveAnswer, RefundFits;
    PartsOf(s);
    IntentOf(s, n);
    CanonAfterResolve(s, n, late);
    WhatEndsAPass(s, n, late);
    if s.chain.head <= s.db.intents[n].expiry {
      ResolveEarly(s, n, late);
    } else if IsExpired(s.chain, n) {
      ResolveRefused(s, n, late);
      ExpireKeeps(s.db, n, s.chain.head);
    } else {
      ResolveCancels(s, n, late);
    }
  }

  lemma ResolveOwn(s: Sys, n: Nonce, late: bool)
    requires Inv(s) && WithdrawalOf(s, n) && InFlight(s.db.intents[n]) && |s.chain.pending| <= s.chain.confirms
    requires AfterBlock(s, n) && GoesOn(ResolveAnswer(s, n, late))
    ensures n in Resolve(s, n, late).db.intents && OnTrack(Resolve(s, n, late), n)
  {
    hide Inv, DbInv, Shaped, ChainInv, Resolve, ResolveAnswer, HeadState, TruthfulAbout, IntentRow, Confirm,
         ConfirmFits;
    PartsOf(s);
    IntentOf(s, n);
    WhatEndsAPass(s, n, late);
    var st := TxStatus(s.chain, n);
    if st.finalized {
      FinalIsProcessed(s.chain, n);
      ConfirmKeeps(s.db, n, st.height, st.hash);
      ResolveConfirms(s, n, late);
    } else if st.processed {
      StillPending(s, n);
      ResolveWaits(s, n, late);
    } else {
      UnlandedSite(s, n);
      ResolveUnlanded(s, n, late);
    }
  }

  lemma UnlandedSite(s: Sys, n: Nonce)
    requires TruthfulAbout(s.chain, n) && !TxStatus(s.chain, n).processed
    ensures Site(Canon(s.chain), n) < 0
  {
  }

  lemma ResolveConfirms(s: Sys, n: Nonce, late: bool)
    requires n in s.db.intents && TxStatus(s.chain, n).processed && TxStatus(s.chain, n).finalized
    ensures Resolve(s, n, late) == s.(db := Confirm(s.db, n, TxStatus(s.chain, n).height, TxStatus(s.chain, n).hash).0)
  {
    hide Confirm;
  }

  lemma ResolveWaits(s: Sys, n: Nonce, late: bool)
    requires n in s.db.intents && TxStatus(s.chain, n).processed && !TxStatus(s.chain, n).finalized
    ensures Resolve(s, n, late) == s
  {
  }

  // The rest of the pass leaves the withdrawal where it is.
  lemma ResolveOther(s: Sys, m: Nonce, late: bool, n: Nonce)
    requires Inv(s) && m in s.db.intents && InFlight(s.db.intents[m]) && WithdrawalOf(s, n)
    ensures var s' := Resolve(s, m, late);
      && Inv(s') && WithdrawalOf(s', n) && SameGround(s.chain, s'.chain)
      && s'.db.intents[n].expiry == s.db.intents[n].expiry
      && (m != n ==> s'.db.intents[n] == s.db.intents[n])
      && (m != n && AfterBlock(s, n) ==> AfterBlock(s', n))
      && (OnTrack(s, n) ==> OnTrack(s', n))
  {
    hide Inv, Resolve, HeadState, OnTrack;
    ResolvesKeeps(s, m, late);
    ResolveProgress(s, m, late);
    GroundAfterResolve(s, m, late);
    if OnTrack(s, n) {
      QuietKeepsTrack(s, Resolves(m, late), n);
    }
    if m != n {
      OtherRowKept(s, m, late, n);
    }
    hide Progress, OnlyResolves;
  }

  // Same blocks, same finality, same executing state; only the mempool may differ.
  ghost predicate SameGround(c: Chain, c': Chain)
  {
    && Canon(c') == Canon(c) && c'.pending == c.pending && c'.head == c.head && c'.confirms == c.confirms
    && HeadState(c') == HeadState(c)
  }

  lemma GroundAfterResolve(s: Sys, m: Nonce, late: bool)
    requires m in s.db.intents
    ensures SameGround(s.chain, Resolve(s, m, late).chain)
  {
    hide Confirm, Expire, IsExpired, Run;
  }

  // The withdrawal's own visit does not end the pass.
  ghost predicate OwnAnswer(s: Sys, order: seq<Nonce>, late: set<Nonce>, n: Nonce)
  {
    if order == [] then true
    else
      var rest, last := order[..|order| - 1], order[|order| - 1];
      var before := ResolveAll(s, rest, late);
      OwnAnswer(s, rest, late, n) &&
      (last == n ==> n in before.db.intents && GoesOn(ResolveAnswer(before, n, n in late)))
  }

  lemma {:induction false} ResolveAllTrack(s: Sys, order: seq<Nonce>, late: set<Nonce>, n: Nonce)
    requires Inv(s) && WithdrawalOf(s, n) && |s.chain.pending| <= s.chain.confirms && AfterBlock(s, n)
    requires forall m | m in order :: m in Waiting(s.db)
    requires (forall i, j | 0 <= i < j < |order| :: order[i] != order[j]) && OwnAnswer(s, order, late, n)
    ensures var s' := ResolveAll(s, order, late);
      && Inv(s') && WithdrawalOf(s', n) && SameGround(s.chain, s'.chain)
      && s'.db.intents[n].expiry == s.db.intents[n].expiry
      && (forall m | m in Waiting(s.db) && m !in order :: m in Waiting(s'.db))
      && (if n in order then OnTrack(s', n) else s'.db.intents[n] == s.db.intents[n] && AfterBlock(s', n))
    decreases |order|
  {
    hide Inv, Resolve, ResolveAnswer, HeadState, OnTrack;
    if order != [] {
      var rest, m := order[..|order| - 1], order[|order| - 1];
      assert order == rest + [m];
      assert m in order && m !in rest;
      ResolveAllTrack(s, rest, late, n);
      var before := ResolveAll(s, rest, late);
      assert m in Waiting(before.db);
      ResolveOther(before, m, m in late, n);
      if m == n {
        ResolveOwn(before, n, n in late);
      }
      forall x | x in Waiting(s.db) && x !in order ensures x in Waiting(Resolve(before, m, m in late).db) {
        assert x in Waiting(before.db);
        OthersKeepWaiting(before, m, m in late, x);
      }
    }
  }

  /* ----- whom a pass serves ----- */

  // Every visit up to the withdrawal's own finds room for what it asks of the ledger.
  ghost predicate ClearFor(s: Sys, queue: seq<Nonce>, late: set<Nonce>, n: Nonce)
  {
    forall i | 0 <= i < |queue| && n !in queue[..i] :: VisitFits(ResolveAll(s, queue[..i], late), queue[i])
  }

  // Along a pass the invariant holds, and those still to be visited are as they were.
  lemma {:induction false} PassState(s: Sys, queue: seq<Nonce>, late: set<Nonce>, i: nat)
    requires Inv(s) && IsQueue(s.db, queue) && i <= |queue|
    ensures var s' := ResolveAll(s, queue[..i], late);
      Inv(s') && SameGround(s.chain, s'.chain) && StillQueued(s.db, s'.db, queue, i)
    decreases i
  {
    hide Inv, Resolve, HeadState;
    if i > 0 {
      var rest, m := queue[..i - 1], queue[i - 1];
      PassState(s, queue, late, i - 1);
      assert queue[..i] == rest + [m] && (rest + [m])[..i - 1] == rest;
      var before := ResolveAll(s, rest, late);
      hide StillQueued, IsQueue;
      QueueShrinks(s.db, before, queue, i - 1, m in late);
      ResolvesKeeps(before, m, m in late);
      GroundAfterResolve(before, m, m in late);
    }
  }

  lemma VisitAnswers(s: Sys, queue: seq<Nonce>, late: set<Nonce>, i: nat)
    requires Inv(s) && IsQueue(s.db, queue) && i < |queue|
    ensures var before, n := ResolveAll(s, queue[..i], late), queue[i];
      n in before.db.intents && (GoesOn(ResolveAnswer(before, n, n in late)) <==> VisitFits(before, n))
  {
    hide Inv, ResolveAll, ResolveAnswer, VisitFits, SameGround;
    PassState(s, queue, late, i);
    WhatEndsAPass(ResolveAll(s, queue[..i], late), queue[i], queue[i] in late);
  }

  // A pass goes on past its first visits exactly when they all find room.
  lemma {:induction false} SmoothIsRoom(s: Sys, queue: seq<Nonce>, late: set<Nonce>, count: nat)
    requires Inv(s) && IsQueue(s.db, queue) && count <= |queue|
    ensures Smooth(s, queue[..count], late) <==>
            forall i | 0 <= i < count :: VisitFits(ResolveAll(s, queue[..i], late), queue[i])
    decreases count
  {
    hide Inv, IsQueue, ResolveAll, ResolveAnswer, VisitFits;
    if count > 0 {
      SmoothIsRoom(s, queue, late, count - 1);
      VisitAnswers(s, queue, late, count - 1);
      assert queue[..count][..count - 1] == queue[..count - 1];
    }
  }

  lemma {:induction false} OwnAnswerAt(s: Sys, queue: seq<Nonce>, late: set<Nonce>, visits: nat, at: nat)
    requires IsQueue(s.db, queue) && visits <= |queue| && at < |queue|
    ensures var n, before := queue[at], ResolveAll(s, queue[..at], late);
      OwnAnswer(s, queue[..visits], late, n) <==>
      (at < visits ==> n in before.db.intents && GoesOn(ResolveAnswer(before, n, n in late)))
    decreases visits
  {
    hide ResolveAll, ResolveAnswer;
    if visits > 0 {
      OwnAnswerAt(s, queue, late, visits - 1, at);
      assert queue[..visits][..visits - 1] == queue[..visits - 1];
    }
  }

  // A pass reaches the withdrawal and answers it if and only if the way is clear.
  lemma ServedIfClear(s: Sys, queue: seq<Nonce>, late: set<Nonce>, visits: nat, n: Nonce)
    requires Inv(s) && IsPass(s, queue, late, visits) && n in queue
    ensures n in queue[..visits] && OwnAnswer(s, queue[..visits], late, n) <==> ClearFor(s, queue, late, n)
  {
    hide Inv, ResolveAll, ResolveAnswer, VisitFits, Smooth, OwnAnswer, IsQueue, ClearFor;
    var at :| 0 <= at < |queue| && queue[at] == n;
    ClearUpTo(s, queue, late, at);
    SmoothIsRoom(s, queue, late, at + 1);
    SmoothIsRoom(s, queue, late, visits);
    if visits > 0 {
      SmoothIsRoom(s, queue, late, visits - 1);
    }
    VisitAnswers(s, queue, late, at);
    OwnAnswerAt(s, queue, late, visits, at);
    if at < visits {
      assert ClearFor(s, queue, late, n) <==> VisitFits(ResolveAll(s, queue[..at], late), n);
    } else {
      assert !Smooth(s, queue[..visits], late);
    }
  }

  lemma ClearUpTo(s: Sys, queue: seq<Nonce>, late: set<Nonce>, at: nat)
    requires IsQueue(s.db, queue) && at < |queue|
    ensures ClearFor(s, queue, late, queue[at]) <==>
            forall i | 0 <= i < at + 1 :: VisitFits(ResolveAll(s, queue[..i], late), queue[i])
    ensures forall visits | 0 <= visits <= |queue| :: queue[at] in queue[..visits] <==> at < visits
  {
    hide ResolveAll, VisitFits;
    forall i | 0 <= i <= |queue| ensures queue[at] in queue[..i] <==> at < i {
      if at < i {
        assert queue[..i][at] == queue[at];
      }
    }
  }

  /* ----- rounds ----- */

  // A round: any quiet steps, one block without a reorg, one pass of the resolver over its queue.
  datatype Round = Round(steps: seq<Step>, hash: Hash, queue: seq<Nonce>, visits: nat, late: set<Nonce>)

  ghost function Mined(s: Sys, r: Round): Sys
    requires IsTrace(s, r.steps) && r.hash !in Final(s, r.steps).chain.used
  {
    var s1 := Final(s, r.steps);
    s1.(chain := Mine(s1.chain, 0, [], r.hash))
  }

  ghost predicate IsRound(s: Sys, r: Round)
  {
    && IsTrace(s, r.steps) && AllQuiet(r.steps) && r.hash !in Final(s, r.steps).chain.used
    && IsPass(Mined(s, r), r.queue, r.late, r.visits)
  }

  ghost function AfterRound(s: Sys, r: Round): Sys
    requires IsRound(s, r)
  {
    ResolveAll(Mined(s, r), r.queue[..r.visits], r.late)
  }

  ghost predicate AreRounds(s: Sys, rounds: seq<Round>)
    decreases |rounds|
  {
    rounds == [] || (IsRound(s, rounds[0]) && AreRounds(AfterRound(s, rounds[0]), rounds[1..]))
  }

  ghost function AfterRounds(s: Sys, rounds: seq<Round>): Sys
    requires AreRounds(s, rounds)
    decreases |rounds|
  {
    if rounds == [] then s else AfterRounds(AfterRound(s, rounds[0]), rounds[1..])
  }

  // While the withdrawal is in flight, the way to it is clear in the pass of the round.
  ghost predicate ClearRound(s: Sys, r: Round, n: Nonce)
    requires IsRound(s, r)
  {
    n in r.queue ==> ClearFor(Mined(s, r), r.queue, r.late, n)
  }

  ghost predicate AllClear(s: Sys, rounds: seq<Round>, n: Nonce)
    requires AreRounds(s, rounds)
    decreases |rounds|
  {
    rounds == [] || (ClearRound(s, rounds[0], n) && AllClear(AfterRound(s, rounds[0]), rounds[1..], n))
  }

  lemma RoundKeepsTrack(s: Sys, r: Round, n: Nonce)
    requires Inv(s) && IsRound(s, r) && ClearRound(s, r, n) && WithdrawalOf(s, n) && OnTrack(s, n)
    ensures var s' := AfterRound(s, r);
      && Inv(s') && WithdrawalOf(s', n) && OnTrack(s', n)
      && s'.db.intents[n].expiry == s.db.intents[n].expiry
      && s'.chain.confirms == s.chain.confirms && s'.chain.head == s.chain.head + 1
  {
    QuietRunKeepsTrack(s, r.steps, n);
    var s1, s2 := Final(s, r.steps), Mined(s, r);
    MinesKeeps(s1, 0, [], r.hash);
    MineTrack(s1, r.hash, n);
    assert ChainInv(s1.chain);
    HeadAfterBlock(s1.chain, r.hash);
    hide Inv, ChainInv, Mine, HeadState, OnTrack, AfterBlock;
    PassKeepsTrack(s2, r.queue, r.late, r.visits, n);
  }

  // A pass whose way to the withdrawal is clear leaves it on track.
  lemma PassKeepsTrack(s: Sys, queue: seq<Nonce>, late: set<Nonce>, visits: nat, n: Nonce)
    requires Inv(s) && WithdrawalOf(s, n) && |s.chain.pending| <= s.chain.confirms && AfterBlock(s, n)
    requires IsPass(s, queue, late, visits) && (n in queue ==> ClearFor(s, queue, late, n))
    ensures var s' := ResolveAll(s, queue[..visits], late);
      && Inv(s') && WithdrawalOf(s', n) && OnTrack(s', n) && SameGround(s.chain, s'.chain)
      && s'.db.intents[n].expiry == s.db.intents[n].expiry
  {
    var order := queue[..visits];
    forall i | 0 <= i < visits ensures order[i] in Waiting(s.db) {
      assert order[i] == queue[i];
    }
    hide Inv, AfterBlock, OnTrack, ResolveAll, HeadState, Smooth, ClearFor;
    if n in queue {
      ServedIfClear(s, queue, late, visits, n);
    } else {
      NeverVisited(s, order, late, n);
    }
    ResolveAllTrack(s, order, late, n);
    if n !in order {
      SettledIsOnTrack(ResolveAll(s, order, late), n);
    }
  }

  lemma {:induction false} NeverVisited(s: Sys, order: seq<Nonce>, late: set<Nonce>, n: Nonce)
    requires n !in order
    ensures OwnAnswer(s, order, late, n)
    decreases |order|
  {
    if order != [] {
      NeverVisited(s, order[..|order| - 1], late, n);
    }
  }

  lemma SettledIsOnTrack(s: Sys, n: Nonce)
    requires n in s.db.intents && !InFlight(s.db.intents[n])
    ensures OnTrack(s, n)
  {
  }

  // By the end of the round in which head reaches expiry + max(Confirms, 2), the withdrawal has
  // been confirmed or refunded, if in every pass before that it and the older ones found room; every
  // round raises head by one, so that many rounds suffice.
  lemma {:induction false} WithdrawalsResolve(s: Sys, rounds: seq<Round>, n: Nonce)
    requires Inv(s) && AreRounds(s, rounds) && WithdrawalOf(s, n) && OnTrack(s, n)
    ensures AllClear(s, rounds, n) ==>
              var s' := AfterRounds(s, rounds);
              && Inv(s') && n in s'.db.intents && s'.chain.head == s.chain.head + |rounds|
              && (s'.chain.head >= Bound(s, n) ==> !InFlight(s'.db.intents[n]))
    decreases |rounds|
  {
    hide Inv, IsRound, ClearRound, AfterRound;
    if rounds != [] && ClearRound(s, rounds[0], n) {
      RoundKeepsTrack(s, rounds[0], n);
      WithdrawalsResolve(AfterRound(s, rounds[0]), rounds[1..], n);
    }
  }

  // A withdrawal that has just been requested is on track.
  lemma FreshWithdrawalIsOnTrack(s: Sys, id: Nonce, user: User, amount: int64, request: string, expiry: int64)
    requires Inv(s) && Allowed(s, RequestsWithdraw(id, user, amount, request, expiry))
    requires RequestWithdraw(s.db, id, user, amount, request, expiry).1 == Done
    ensures var s' := Next(s, RequestsWithdraw(id, user, amount, request, expiry));
      WithdrawalOf(s', id) && InFlight(s'.db.intents[id]) && OnTrack(s', id) &&
      Bound(s', id) == s.chain.head + WITHDRAW_EXPIRY_BLOCKS + if s.chain.confirms > 2 then s.chain.confirms else 2
  {
    hide Inv, Move;
  }
}
