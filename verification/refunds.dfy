/** When is a refunded withdrawal safe? The engine refunds on head state, and head can move
    back in a reorg. This module finds the exact condition under which a withdrawal that has
    not landed can never land on any continuation of the chain. */
module Refunds {
  import opened Integers
  import opened Sums
  import opened GoVault
  import opened ChainModel
  import opened ChainBlocks
  import opened ChainInvariants

  // How the engine's callers use the chain: a withdrawal's nonce occurs only as its own payload
  // or as its cancellation, escrow targets are not negative, and deposits are numbered by the chain.
  ghost predicate UsedAs(t: Tx, tx: Tx, nextDeposit: nat)
  {
    && (t.nonce == tx.nonce ==> t == tx || (t.kind == Cancel && t.expiry == tx.expiry))
    && t.target >= 0
    && (t.nonce.DepositId? ==> t.nonce.number <= nextDeposit)
  }

  ghost predicate AllUsedAs(txs: seq<Tx>, tx: Tx, nextDeposit: nat)
  {
    forall t | t in txs :: UsedAs(t, tx, nextDeposit)
  }

  ghost predicate Disciplined(c: Chain, tx: Tx)
  {
    && AllUsedAs(c.mempool, tx, c.nextDeposit)
    && (forall k | 0 <= k < |Canon(c)| :: AllUsedAs(Canon(c)[k].txs, tx, c.nextDeposit))
  }

  ghost predicate DisciplinedAction(c: Chain, a: Action, tx: Tx)
  {
    match a
    case DoSubmit(t, _) => UsedAs(t, tx, c.nextDeposit)
    case DoCancel(n, expiry) => n.IntentId? && (n == tx.nonce ==> expiry == tx.expiry)
    case _ => true
  }

  ghost predicate DisciplinedRun(c: Chain, actions: seq<Action>, tx: Tx)
    requires IsRun(c, actions)
    decreases |actions|
  {
    actions == [] || (DisciplinedAction(c, actions[0], tx) && DisciplinedRun(Act(c, actions[0]), actions[1..], tx))
  }

  ghost predicate IsWithdrawal(tx: Tx)
  {
    tx.kind == Withdraw && tx.nonce.IntentId? && tx.amount > 0 && tx.expiry > 0 && tx.target >= 0
  }

  // The withdrawal has not landed on the current chain.
  ghost predicate Unpaid(c: Chain, tx: Tx)
  {
    Site(Canon(c), tx.nonce) < 0
  }

  // What a caller can check before refunding.
  ghost predicate RefundSafe(c: Chain, tx: Tx)
  {
    c.finalHeight >= tx.expiry || tx.nonce in c.final.cancelled
  }

  // The weaker thing the engine relies on: the next block can no longer accept the nonce.
  ghost predicate HeadRefuses(c: Chain, tx: Tx)
  {
    c.head >= tx.expiry || tx.nonce in HeadState(c).cancelled
  }

  ghost predicate NeverPaid(c: Chain, tx: Tx)
  {
    forall actions | IsRun(c, actions) && DisciplinedRun(c, actions, tx) :: Unpaid(After(c, actions), tx)
  }

  /* ----- the discipline is kept ----- */

  lemma MoreDeposits(txs: seq<Tx>, tx: Tx, n: nat, m: nat)
    requires AllUsedAs(txs, tx, n) && n <= m
    ensures AllUsedAs(txs, tx, m)
  {
  }

  lemma {:induction false} TxsOfUsedAs(blocks: seq<Block>, tx: Tx, n: nat)
    requires forall k | 0 <= k < |blocks| :: AllUsedAs(blocks[k].txs, tx, n)
    ensures AllUsedAs(TxsOf(blocks), tx, n)
    decreases |blocks|
  {
    if blocks != [] {
      TxsOfUsedAs(blocks[..|blocks| - 1], tx, n);
    }
  }

  lemma ReorgDisciplined(c: Chain, depth: nat, shuffled: seq<Tx>, tx: Tx)
    requires Disciplined(c, tx) && CanReorg(c, depth, shuffled)
    ensures Disciplined(Reorg(c, depth, shuffled), tx)
  {
    var orphaned := c.pending[|c.pending| - depth..];
    var c' := Reorg(c, depth, shuffled);
    ReorgCanon(c, depth, shuffled);
    forall k | 0 <= k < depth ensures AllUsedAs(orphaned[k].txs, tx, c.nextDeposit) {
      assert Canon(c)[|Canon(c')| + k] == orphaned[k];
    }
    TxsOfUsedAs(orphaned, tx, c.nextDeposit);
    SameElements(shuffled, TxsOf(orphaned));
    forall k | 0 <= k < |Canon(c')| ensures Canon(c')[k] == Canon(c)[k] {}
  }

  lemma AddBlockDisciplined(c: Chain, hash: Hash, tx: Tx)
    requires Disciplined(c, tx)
    ensures Disciplined(AddBlock(c, hash), tx)
  {
    var b := NextBlock(c, hash);
    AddBlockCanon(c, hash);
    forall t | t in b.txs ensures t in c.mempool {
      var i :| 0 <= i < |b.txs| && b.txs[i] == t;
      IncludedFromPool(HeadState(c), c.mempool, c.head + 1, i);
    }
    forall k | 0 <= k < |Canon(c)| + 1 ensures AllUsedAs((Canon(c) + [b])[k].txs, tx, c.nextDeposit) {}
  }

  lemma {:induction false} FinaliseAllFrame(c: Chain)
    requires ChainInv(c)
    ensures var c' := FinaliseAll(c);
      c'.mempool == c.mempool && c'.nextDeposit == c.nextDeposit && c'.head == c.head &&
      c'.used == c.used && c'.confirms == c.confirms &&
      c.finalHeight <= c'.finalHeight && c.final.cancelled <= c'.final.cancelled &&
      (|c.pending| <= c.confirms ==> c' == c) && |c'.pending| <= c.confirms
    decreases |c.pending|
  {
    if |c.pending| > c.confirms {
      FinaliseKeeps(c);
      FinaliseAllFrame(FinaliseOne(c));
      RunGrows(c.final, CallsAt(c.pending[0].txs, c.pending[0].height));
    }
  }

  lemma MineDisciplined(c: Chain, depth: nat, shuffled: seq<Tx>, hash: Hash, tx: Tx)
    requires ChainInv(c) && CanMine(c, depth, shuffled, hash) && Disciplined(c, tx)
    ensures Disciplined(Mine(c, depth, shuffled, hash), tx)
    ensures Mine(c, depth, shuffled, hash).nextDeposit == c.nextDeposit
  {
    var c1 := if depth > 0 then Reorg(c, depth, shuffled) else c;
    if depth > 0 {
      ReorgKeeps(c, depth, shuffled);
      ReorgDisciplined(c, depth, shuffled, tx);
    }
    AddBlockKeeps(c1, hash);
    AddBlockDisciplined(c1, hash, tx);
    FinaliseAllKeeps(AddBlock(c1, hash));
    FinaliseAllFrame(AddBlock(c1, hash));
  }

  lemma DepositDisciplined(c: Chain, user: User, amount: int64, tx: Tx)
    requires Disciplined(c, tx) && tx.nonce.IntentId?
    ensures Disciplined(UserDeposit(c, user, amount), tx)
  {
    MoreDeposits(c.mempool, tx, c.nextDeposit, c.nextDeposit + 1);
    forall k | 0 <= k < |Canon(c)| ensures AllUsedAs(Canon(c)[k].txs, tx, c.nextDeposit + 1) {
      MoreDeposits(Canon(c)[k].txs, tx, c.nextDeposit, c.nextDeposit + 1);
    }
    assert Canon(UserDeposit(c, user, amount)) == Canon(c);
  }

  lemma PoolAppendDisciplined(c: Chain, t: Tx, tx: Tx)
    requires Disciplined(c, tx) && UsedAs(t, tx, c.nextDeposit)
    ensures Disciplined(c.(mempool := c.mempool + [t]), tx)
  {
    assert Canon(c.(mempool := c.mempool + [t])) == Canon(c);
  }

  lemma ActDisciplined(c: Chain, a: Action, tx: Tx)
    requires ChainInv(c) && Enabled(c, a) && Disciplined(c, tx) && DisciplinedAction(c, a, tx)
    requires tx.nonce.IntentId?
    ensures Disciplined(Act(c, a), tx)
  {
    match a {
      case DoMine(depth, shuffled, hash) => MineDisciplined(c, depth, shuffled, hash, tx);
      case DoDeposit(user, amount) => DepositDisciplined(c, user, amount, tx);
      case DoSubmit(t, _) => PoolAppendDisciplined(c, t, tx);
      case DoCancel(n, expiry) => PoolAppendDisciplined(c, CancelTx(n, expiry), tx);
      case DoSetConfirms(_) => assert Canon(Act(c, a)) == Canon(c);
    }
  }

  /* ----- safe: it never lands ----- */

  // A block mined while the head refuses the nonce cannot carry it.
  lemma {:induction false} RefusedByPool(v: Vault, pool: seq<Tx>, height: int, tx: Tx, n: nat)
    requires AllUsedAs(pool, tx, n) && IsWithdrawal(tx)
    requires height > tx.expiry || tx.nonce in v.cancelled
    ensures !Carries(Included(v, pool, height), tx.nonce)
    decreases |pool|
  {
    if pool != [] {
      var last := |pool| - 1;
      RefusedByPool(v, pool[..last], height, tx, n);
      RunGrows(v, CallsAt(Included(v, pool[..last], height), height));
      var txs := Included(v, pool, height);
      assert UsedAs(pool[last], tx, n);
      if txs != Included(v, pool[..last], height) {
        CarriesSnoc(txs, tx.nonce);
        assert txs[..|txs| - 1] == Included(v, pool[..last], height);
      }
    }
  }

  lemma AddBlockUnpaid(c: Chain, hash: Hash, tx: Tx)
    requires Disciplined(c, tx) && IsWithdrawal(tx) && Unpaid(c, tx) && HeadRefuses(c, tx)
    ensures Unpaid(AddBlock(c, hash), tx)
  {
    RefusedByPool(HeadState(c), c.mempool, c.head + 1, tx, c.nextDeposit);
    hide HeadState, Included, AddBlock, Canon, Site, Carries;
    AddBlockCanon(c, hash);
    SiteSnoc(Canon(c), NextBlock(c, hash), tx.nonce);
  }

  lemma ReorgUnpaid(c: Chain, depth: nat, shuffled: seq<Tx>, tx: Tx)
    requires ChainInv(c) && CanReorg(c, depth, shuffled) && Unpaid(c, tx)
    ensures Unpaid(Reorg(c, depth, shuffled), tx)
  {
    ReorgCanon(c, depth, shuffled);
    SitePrefix(Canon(Reorg(c, depth, shuffled)), c.pending[|c.pending| - depth..], tx.nonce);
  }

  lemma MineUnpaid(c: Chain, depth: nat, shuffled: seq<Tx>, hash: Hash, tx: Tx)
    requires ChainInv(c) && CanMine(c, depth, shuffled, hash)
    requires Disciplined(c, tx) && IsWithdrawal(tx) && Unpaid(c, tx)
    requires HeadRefuses(if depth > 0 then Reorg(c, depth, shuffled) else c, tx)
    ensures Unpaid(Mine(c, depth, shuffled, hash), tx)
  {
    var c1 := if depth > 0 then Reorg(c, depth, shuffled) else c;
    if depth > 0 {
      ReorgKeeps(c, depth, shuffled);
      ReorgDisciplined(c, depth, shuffled, tx);
      ReorgUnpaid(c, depth, shuffled, tx);
    }
    AddBlockKeeps(c1, hash);
    AddBlockUnpaid(c1, hash, tx);
    FinaliseAllKeeps(AddBlock(c1, hash));
  }

  // Safety on finalised state survives any reorg, because reorgs stop at finality.
  lemma SafeMeansHeadRefuses(c: Chain, tx: Tx)
    requires ChainInv(c) && RefundSafe(c, tx)
    ensures HeadRefuses(c, tx)
  {
    RunGrows(c.final, AllCalls(c.pending));
  }

  lemma ReorgKeepsSafe(c: Chain, depth: nat, shuffled: seq<Tx>, tx: Tx)
    requires ChainInv(c) && CanReorg(c, depth, shuffled) && RefundSafe(c, tx)
    ensures HeadRefuses(Reorg(c, depth, shuffled), tx) && RefundSafe(Reorg(c, depth, shuffled), tx)
  {
    ReorgKeeps(c, depth, shuffled);
    SafeMeansHeadRefuses(Reorg(c, depth, shuffled), tx);
  }

  lemma MineKeepsSafe(c: Chain, depth: nat, shuffled: seq<Tx>, hash: Hash, tx: Tx)
    requires ChainInv(c) && CanMine(c, depth, shuffled, hash) && RefundSafe(c, tx)
    ensures RefundSafe(Mine(c, depth, shuffled, hash), tx)
  {
    var c1 := if depth > 0 then Reorg(c, depth, shuffled) else c;
    if depth > 0 {
      ReorgKeeps(c, depth, shuffled);
    }
    AddBlockKeeps(c1, hash);
    FinaliseAllFrame(AddBlock(c1, hash));
  }

  lemma ActKeepsSafe(c: Chain, a: Action, tx: Tx)
    requires ChainInv(c) && Enabled(c, a) && Disciplined(c, tx) && IsWithdrawal(tx)
    requires Unpaid(c, tx) && RefundSafe(c, tx)
    ensures Unpaid(Act(c, a), tx) && RefundSafe(Act(c, a), tx)
  {
    hide ChainInv, Disciplined, SubmitTx, CancelNonce, Mine, Site;
    if a.DoMine? {
      if a.depth > 0 {
        ReorgKeepsSafe(c, a.depth, a.shuffled, tx);
      } else {
        SafeMeansHeadRefuses(c, tx);
      }
      hide RefundSafe, Unpaid, HeadRefuses;
      MineUnpaid(c, a.depth, a.shuffled, a.hash, tx);
      MineKeepsSafe(c, a.depth, a.shuffled, a.hash, tx);
    } else {
      ActFrame(c, a);
      hide Act;
      assert Canon(Act(c, a)) == Canon(c);
    }
  }

  lemma {:induction false} SafeForever(c: Chain, actions: seq<Action>, tx: Tx)
    requires ChainInv(c) && IsRun(c, actions) && DisciplinedRun(c, actions, tx)
    requires Disciplined(c, tx) && IsWithdrawal(tx) && Unpaid(c, tx) && RefundSafe(c, tx)
    ensures Unpaid(After(c, actions), tx)
    decreases |actions|
  {
    if actions != [] {
      ActKeeps(c, actions[0]);
      ActDisciplined(c, actions[0], tx);
      ActKeepsSafe(c, actions[0], tx);
      SafeForever(Act(c, actions[0]), actions[1..], tx);
    }
  }

  /* ----- unsafe: there is a continuation that pays it ----- */

  lemma FreshHash(used: set<Hash>) returns (hash: Hash)
    ensures hash !in used
  {
    hash := 0;
    var rest := used;
    while rest != {}
      invariant rest <= used
      invariant forall h | h in used && h !in rest :: h < hash
      decreases |rest|
    {
      var h :| h in rest;
      rest := rest - {h};
      if hash <= h {
        hash := h + 1;
      }
    }
  }

  // Dropping every pending block leaves the final state as head state.
  lemma Rewind(c: Chain) returns (c': Chain)
    requires ChainInv(c)
    ensures |c.pending| > 0 ==> CanReorg(c, |c.pending|, TxsOf(c.pending))
    ensures c' == if |c.pending| > 0 then Reorg(c, |c.pending|, TxsOf(c.pending)) else c
    ensures ChainInv(c') && c'.pending == [] && HeadState(c') == c.final
    ensures c'.mempool == TxsOf(c.pending) + c.mempool
  {
    var depth := |c.pending|;
    assert c.pending[0..] == c.pending;
    c' := c;
    if depth > 0 {
      c' := Reorg(c, depth, TxsOf(c.pending));
      ReorgKeeps(c, depth, TxsOf(c.pending));
    } else {
      assert [] + c.mempool == c.mempool;
    }
  }

  lemma ConfirmsAtLeastOne(c: Chain)
    requires ChainInv(c)
    ensures c.confirms >= 1 && c.head == c.finalHeight + |c.pending|
  {
  }

  // What mining on top of finality gives when every pending block is dropped first.
  lemma RewindAndMine(c: Chain, hash: Hash) returns (c': Chain)
    requires ChainInv(c) && hash !in c.used
    ensures CanMine(c, |c.pending|, TxsOf(c.pending), hash) && c' == Mine(c, |c.pending|, TxsOf(c.pending), hash)
    ensures ChainInv(c')
    ensures c'.history == c.history && c'.final == c.final && c'.finalHeight == c.finalHeight
    ensures c'.mempool == [] && c'.nextDeposit == c.nextDeposit && c'.head == c.finalHeight + 1
    ensures |c'.pending| == 1 && c'.pending[0].height == c.finalHeight + 1
    ensures c'.pending[0].txs == Included(c.final, TxsOf(c.pending) + c.mempool, c.finalHeight + 1)
  {
    hide ChainInv, HeadState, Included, Rejections, Stamped, Events, Positions, MarkOrphans, FinaliseOne, TxsOf, Canon,
         Heights, Nonces;
    var c1 := Rewind(c);
    var c2 := AddBlock(c1, hash);
    AddBlockKeeps(c1, hash);
    ConfirmsAtLeastOne(c);
    assert c2.pending == [NextBlock(c1, hash)];
    FinaliseAllFrame(c2);
    c' := Mine(c, |c.pending|, TxsOf(c.pending), hash);
    assert c' == c2;
  }

  lemma EarlyCancelRefused(v: Vault, t: Tx, height: int)
    requires t.kind == Cancel && height <= t.expiry
    ensures !Apply(v, t, height).ok
  {
  }

  // Until the expiry height no cancellation of the nonce is accepted.
  lemma {:induction false} NotCancelledEarly(v: Vault, pool: seq<Tx>, height: int, tx: Tx, n: nat)
    requires AllUsedAs(pool, tx, n) && height <= tx.expiry && tx.kind == Withdraw
    requires tx.nonce !in v.cancelled
    ensures tx.nonce !in PoolState(v, pool, height).cancelled
    decreases |pool|
  {
    if pool != [] {
      var last := |pool| - 1;
      var t := pool[last];
      NotCancelledEarly(v, pool[..last], height, tx, n);
      PoolStateSnoc(v, pool[..last], t, height);
      assert pool == pool[..last] + [t];
      assert UsedAs(t, tx, n);
      ApplyNonces(PoolState(v, pool[..last], height), t, height);
      if t.kind == Cancel && t.nonce == tx.nonce {
        EarlyCancelRefused(PoolState(v, pool[..last], height), t, height);
      }
    }
  }

  ghost predicate Mentions(pool: seq<Tx>, n: Nonce)
  {
    exists t | t in pool :: t.nonce == n
  }

  lemma {:induction false} PoolStateNonces(v: Vault, pool: seq<Tx>, height: int, n: Nonce)
    requires n !in v.processed && n !in v.cancelled && !Mentions(pool, n)
    ensures n !in PoolState(v, pool, height).processed && n !in PoolState(v, pool, height).cancelled
    decreases |pool|
  {
    if pool != [] {
      var last := |pool| - 1;
      assert pool == pool[..last] + [pool[last]];
      assert !Mentions(pool[..last], n) && pool[last].nonce != n;
      PoolStateNonces(v, pool[..last], height, n);
      PoolStateSnoc(v, pool[..last], pool[last], height);
      ApplyNonces(PoolState(v, pool[..last], height), pool[last], height);
    }
  }

  lemma FinalNonces(c: Chain, tx: Tx, n: Nonce)
    requires ChainInv(c) && Disciplined(c, tx) && n.DepositId? && n.number > c.nextDeposit
    ensures n !in c.final.processed && n !in c.final.cancelled
  {
    HeadIsFullReplay(c);
    HistoryDecides(AllCalls(c.history), n);
    LandedOrRefused(c.history, n);
    FinalDisciplined(c, tx);
    TxsOfUsedAs(c.history, tx, c.nextDeposit);
    forall i | 0 <= i < |TxsOf(c.history)| ensures TxsOf(c.history)[i].nonce != n {
      assert TxsOf(c.history)[i] in TxsOf(c.history);
    }
  }

  lemma WithdrawAccepted(v: Vault, tx: Tx, height: int)
    requires IsWithdrawal(tx) && height <= tx.expiry && Free(v) >= tx.amount
    requires tx.nonce !in v.processed && tx.nonce !in v.cancelled
    ensures Apply(v, tx, height).ok
  {
  }

  /* ----- funding the withdrawal, whatever the balance has wrapped to ----- */

  // These deposits, numbered from here on.
  function Deps(next: nat, amounts: seq<int64>): seq<Tx>
    decreases |amounts|
  {
    if amounts == [] then []
    else [Tx(DepositId(next + 1), Deposit, "payer", amounts[0], "", 0, 0, 0)] + Deps(next + 1, amounts[1..])
  }

  function TotalOf(amounts: seq<int64>): int
  {
    if amounts == [] then 0 else amounts[0] + TotalOf(amounts[1..])
  }

  predicate AllPositive(amounts: seq<int64>)
  {
    forall i | 0 <= i < |amounts| :: amounts[i] > 0
  }

  lemma TotalOfThree(x: int64, y: int64, z: int64)
    ensures TotalOf([x, y, z]) == x + y + z
  {
    assert [x, y, z][1..] == [y, z] && [y, z][1..] == [z] && [z][1..] == [];
    assert TotalOf([z]) == z && TotalOf([y, z]) == y + z;
  }

  // Three deposits can bring free custody to any amount, from wherever it stands.
  lemma ThreeDeposits(free: int64, amount: int64) returns (amounts: seq<int64>)
    ensures AllPositive(amounts) && Wrapped(free + TotalOf(amounts)) == amount
  {
    var total := (amount - free - 3) % TWO_TO_THE_64 + 3;
    var first: int := if total - 2 < MAX_INT64 then total - 2 else MAX_INT64;
    var second: int := if total - 1 - first < MAX_INT64 then total - 1 - first else MAX_INT64;
    amounts := [first, second, total - first - second];
    TotalOfThree(first, second, total - first - second);
    var k := (amount - free - 3) / TWO_TO_THE_64;
    assert free + total == amount + (0 - k) * TWO_TO_THE_64;
    WrapsAround(amount, 0 - k);
  }

  lemma DepositAdds(v: Vault, dep: Tx, height: int)
    requires dep.kind == Deposit && dep.amount > 0 && dep.expiry == 0
    requires dep.nonce !in v.processed && dep.nonce !in v.cancelled
    ensures var r := Apply(v, dep, height);
      && r.ok && Free(r.vault) == Wrapped(Free(v) + dep.amount)
      && r.vault.processed == v.processed + {dep.nonce} && r.vault.cancelled == v.cancelled
  {
    hide Wrapped, Sum;
    var taken := Wrapped(Sum(v.escrow));
    var less: int := taken;
    WrapsOnce(v.balance + dep.amount, -less);
    WrapsOnce(v.balance - taken, dep.amount);
    assert v.balance + dep.amount + -less == v.balance - taken + dep.amount;
  }

  // Nothing has been heard of the deposits numbered from here on.
  ghost predicate Unnumbered(v: Vault, next: nat)
  {
    forall n: Nonce | n.DepositId? && n.number > next :: n !in v.processed && n !in v.cancelled
  }

  // A pool followed by deposits: they add up, and touch nothing else.
  lemma {:induction false} DepositsAdd(v: Vault, pool: seq<Tx>, height: int, next: nat, amounts: seq<int64>)
    requires Unnumbered(PoolState(v, pool, height), next) && AllPositive(amounts)
    ensures var s, s' := PoolState(v, pool, height), PoolState(v, pool + Deps(next, amounts), height);
      && Free(s') == Wrapped(Free(s) + TotalOf(amounts)) && s'.cancelled == s.cancelled
      && forall n: Nonce | n.IntentId? :: n in s'.processed <==> n in s.processed
    decreases |amounts|
  {
    hide Free, Apply, PoolState, Wrapped;
    if amounts == [] {
      assert pool + Deps(next, amounts) == pool;
      assert Wrapped(Free(PoolState(v, pool, height)) + 0) == Free(PoolState(v, pool, height));
    } else {
      var s := PoolState(v, pool, height);
      var dep, rest := Deps(next, amounts)[0], amounts[1..];
      assert pool + Deps(next, amounts) == pool + [dep] + Deps(next + 1, rest);
      assert amounts[0] > 0 && AllPositive(rest);
      PoolStateSnoc(v, pool, dep, height);
      DepositAdds(s, dep, height);
      DepositsAdd(v, pool + [dep], height, next + 1, rest);
      WrapsOnce(Free(s) + amounts[0], TotalOf(rest));
      assert Free(s) + amounts[0] + TotalOf(rest) == Free(s) + TotalOf(amounts);
    }
  }

  // Funded by more deposits, the withdrawal is accepted as the last of the pool.
  lemma FundedAndPaid(v: Vault, pool: seq<Tx>, amounts: seq<int64>, tx: Tx, height: int, n: nat)
    requires AllUsedAs(pool, tx, n) && IsWithdrawal(tx) && height <= tx.expiry && AllPositive(amounts)
    requires Wrapped(Free(PoolState(v, pool, height)) + TotalOf(amounts)) >= tx.amount
    requires Unnumbered(PoolState(v, pool, height), n)
    requires tx.nonce !in PoolState(v, pool, height).processed && tx.nonce !in v.cancelled
    ensures Carries(Included(v, pool + Deps(n, amounts) + [tx], height), tx.nonce)
  {
    hide PoolState, Free, Apply, Wrapped;
    var funded := pool + Deps(n, amounts);
    NotCancelledEarly(v, pool, height, tx, n);
    DepositsAdd(v, pool, height, n, amounts);
    WithdrawAccepted(PoolState(v, funded, height), tx, height);
    PoolStateSnoc(v, funded, tx, height);
    var txs := Included(v, funded + [tx], height);
    assert txs[|txs| - 1] == tx;
  }

  lemma RunSteps(c: Chain, a: Action, rest: seq<Action>, tx: Tx)
    requires Enabled(c, a) && DisciplinedAction(c, a, tx)
    requires IsRun(Act(c, a), rest) && DisciplinedRun(Act(c, a), rest, tx)
    ensures IsRun(c, [a] + rest) && DisciplinedRun(c, [a] + rest, tx)
    ensures After(c, [a] + rest) == After(Act(c, a), rest)
  {
    assert ([a] + rest)[1..] == rest;
  }

  // The pool of the paying block: the rewound block's transactions, deposits, the withdrawal.
  lemma LandsWhenFunded(c: Chain, amounts: seq<int64>, tx: Tx)
    requires ChainInv(c) && Disciplined(c, tx) && IsWithdrawal(tx)
    requires Unpaid(c, tx) && !RefundSafe(c, tx)
    requires |c.pending| == 1 && c.head == c.finalHeight + 1 && AllPositive(amounts)
    requires Wrapped(Free(PoolState(c.final, TxsOf(c.pending), c.finalHeight + 1)) + TotalOf(amounts)) >= tx.amount
    ensures Carries(Included(c.final, TxsOf(c.pending) + Deps(c.nextDeposit, amounts) + [tx], c.finalHeight + 1),
        tx.nonce)
  {
    hide PoolState, Free, Wrapped, Included;
    PoolDisciplined(c, tx);
    NumbersAhead(c, tx);
    UnpaidInReplay(c, tx);
    FundedAndPaid(c.final, TxsOf(c.pending), amounts, tx, c.finalHeight + 1, c.nextDeposit);
  }

  lemma NumbersAhead(c: Chain, tx: Tx)
    requires ChainInv(c) && Disciplined(c, tx)
    ensures Unnumbered(PoolState(c.final, TxsOf(c.pending), c.finalHeight + 1), c.nextDeposit)
  {
    var pool := TxsOf(c.pending);
    PoolDisciplined(c, tx);
    hide ChainInv, PoolState;
    forall n: Nonce | n.DepositId? && n.number > c.nextDeposit
      ensures n !in PoolState(c.final, pool, c.finalHeight + 1).processed
      ensures n !in PoolState(c.final, pool, c.finalHeight + 1).cancelled
    {
      FinalNonces(c, tx, n);
      assert !Mentions(pool, n) by {
        Unmentioned(pool, tx, c.nextDeposit, n);
      }
      PoolStateNonces(c.final, pool, c.finalHeight + 1, n);
    }
  }

  lemma Unmentioned(pool: seq<Tx>, tx: Tx, next: nat, n: Nonce)
    requires AllUsedAs(pool, tx, next) && n.DepositId? && n.number > next
    ensures !Mentions(pool, n)
  {
  }

  lemma FinalDisciplined(c: Chain, tx: Tx)
    requires Disciplined(c, tx)
    ensures forall k | 0 <= k < |c.history| :: AllUsedAs(c.history[k].txs, tx, c.nextDeposit)
  {
    forall k | 0 <= k < |c.history| ensures AllUsedAs(c.history[k].txs, tx, c.nextDeposit) {
      assert Canon(c)[k] == c.history[k];
    }
  }

  lemma SubmitQueues(c: Chain, tx: Tx)
    requires TruthfulAbout(c, tx.nonce) && Unpaid(c, tx) && tx.nonce !in HeadState(c).cancelled
    requires tx.expiry == 0 || c.head <= tx.expiry
    ensures Act(c, DoSubmit(tx, Deliver)) == c.(mempool := c.mempool + [tx])
  {
  }

  // One more deposit changes nothing for the withdrawal.
  lemma Payer(c: Chain, tx: Tx, amount: int64)
    requires ChainInv(c) && Disciplined(c, tx) && IsWithdrawal(tx) && Unpaid(c, tx) &&
        tx.nonce !in HeadState(c).cancelled
    ensures var c1 := UserDeposit(c, "payer", amount);
      ChainInv(c1) && Disciplined(c1, tx) && Unpaid(c1, tx) && tx.nonce !in HeadState(c1).cancelled
  {
    EngineStep(c, DoDeposit("payer", amount), tx);
    assert Canon(UserDeposit(c, "payer", amount)) == Canon(c);
    hide Disciplined;
  }

  ghost function Funded(c: Chain, amounts: seq<int64>): Chain
    decreases |amounts|
  {
    if amounts == [] then c else Funded(UserDeposit(c, "payer", amounts[0]), amounts[1..])
  }

  lemma {:induction false} FundedIs(c: Chain, amounts: seq<int64>)
    ensures Funded(c, amounts) ==
            c.(mempool := c.mempool + Deps(c.nextDeposit, amounts), nextDeposit := c.nextDeposit + |amounts|)
    decreases |amounts|
  {
    if amounts == [] {
      assert c.mempool + [] == c.mempool;
    } else {
      var c1 := UserDeposit(c, "payer", amounts[0]);
      FundedIs(c1, amounts[1..]);
      var dep := Deps(c.nextDeposit, amounts)[0];
      assert c1.mempool == c.mempool + [dep];
      assert c.mempool + [dep] + Deps(c.nextDeposit + 1, amounts[1..]) == c.mempool + Deps(c.nextDeposit, amounts);
    }
  }

  // What can be done after the deposits can be done from here.
  lemma {:induction false} FundThen(c: Chain, amounts: seq<int64>, tx: Tx, tail: seq<Action>)
      returns (actions: seq<Action>)
    requires ChainInv(c) && Disciplined(c, tx) && IsWithdrawal(tx) && Unpaid(c, tx) &&
        tx.nonce !in HeadState(c).cancelled
    requires IsRun(Funded(c, amounts), tail) && DisciplinedRun(Funded(c, amounts), tail, tx)
    ensures IsRun(c, actions) && DisciplinedRun(c, actions, tx) && After(c, actions) == After(Funded(c, amounts), tail)
    decreases |amounts|
  {
    hide ChainInv, Disciplined, HeadState, Unpaid, IsRun, DisciplinedRun, After;
    if amounts == [] {
      actions := tail;
    } else {
      var a := DoDeposit("payer", amounts[0]);
      Payer(c, tx, amounts[0]);
      var rest := FundThen(Act(c, a), amounts[1..], tx, tail);
      RunSteps(c, a, rest, tx);
      actions := [a] + rest;
    }
  }

  lemma {:induction false} FundedKeeps(c: Chain, amounts: seq<int64>, tx: Tx)
    requires ChainInv(c) && Disciplined(c, tx) && IsWithdrawal(tx) && Unpaid(c, tx) &&
        tx.nonce !in HeadState(c).cancelled
    ensures var c1 := Funded(c, amounts);
      ChainInv(c1) && Disciplined(c1, tx) && Unpaid(c1, tx) && tx.nonce !in HeadState(c1).cancelled
    decreases |amounts|
  {
    hide ChainInv, Disciplined, HeadState, Unpaid;
    if amounts != [] {
      Payer(c, tx, amounts[0]);
      FundedKeeps(UserDeposit(c, "payer", amounts[0]), amounts[1..], tx);
    }
  }

  lemma TruthAbout(c: Chain, n: Nonce)
    requires ChainInv(c)
    ensures TruthfulAbout(c, n)
  {
  }

  // Deposits and the submission: what the calls leave behind.
  lemma FundAndSubmit(c: Chain, amounts: seq<int64>, tx: Tx) returns (c2: Chain)
    requires ChainInv(c) && Disciplined(c, tx) && IsWithdrawal(tx)
    requires Unpaid(c, tx) && tx.nonce !in HeadState(c).cancelled && c.head <= tx.expiry
    ensures c2 == Act(Funded(c, amounts), DoSubmit(tx, Deliver)) && ChainInv(c2) && Disciplined(c2, tx)
    ensures c2 == c.(mempool := c.mempool + Deps(c.nextDeposit, amounts) + [tx],
                     nextDeposit := c.nextDeposit + |amounts|)
  {
    hide ChainInv, Disciplined, HeadState, TruthfulAbout, SubmitTx, Unpaid;
    var c1 := Funded(c, amounts);
    FundedIs(c, amounts);
    FundedKeeps(c, amounts, tx);
    TruthAbout(c1, tx.nonce);
    SubmitQueues(c1, tx);
    c2 := Act(c1, DoSubmit(tx, Deliver));
    EngineStep(c1, DoSubmit(tx, Deliver), tx);
  }

  // On a chain that has just been rewound to finality, deposits, one submission and one more reorg pay
  // the withdrawal.
  lemma PayAfterRewind(c: Chain, tx: Tx) returns (actions: seq<Action>)
    requires ChainInv(c) && Disciplined(c, tx) && IsWithdrawal(tx)
    requires Unpaid(c, tx) && !RefundSafe(c, tx)
    requires |c.pending| == 1 && c.mempool == [] && c.head == c.finalHeight + 1
    requires tx.nonce !in HeadState(c).cancelled
    ensures IsRun(c, actions) && DisciplinedRun(c, actions, tx) && !Unpaid(After(c, actions), tx)
  {
    hide ChainInv, Disciplined, HeadState, Unpaid, Mine, SubmitTx, TxsOf, Included, PoolState, Free, Wrapped, Funded,
         IsRun, DisciplinedRun, After;
    assert c.head <= tx.expiry;
    hide RefundSafe;
    var amounts := ThreeDeposits(Free(PoolState(c.final, TxsOf(c.pending), c.finalHeight + 1)), tx.amount);
    var a2 := DoSubmit(tx, Deliver);
    var c2 := FundAndSubmit(c, amounts, tx);
    assert c.mempool + Deps(c.nextDeposit, amounts) + [tx] == Deps(c.nextDeposit, amounts) + [tx];
    var hash := FreshHash(c2.used);
    var c3 := RewindAndMine(c2, hash);
    var a3 := DoMine(1, TxsOf(c2.pending), hash);
    LandsWhenFunded(c, amounts, tx);
    assert TxsOf(c2.pending) + c2.mempool == TxsOf(c.pending) + Deps(c.nextDeposit, amounts) + [tx];
    PaidByNewBlock(c3, tx);
    TwoSteps(Funded(c, amounts), a2, a3, tx);
    actions := FundThen(c, amounts, tx, [a2] + [a3]);
  }

  lemma TwoSteps(c: Chain, a1: Action, a2: Action, tx: Tx)
    requires Enabled(c, a1) && Enabled(Act(c, a1), a2)
    requires DisciplinedAction(c, a1, tx) && DisciplinedAction(Act(c, a1), a2, tx)
    ensures var actions := [a1] + [a2];
      IsRun(c, actions) && DisciplinedRun(c, actions, tx) && After(c, actions) == Act(Act(c, a1), a2)
  {
    hide Act, Enabled, DisciplinedAction;
    LastStep(Act(c, a1), a2, tx);
    RunSteps(c, a1, [a2], tx);
  }

  lemma LastStep(c: Chain, a: Action, tx: Tx)
    requires Enabled(c, a) && DisciplinedAction(c, a, tx)
    ensures IsRun(c, [a]) && DisciplinedRun(c, [a], tx) && After(c, [a]) == Act(c, a)
  {
    assert IsRun(Act(c, a), []);
    RunSteps(c, a, [], tx);
    assert [a] + [] == [a];
  }

  lemma PaidByNewBlock(c: Chain, tx: Tx)
    requires |c.pending| == 1 && Carries(c.pending[0].txs, tx.nonce)
    ensures !Unpaid(c, tx)
  {
    assert Canon(c) == c.history + [c.pending[0]];
    SiteSnoc(c.history, c.pending[0], tx.nonce);
  }

  lemma PoolDisciplined(c: Chain, tx: Tx)
    requires Disciplined(c, tx)
    ensures AllUsedAs(TxsOf(c.pending), tx, c.nextDeposit)
  {
    forall k | 0 <= k < |c.pending| ensures AllUsedAs(c.pending[k].txs, tx, c.nextDeposit) {
      assert Canon(c)[|c.history| + k] == c.pending[k];
    }
    TxsOfUsedAs(c.pending, tx, c.nextDeposit);
  }

  lemma SinglePending(c: Chain)
    requires |c.pending| == 1
    ensures AllCalls(c.pending) == CallsAt(c.pending[0].txs, c.pending[0].height)
    ensures TxsOf(c.pending) == c.pending[0].txs
  {
    assert c.pending[..0] == [];
    assert AllCalls([]) == [] && TxsOf([]) == [];
  }

  // Replaying the single pending block as a pool accepts it again and does not process the nonce.
  lemma UnpaidInReplay(c: Chain, tx: Tx)
    requires ChainInv(c) && Unpaid(c, tx) && |c.pending| == 1 && c.head == c.finalHeight + 1
    ensures tx.nonce !in PoolState(c.final, TxsOf(c.pending), c.finalHeight + 1).processed
  {
    hide ChainInv, Site, Canon, Run, Accepted, Included, CallsAt, TxsOf;
    var b := c.pending[0];
    SingleAccepted(c);
    AcceptedAsPool(c.final, b.txs, b.height);
    PaidOrNot(c, tx.nonce);
  }

  lemma SingleAccepted(c: Chain)
    requires ChainInv(c) && |c.pending| == 1
    ensures var b := c.pending[0];
      && b.height == c.finalHeight + 1 && TxsOf(c.pending) == b.txs
      && Accepted(c.final, CallsAt(b.txs, b.height)) && HeadState(c) == Run(c.final, CallsAt(b.txs, b.height))
  {
    assert Canon(c)[|c.history|] == c.pending[0];
    hide Canon, Run, Accepted, CallsAt, TxsOf;
    HeadIsFullReplay(c);
    SinglePending(c);
  }

  lemma PaidOrNot(c: Chain, n: Nonce)
    requires ChainInv(c)
    ensures n in HeadState(c).processed <==> Site(Canon(c), n) >= 0
  {
    HeadKnows(c, n);
  }

  lemma {:induction false} AcceptedAsPool(v: Vault, txs: seq<Tx>, height: int)
    requires Accepted(v, CallsAt(txs, height))
    ensures Included(v, txs, height) == txs
    decreases |txs|
  {
    if txs != [] {
      var last := |txs| - 1;
      assert txs == txs[..last] + [txs[last]];
      CallsAtSnoc(txs[..last], txs[last], height);
      RunSnoc(v, CallsAt(txs[..last], height), Call(txs[last], height));
      AcceptedAsPool(v, txs[..last], height);
    }
  }

  lemma RewoundHeadRefusesCancel(c: Chain, c1: Chain, tx: Tx)
    requires ChainInv(c) && Disciplined(c, tx) && IsWithdrawal(tx) && !RefundSafe(c, tx)
    requires c1.final == c.final && |c1.pending| == 1 && c1.pending[0].height == c.finalHeight + 1
    requires c1.pending[0].txs == Included(c.final, TxsOf(c.pending) + c.mempool, c.finalHeight + 1)
    ensures tx.nonce !in HeadState(c1).cancelled
  {
    var pool := TxsOf(c.pending) + c.mempool;
    PoolDisciplined(c, tx);
    NotCancelledEarly(c.final, pool, c.finalHeight + 1, tx, c.nextDeposit);
    SinglePending(c1);
  }

  lemma UnsafeCanBePaid(c: Chain, tx: Tx) returns (actions: seq<Action>)
    requires ChainInv(c) && Disciplined(c, tx) && IsWithdrawal(tx) && Unpaid(c, tx) && !RefundSafe(c, tx)
    ensures IsRun(c, actions) && DisciplinedRun(c, actions, tx) && !Unpaid(After(c, actions), tx)
  {
    var hash := FreshHash(c.used);
    var c1 := RewindAndMine(c, hash);
    var a := DoMine(|c.pending|, TxsOf(c.pending), hash);
    if !Unpaid(c1, tx) {
      LastStep(c, a, tx);
      return [a];
    }
    MineDisciplined(c, a.depth, a.shuffled, hash, tx);
    RewoundHeadRefusesCancel(c, c1, tx);
    var rest := PayAfterRewind(c1, tx);
    RunSteps(c, a, rest, tx);
    return [a] + rest;
  }

  // The exact condition: an unpaid withdrawal can never be paid, whatever the chain does next, if
  // and only if finality has reached its expiry height or its cancellation is itself final.
  lemma RefundSafetyIsExact(c: Chain, tx: Tx)
    requires ChainInv(c) && Disciplined(c, tx) && IsWithdrawal(tx) && Unpaid(c, tx)
    ensures NeverPaid(c, tx) <==> RefundSafe(c, tx)
  {
    if RefundSafe(c, tx) {
      forall actions | IsRun(c, actions) && DisciplinedRun(c, actions, tx) ensures Unpaid(After(c, actions), tx) {
        SafeForever(c, actions, tx);
      }
    } else {
      var actions := UnsafeCanBePaid(c, tx);
    }
  }

  // Waiting until head is `confirms` blocks past the expiry is enough: the withdrawal is never paid.
  lemma WaitingForFinalityIsSafe(c: Chain, tx: Tx)
    requires ChainInv(c) && Disciplined(c, tx) && IsWithdrawal(tx) && Unpaid(c, tx)
    requires |c.pending| <= c.confirms && c.head >= tx.expiry + c.confirms
    ensures NeverPaid(c, tx)
  {
    RefundSafetyIsExact(c, tx);
    hide NeverPaid, Disciplined;
    assert RefundSafe(c, tx);
  }

  /* ----- the engine's own test is weaker ----- */

  // What the resolver checks before it refunds a withdrawal that has not landed.
  ghost predicate EngineRefunds(c: Chain, tx: Tx)
  {
    c.head > tx.expiry && IsExpired(c, tx.nonce)
  }

  lemma {:induction false} NoCalls(blocks: seq<Block>)
    requires forall k | 0 <= k < |blocks| :: blocks[k].txs == []
    ensures AllCalls(blocks) == []
    decreases |blocks|
  {
    if blocks != [] {
      NoCalls(blocks[..|blocks| - 1]);
    }
  }

  lemma EngineStep(c: Chain, a: Action, tx: Tx)
    requires ChainInv(c) && Enabled(c, a) && Disciplined(c, tx) && DisciplinedAction(c, a, tx) && tx.nonce.IntentId?
    ensures ChainInv(Act(c, a)) && Disciplined(Act(c, a), tx)
  {
    ActKeeps(c, a);
    ActDisciplined(c, a, tx);
  }
}
