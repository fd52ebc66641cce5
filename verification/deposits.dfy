/** Deposits survive everything the chain does to them: each one issued is at all times in
    exactly one of the mempool, the pending blocks and the finalised history. */
module Deposits {
  import opened Integers
  import opened GoVault
  import opened ChainModel
  import opened ChainBlocks
  import opened ChainInvariants

  // The total weight of a list of transactions; counts and amounts are two such weights.
  ghost function Weight(txs: seq<Tx>, w: Tx -> int): int
  {
    if txs == [] then 0 else Weight(txs[..|txs| - 1], w) + w(txs[|txs| - 1])
  }

  predicate IsDeposit(t: Tx)
  {
    t.kind == Deposit && t.amount > 0 && t.expiry == 0
  }

  // A weight that only deposits the contract can accept contribute to.
  ghost predicate WeighsDeposits(w: Tx -> int)
  {
    forall t: Tx :: !IsDeposit(t) ==> w(t) == 0
  }

  lemma WeightSnoc(txs: seq<Tx>, t: Tx, w: Tx -> int)
    ensures Weight(txs + [t], w) == Weight(txs, w) + w(t)
  {
    assert (txs + [t])[..|txs|] == txs;
  }

  lemma {:induction false} WeightConcat(a: seq<Tx>, b: seq<Tx>, w: Tx -> int)
    ensures Weight(a + b, w) == Weight(a, w) + Weight(b, w)
    decreases |b|
  {
    if b == [] {
      assert a + b == a;
    } else {
      var last := |b| - 1;
      WeightConcat(a, b[..last], w);
      assert a + b == a + b[..last] + [b[last]];
      WeightSnoc(a + b[..last], b[last], w);
    }
  }

  // Shuffling changes no weight.
  lemma {:induction false} WeightPermuted(a: seq<Tx>, b: seq<Tx>, w: Tx -> int)
    requires multiset(a) == multiset(b)
    ensures Weight(a, w) == Weight(b, w)
    decreases |a|
  {
    if a == [] {
      assert |multiset(b)| == 0;
    } else {
      var last := |a| - 1;
      var x := a[last];
      assert x in multiset(b);
      var j :| 0 <= j < |b| && b[j] == x;
      assert a == a[..last] + [x];
      assert b == b[..j] + [x] + b[j + 1..];
      var b' := b[..j] + b[j + 1..];
      assert multiset(a[..last]) == multiset(a) - multiset{x};
      assert multiset(b') == multiset(b) - multiset{x};
      WeightPermuted(a[..last], b', w);
      WeightConcat(b[..j] + [x], b[j + 1..], w);
      WeightConcat(b[..j], b[j + 1..], w);
      WeightSnoc(b[..j], x, w);
    }
  }

  lemma TxsOfSnoc(blocks: seq<Block>, b: Block)
    ensures TxsOf(blocks + [b]) == TxsOf(blocks) + b.txs
  {
    assert (blocks + [b])[..|blocks|] == blocks;
  }

  lemma {:induction false} TxsOfConcat(a: seq<Block>, b: seq<Block>)
    ensures TxsOf(a + b) == TxsOf(a) + TxsOf(b)
    decreases |b|
  {
    if b == [] {
      assert a + b == a;
    } else {
      var last := |b| - 1;
      TxsOfConcat(a, b[..last]);
      assert a + b == a + b[..last] + [b[last]];
      TxsOfSnoc(a + b[..last], b[last]);
      assert TxsOf(b) == TxsOf(b[..last]) + b[last].txs;
    }
  }

  // Everything the chain holds, wherever it is.
  ghost function Held(c: Chain): seq<Tx>
  {
    c.mempool + TxsOf(Canon(c))
  }

  ghost function Bears(n: Nonce): Tx -> int
  {
    (t: Tx) => if t.nonce == n then 1 else 0
  }

  // Deposit ids are used once each, by deposits only.
  ghost predicate Ordered(c: Chain)
  {
    && (forall t | t in Held(c) && t.nonce.DepositId? :: t.kind == Deposit && t.nonce.number <= c.nextDeposit)
    && (forall n: Nonce | n.DepositId? :: Weight(Held(c), Bears(n)) <= 1)
  }

  lemma {:induction false} BearsCounts(txs: seq<Tx>, i: nat)
    requires i < |txs|
    ensures Weight(txs, Bears(txs[i].nonce)) >= 1
    decreases |txs|
  {
    var last := |txs| - 1;
    BearsNonNegative(txs[..last], txs[i].nonce);
    if i < last {
      assert txs[..last][i] == txs[i];
      BearsCounts(txs[..last], i);
    }
  }

  lemma {:induction false} BearsNonNegative(txs: seq<Tx>, n: Nonce)
    ensures Weight(txs, Bears(n)) >= 0
    ensures Weight(txs, Bears(n)) == 0 <==> forall t | t in txs :: t.nonce != n
    decreases |txs|
  {
    if txs != [] {
      var last := |txs| - 1;
      BearsNonNegative(txs[..last], n);
      assert txs == txs[..last] + [txs[last]];
    }
  }

  // The pool's deposits are new to the executing state.
  ghost predicate FreshPool(v: Vault, pool: seq<Tx>)
  {
    forall t | t in pool && t.nonce.DepositId? ::
      t.kind == Deposit && t.nonce !in v.processed && t.nonce !in v.cancelled && Weight(pool, Bears(t.nonce)) <= 1
  }

  // A deposit is accepted the first time its id is executed.
  lemma {:induction false} PoolLeavesOthers(v: Vault, pool: seq<Tx>, height: int, n: Nonce)
    requires n !in v.processed && n !in v.cancelled && forall t | t in pool :: t.nonce != n
    ensures n !in PoolState(v, pool, height).processed && n !in PoolState(v, pool, height).cancelled
    decreases |pool|
  {
    if pool != [] {
      var last := |pool| - 1;
      assert pool == pool[..last] + [pool[last]];
      PoolLeavesOthers(v, pool[..last], height, n);
      PoolStateSnoc(v, pool[..last], pool[last], height);
      ApplyNonces(PoolState(v, pool[..last], height), pool[last], height);
    }
  }

  lemma FreshPrefix(v: Vault, pool: seq<Tx>)
    requires FreshPool(v, pool) && pool != []
    ensures FreshPool(v, pool[..|pool| - 1])
    ensures pool[|pool| - 1].nonce.DepositId? ==> forall t | t in pool[..|pool| - 1] ::
        t.nonce != pool[|pool| - 1].nonce
  {
    var last := |pool| - 1;
    assert pool == pool[..last] + [pool[last]];
    forall n: Nonce ensures Weight(pool[..last], Bears(n)) <= Weight(pool, Bears(n)) {
      WeightSnoc(pool[..last], pool[last], Bears(n));
    }
    if pool[last].nonce.DepositId? {
      WeightSnoc(pool[..last], pool[last], Bears(pool[last].nonce));
      BearsNonNegative(pool[..last], pool[last].nonce);
    }
  }

  lemma DepositApplies(v: Vault, t: Tx, height: int)
    requires IsDeposit(t) && t.nonce !in v.processed && t.nonce !in v.cancelled
    ensures Apply(v, t, height).ok
  {
  }

  // Mining drops no deposit: the block's weight is the pool's weight.
  lemma {:induction false} NoDepositDropped(v: Vault, pool: seq<Tx>, height: int, w: Tx -> int)
    requires FreshPool(v, pool) && WeighsDeposits(w)
    requires forall t | t in pool && t.kind == Deposit :: t.nonce.DepositId?
    ensures Weight(Included(v, pool, height), w) == Weight(pool, w)
    decreases |pool|
  {
    if pool != [] {
      var last := |pool| - 1;
      var t := pool[last];
      assert pool == pool[..last] + [t];
      FreshPrefix(v, pool);
      NoDepositDropped(v, pool[..last], height, w);
      PoolStateSnoc(v, pool[..last], t, height);
      if IsDeposit(t) {
        PoolLeavesOthers(v, pool[..last], height, t.nonce);
        DepositApplies(PoolState(v, pool[..last], height), t, height);
      }
      WeightSnoc(Included(v, pool[..last], height), t, w);
    }
  }

  // Including transactions never duplicates an id.
  lemma {:induction false} IncludedBears(v: Vault, pool: seq<Tx>, height: int, n: Nonce)
    ensures Weight(Included(v, pool, height), Bears(n)) <= Weight(pool, Bears(n))
    decreases |pool|
  {
    if pool != [] {
      var last := |pool| - 1;
      assert pool == pool[..last] + [pool[last]];
      IncludedBears(v, pool[..last], height, n);
      PoolStateSnoc(v, pool[..last], pool[last], height);
      WeightSnoc(Included(v, pool[..last], height), pool[last], Bears(n));
    }
  }

  /* ----- each call conserves ----- */

  ghost function HeldWeight(c: Chain, w: Tx -> int): int
  {
    Weight(c.mempool, w) + Weight(TxsOf(c.pending), w) + Weight(TxsOf(c.history), w)
  }

  lemma HeldWeightIs(c: Chain, w: Tx -> int)
    ensures HeldWeight(c, w) == Weight(Held(c), w) == Weight(c.mempool, w) + Weight(TxsOf(Canon(c)), w)
  {
    TxsOfConcat(c.history, c.pending);
    WeightConcat(TxsOf(c.history), TxsOf(c.pending), w);
    WeightConcat(c.mempool, TxsOf(Canon(c)), w);
  }

  lemma ReorgConserves(c: Chain, depth: nat, shuffled: seq<Tx>, w: Tx -> int)
    requires CanReorg(c, depth, shuffled)
    ensures HeldWeight(Reorg(c, depth, shuffled), w) == HeldWeight(c, w)
  {
    var keep := |c.pending| - depth;
    assert c.pending == c.pending[..keep] + c.pending[keep..];
    TxsOfConcat(c.pending[..keep], c.pending[keep..]);
    WeightConcat(TxsOf(c.pending[..keep]), TxsOf(c.pending[keep..]), w);
    WeightPermuted(shuffled, TxsOf(c.pending[keep..]), w);
    WeightConcat(shuffled, c.mempool, w);
  }

  lemma ReorgHolds(c: Chain, depth: nat, shuffled: seq<Tx>, t: Tx)
    requires CanReorg(c, depth, shuffled) && t in Held(Reorg(c, depth, shuffled))
    ensures t in Held(c)
  {
    var keep := |c.pending| - depth;
    var c' := Reorg(c, depth, shuffled);
    assert c.pending == c.pending[..keep] + c.pending[keep..];
    TxsOfConcat(c.pending[..keep], c.pending[keep..]);
    TxsOfConcat(c.history, c.pending);
    TxsOfConcat(c.history, c.pending[..keep]);
    if t in shuffled {
      assert t in multiset(shuffled);
      assert t in TxsOf(c.pending[keep..]);
    }
  }

  lemma ReorgOrdered(c: Chain, depth: nat, shuffled: seq<Tx>)
    requires CanReorg(c, depth, shuffled) && Ordered(c)
    ensures Ordered(Reorg(c, depth, shuffled))
  {
    var c' := Reorg(c, depth, shuffled);
    forall t | t in Held(c') ensures t in Held(c) {
      ReorgHolds(c, depth, shuffled, t);
    }
    forall n: Nonce | n.DepositId? ensures Weight(Held(c'), Bears(n)) <= 1 {
      ReorgConserves(c, depth, shuffled, Bears(n));
      HeldWeightIs(c, Bears(n));
      HeldWeightIs(c', Bears(n));
    }
  }

  // The pool of an ordered chain is fresh for its head state.
  lemma OrderedPoolIsFresh(c: Chain)
    requires Replayed(c) && Ordered(c)
    ensures FreshPool(HeadState(c), c.mempool)
  {
    forall t | t in c.mempool && t.nonce.DepositId?
      ensures t.kind == Deposit && Weight(c.mempool, Bears(t.nonce)) <= 1
      ensures t.nonce !in HeadState(c).processed && t.nonce !in HeadState(c).cancelled
    {
      var n := t.nonce;
      assert t in Held(c);
      HeldWeightIs(c, Bears(n));
      var i :| 0 <= i < |c.mempool| && c.mempool[i] == t;
      BearsCounts(c.mempool, i);
      BearsNonNegative(TxsOf(Canon(c)), n);
      HeadIsFullReplay(c);
      HistoryDecides(AllCalls(Canon(c)), n);
      LandedOrRefused(Canon(c), n);
    }
  }

  lemma BlockFromPool(c: Chain, hash: Hash, t: Tx)
    requires t in NextBlock(c, hash).txs
    ensures t in c.mempool
  {
    var txs := NextBlock(c, hash).txs;
    var i :| 0 <= i < |txs| && txs[i] == t;
    IncludedFromPool(HeadState(c), c.mempool, c.head + 1, i);
  }

  lemma AddBlockHolds(c: Chain, hash: Hash)
    ensures TxsOf(Canon(AddBlock(c, hash))) == TxsOf(Canon(c)) + NextBlock(c, hash).txs
    ensures TxsOf(AddBlock(c, hash).pending) == TxsOf(c.pending) + NextBlock(c, hash).txs
    ensures forall t | t in NextBlock(c, hash).txs :: t in c.mempool
  {
    forall t | t in NextBlock(c, hash).txs ensures t in c.mempool {
      BlockFromPool(c, hash, t);
    }
    AddBlockCanon(c, hash);
    var b := NextBlock(c, hash);
    assert AddBlock(c, hash).pending == c.pending + [b];
    hide NextBlock, AddBlock;
    TxsOfSnoc(Canon(c), b);
    TxsOfSnoc(c.pending, b);
  }

  // Every deposit the chain holds carries a deposit id.
  ghost predicate DepositsNumbered(c: Chain)
  {
    forall t | t in Held(c) && t.kind == Deposit :: t.nonce.DepositId?
  }

  lemma AddBlockWeight(c: Chain, hash: Hash, w: Tx -> int)
    ensures HeldWeight(AddBlock(c, hash), w)
            == Weight(NextBlock(c, hash).txs, w) + Weight(TxsOf(c.pending), w) + Weight(TxsOf(c.history), w)
  {
    AddBlockHolds(c, hash);
    WeightConcat(TxsOf(c.pending), NextBlock(c, hash).txs, w);
  }

  lemma PoolIsNumbered(c: Chain)
    requires DepositsNumbered(c)
    ensures forall t | t in c.mempool && t.kind == Deposit :: t.nonce.DepositId?
  {
    forall t | t in c.mempool && t.kind == Deposit ensures t.nonce.DepositId? {
      assert t in Held(c);
    }
  }

  lemma AddBlockConserves(c: Chain, hash: Hash, w: Tx -> int)
    requires Replayed(c) && Ordered(c) && DepositsNumbered(c) && WeighsDeposits(w)
    ensures HeldWeight(AddBlock(c, hash), w) == HeldWeight(c, w)
  {
    hide Replayed, Ordered, DepositsNumbered, WeighsDeposits, FreshPool, AddBlock, HeadState, Weight, Included, TxsOf,
         Canon;
    AddBlockWeight(c, hash, w);
    OrderedPoolIsFresh(c);
    PoolIsNumbered(c);
    NoDepositDropped(HeadState(c), c.mempool, c.head + 1, w);
  }

  lemma AddBlockBears(c: Chain, hash: Hash, n: Nonce)
    requires Weight(Held(c), Bears(n)) <= 1
    ensures Weight(Held(AddBlock(c, hash)), Bears(n)) <= 1
  {
    HeldWeightIs(c, Bears(n));
    HeldWeightIs(AddBlock(c, hash), Bears(n));
    AddBlockWeight(c, hash, Bears(n));
    IncludedBears(HeadState(c), c.mempool, c.head + 1, n);
    hide AddBlock, Held, Weight, HeadState, Included;
  }

  lemma AddBlockOrdered(c: Chain, hash: Hash)
    requires Ordered(c)
    ensures Ordered(AddBlock(c, hash))
  {
    var c' := AddBlock(c, hash);
    forall t | t in Held(c') ensures t in Held(c) {
      AddBlockHolds(c, hash);
    }
    forall n: Nonce | n.DepositId? ensures Weight(Held(c'), Bears(n)) <= 1 {
      AddBlockBears(c, hash, n);
    }
  }

  lemma {:induction false} FinaliseAllConserves(c: Chain, w: Tx -> int)
    ensures HeldWeight(FinaliseAll(c), w) == HeldWeight(c, w)
    ensures Held(FinaliseAll(c)) == Held(c) && FinaliseAll(c).nextDeposit == c.nextDeposit
    decreases |c.pending|
  {
    if |c.pending| > c.confirms {
      var c' := FinaliseOne(c);
      FinaliseCanon(c);
      FinaliseAllConserves(c', w);
      HeldWeightIs(c, w);
      HeldWeightIs(c', w);
    }
  }

  ghost predicate Tidy(c: Chain)
  {
    ChainInv(c) && Ordered(c) && DepositsNumbered(c)
  }

  lemma ReorgTidy(c: Chain, depth: nat, shuffled: seq<Tx>)
    requires Tidy(c) && CanReorg(c, depth, shuffled)
    ensures Tidy(Reorg(c, depth, shuffled))
  {
    ReorgKeeps(c, depth, shuffled);
    ReorgOrdered(c, depth, shuffled);
    hide ChainInv, Ordered, Reorg;
    forall t | t in Held(Reorg(c, depth, shuffled)) ensures t in Held(c) {
      ReorgHolds(c, depth, shuffled, t);
    }
  }

  lemma AddBlockTidy(c: Chain, hash: Hash)
    requires Tidy(c) && hash !in c.used
    ensures Tidy(AddBlock(c, hash))
  {
    AddBlockKeeps(c, hash);
    AddBlockOrdered(c, hash);
    AddBlockHolds(c, hash);
    hide ChainInv, Ordered;
  }

  lemma FinaliseTidy(c: Chain, w: Tx -> int)
    requires Tidy(c)
    ensures Tidy(FinaliseAll(c)) && HeldWeight(FinaliseAll(c), w) == HeldWeight(c, w)
  {
    FinaliseAllKeeps(c);
    FinaliseAllConserves(c, w);
    OrderedByHeld(c, FinaliseAll(c));
    hide ChainInv, Ordered;
  }

  lemma MineConserves(c: Chain, depth: nat, shuffled: seq<Tx>, hash: Hash, w: Tx -> int)
    requires Tidy(c) && CanMine(c, depth, shuffled, hash) && WeighsDeposits(w)
    ensures Tidy(Mine(c, depth, shuffled, hash))
    ensures HeldWeight(Mine(c, depth, shuffled, hash), w) == HeldWeight(c, w)
  {
    hide ChainInv, Ordered, DepositsNumbered, WeighsDeposits, HeldWeight, Reorg, AddBlock, Replayed, TxsOf;
    var c1 := if depth > 0 then Reorg(c, depth, shuffled) else c;
    if depth > 0 {
      ReorgTidy(c, depth, shuffled);
      ReorgConserves(c, depth, shuffled, w);
      ReorgMints(c, depth, shuffled);
    }
    TidyReplays(c1);
    AddBlockConserves(c1, hash, w);
    AddBlockTidy(c1, hash);
    FinaliseTidy(AddBlock(c1, hash), w);
  }

  lemma TidyReplays(c: Chain)
    requires Tidy(c)
    ensures Replayed(c)
  {
  }

  lemma ReorgMints(c: Chain, depth: nat, shuffled: seq<Tx>)
    requires CanReorg(c, depth, shuffled)
    ensures Reorg(c, depth, shuffled).used == c.used && 1 <= depth <= |c.pending|
  {
  }

  lemma OrderedByHeld(c: Chain, c': Chain)
    requires Ordered(c) && Held(c') == Held(c) && c'.nextDeposit == c.nextDeposit
    ensures Ordered(c')
  {
  }

  // Callers issue deposits only through `Deposit`, and cancel only intents.
  ghost predicate CallerAction(a: Action)
  {
    match a
    case DoSubmit(tx, _) => tx.nonce.IntentId? && tx.kind != Deposit
    case DoCancel(n, _) => n.IntentId?
    case _ => true
  }

  ghost function IssuedBy(c: Chain, a: Action, w: Tx -> int): int
  {
    if a.DoDeposit? then w(Tx(DepositId(c.nextDeposit + 1), Deposit, a.user, a.amount, "", 0, 0, 0)) else 0
  }

  lemma PoolAppendBears(c: Chain, c': Chain, t: Tx, n: Nonce)
    requires c' == c.(mempool := c.mempool + [t], nextDeposit := c'.nextDeposit)
    requires n != t.nonce || forall h | h in Held(c) :: h.nonce != n
    requires Weight(Held(c), Bears(n)) <= 1
    ensures Weight(Held(c'), Bears(n)) <= 1
  {
    HeldWeightIs(c, Bears(n));
    HeldWeightIs(c', Bears(n));
    WeightSnoc(c.mempool, t, Bears(n));
    BearsNonNegative(Held(c), n);
  }

  lemma PoolAppendTidy(c: Chain, t: Tx, next: nat, w: Tx -> int)
    requires Tidy(c) && next >= c.nextDeposit
    requires if t.kind == Deposit then t.nonce == DepositId(c.nextDeposit + 1) && next == c.nextDeposit + 1
        else t.nonce.IntentId?
    ensures var c' := c.(mempool := c.mempool + [t], nextDeposit := next);
      Tidy(c') && HeldWeight(c', w) == HeldWeight(c, w) + w(t)
  {
    var c' := c.(mempool := c.mempool + [t], nextDeposit := next);
    PoolOnly(c, c');
    WeightSnoc(c.mempool, t, w);
    forall h | h in Held(c') ensures h in Held(c) || h == t {}
    forall n: Nonce | n.DepositId? ensures Weight(Held(c'), Bears(n)) <= 1 {
      PoolAppendBears(c, c', t, n);
    }
  }

  lemma SubmitConserves(c: Chain, tx: Tx, fate: Fate, w: Tx -> int)
    requires Tidy(c) && tx.nonce.IntentId? && tx.kind != Deposit && WeighsDeposits(w)
    ensures var c' := SubmitTx(c, tx, fate).0;
      Tidy(c') && HeldWeight(c', w) == HeldWeight(c, w)
  {
    hide Tidy, HeldWeight, HeadState;
    PoolAppendTidy(c, tx, c.nextDeposit, w);
    assert w(tx) == 0;
    hide WeighsDeposits;
  }

  lemma CancelConserves(c: Chain, n: Nonce, expiry: int64, w: Tx -> int)
    requires Tidy(c) && n.IntentId? && WeighsDeposits(w)
    ensures var c' := CancelNonce(c, n, expiry).0;
      Tidy(c') && HeldWeight(c', w) == HeldWeight(c, w)
  {
    hide Tidy, HeldWeight, HeadState;
    PoolAppendTidy(c, CancelTx(n, expiry), c.nextDeposit, w);
    assert w(CancelTx(n, expiry)) == 0;
    hide WeighsDeposits;
  }

  lemma ActConserves(c: Chain, a: Action, w: Tx -> int)
    requires Tidy(c) && Enabled(c, a) && CallerAction(a) && WeighsDeposits(w)
    ensures Tidy(Act(c, a)) && HeldWeight(Act(c, a), w) == HeldWeight(c, w) + IssuedBy(c, a, w)
  {
    hide Tidy, HeldWeight, WeighsDeposits, Mine, SubmitTx, CancelNonce;
    match a {
      case DoMine(depth, shuffled, hash) => MineConserves(c, depth, shuffled, hash, w);
      case DoDeposit(user, amount) =>
        PoolAppendTidy(c, Tx(DepositId(c.nextDeposit + 1), Deposit, user, amount, "", 0, 0, 0), c.nextDeposit + 1, w);
      case DoSubmit(tx, fate) => SubmitConserves(c, tx, fate, w);
      case DoCancel(n, expiry) => CancelConserves(c, n, expiry, w);
      case DoSetConfirms(confirms) => SetConfirmsConserves(c, confirms, w);
    }
  }

  lemma SetConfirmsConserves(c: Chain, confirms: int, w: Tx -> int)
    requires Tidy(c)
    ensures var c' := SetConfirms(c, confirms);
      Tidy(c') && HeldWeight(c', w) == HeldWeight(c, w)
  {
    var c' := SetConfirms(c, confirms);
    PoolOnly(c, c');
    assert Held(c') == Held(c);
  }

  ghost predicate CallerRun(actions: seq<Action>)
  {
    forall i | 0 <= i < |actions| :: CallerAction(actions[i])
  }

  ghost function Issued(c: Chain, actions: seq<Action>, w: Tx -> int): int
    requires IsRun(c, actions)
    decreases |actions|
  {
    if actions == [] then 0 else IssuedBy(c, actions[0], w) + Issued(Act(c, actions[0]), actions[1..], w)
  }

  // For every weight on deposits, what was issued during a run is what the mempool, the pending
  // blocks and the finalised history hold together, reorgs or not.
  lemma {:induction false} DepositsConserved(c: Chain, actions: seq<Action>, w: Tx -> int)
    requires Tidy(c) && IsRun(c, actions) && CallerRun(actions) && WeighsDeposits(w)
    ensures Tidy(After(c, actions))
    ensures HeldWeight(After(c, actions), w) == HeldWeight(c, w) + Issued(c, actions, w)
    decreases |actions|
  {
    if actions != [] {
      ActConserves(c, actions[0], w);
      DepositsConserved(Act(c, actions[0]), actions[1..], w);
    }
  }

  lemma {:induction false} WeightAtMost(txs: seq<Tx>, w: Tx -> int, n: Nonce)
    requires forall t :: w(t) <= Bears(n)(t)
    ensures Weight(txs, w) <= Weight(txs, Bears(n))
    decreases |txs|
  {
    if txs != [] {
      WeightAtMost(txs[..|txs| - 1], w, n);
    }
  }

  lemma {:induction false} WeightOfNone(txs: seq<Tx>, w: Tx -> int)
    requires forall t | t in txs :: w(t) == 0
    ensures Weight(txs, w) == 0
    decreases |txs|
  {
    if txs != [] {
      assert txs == txs[..|txs| - 1] + [txs[|txs| - 1]];
      WeightOfNone(txs[..|txs| - 1], w);
    }
  }

  // One for each copy of a good deposit under the given id.
  ghost function Copies(n: Nonce): Tx -> int
  {
    (t: Tx) => if IsDeposit(t) && t.nonce == n then 1 else 0
  }

  ghost function AmountOf(): Tx -> int
  {
    (t: Tx) => if IsDeposit(t) then t.amount as int else 0
  }

  lemma CopiesAtMostOne(c: Chain, n: Nonce)
    requires Tidy(c)
    ensures HeldWeight(c, Copies(n)) <= 1
  {
    HeldWeightIs(c, Copies(n));
    if n.DepositId? {
      WeightAtMost(Held(c), Copies(n), n);
    } else {
      WeightOfNone(Held(c), Copies(n));
    }
  }

  // From genesis: an issued deposit of a positive amount sits in exactly one of the three
  // places, an id that was not issued in none, and the issued total is the sum of the three.
  lemma DepositInExactlyOnePlace(confirms: int, actions: seq<Action>, n: Nonce)
    requires IsRun(Genesis(confirms), actions) && CallerRun(actions)
    ensures var c := After(Genesis(confirms), actions);
      HeldWeight(c, Copies(n)) == Issued(Genesis(confirms), actions, Copies(n)) <= 1 &&
      HeldWeight(c, AmountOf()) == Issued(Genesis(confirms), actions, AmountOf())
  {
    hide Tidy, HeldWeight, Act, Weight;
    var c := After(Genesis(confirms), actions);
    GenesisTidy(confirms);
    DepositsConserved(Genesis(confirms), actions, Copies(n));
    DepositsConserved(Genesis(confirms), actions, AmountOf());
    CopiesAtMostOne(c, n);
  }

  lemma GenesisTidy(confirms: int)
    ensures Tidy(Genesis(confirms))
    ensures forall w :: HeldWeight(Genesis(confirms), w) == 0
  {
    GenesisSound(confirms);
    assert Held(Genesis(confirms)) == [];
  }
}
