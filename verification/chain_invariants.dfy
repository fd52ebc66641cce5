/** What every simulator call keeps: heights stay contiguous, the cached final state is a full
    replay, the truthful tier is truthful, and the event log tells orphans from live events. */
module ChainInvariants {
  import opened Integers
  import opened GoVault
  import opened ChainModel
  import opened ChainBlocks

  // Block heights are contiguous from 1, and `hashAt` is exactly the current chain.
  ghost predicate Shaped(c: Chain)
  {
    && c.confirms >= 1
    && c.finalHeight == |c.history|
    && c.head == |c.history| + |c.pending|
    && (forall i | 0 <= i < |Canon(c)| :: Canon(c)[i].height == i + 1)
    && (forall h :: h in c.hashAt <==> 1 <= h <= c.head)
    && (forall i | 0 <= i < |Canon(c)| :: c.hashAt[i + 1] == Canon(c)[i].hash)
  }

  // The cached final state is the replay of all finalised blocks, and every transaction
  // stored in a canonical block is accepted again by the replay.
  ghost predicate Replayed(c: Chain)
  {
    && Accepted(EMPTY, AllCalls(Canon(c)))
    && c.final == Run(EMPTY, AllCalls(c.history))
  }

  ghost predicate TruthfulAbout(c: Chain, n: Nonce)
  {
    var site := Site(Canon(c), n);
    var status := TxStatus(c, n);
    && -1 <= site < |Canon(c)|
    && (status.processed <==> site >= 0)
    && (status.processed ==> status.height == site + 1 && status.hash == Canon(c)[site].hash)
    && (status.finalized <==> 0 <= site < |c.history|)
  }

  // A receipt is processed exactly when the nonce landed in a canonical block, carries that
  // block's height and hash, and is final exactly when the block is.
  ghost predicate Truthful(c: Chain)
  {
    forall n :: TruthfulAbout(c, n)
  }

  ghost predicate Hashed(c: Chain)
  {
    && (forall i, j | 0 <= i < j < |Canon(c)| :: Canon(c)[i].hash != Canon(c)[j].hash)
    && (forall i | 0 <= i < |Canon(c)| :: Canon(c)[i].hash in c.used)
    && (forall i | 0 <= i < |c.log| :: c.log[i].hash in c.used)
  }

  ghost predicate LoggedBlock(log: seq<Event>, b: Block)
  {
    && |b.log| == |b.txs|
    && (forall j | 0 <= j < |b.log| :: b.log[j] < |log|)
    && (forall j | 0 <= j < |b.log| :: log[b.log[j]] == EventOf(b.log[j] + 1, b.txs[j], b.height, b.hash))
    && (forall i | 0 <= i < |log| && log[i].hash == b.hash :: i in b.log)
  }

  ghost predicate HashLive(blocks: seq<Block>, hash: Hash)
  {
    exists k | 0 <= k < |blocks| :: blocks[k].hash == hash
  }

  // Sequence numbers are contiguous; a canonical block's events are exactly the ones its log
  // lists; an event is marked orphaned exactly when its block is no longer canonical.
  ghost predicate Logged(c: Chain)
  {
    && (forall i | 0 <= i < |c.log| :: c.log[i].number == i + 1)
    && (forall k | 0 <= k < |Canon(c)| :: LoggedBlock(c.log, Canon(c)[k]))
    && (forall i | 0 <= i < |c.log| :: c.log[i].kind == Orphaned <==> !HashLive(Canon(c), c.log[i].hash))
  }

  ghost predicate ChainInv(c: Chain)
  {
    Shaped(c) && Replayed(c) && Truthful(c) && Hashed(c) && Logged(c)
  }

  /* ----- consequences of the replay invariant ----- */

  // The executing state is the replay of the whole canonical chain.
  lemma HeadIsFullReplay(c: Chain)
    requires Replayed(c)
    ensures HeadState(c) == Run(EMPTY, AllCalls(Canon(c)))
    ensures Accepted(EMPTY, AllCalls(c.history)) && Accepted(c.final, AllCalls(c.pending))
  {
    AllCallsConcat(c.history, c.pending);
    RunConcat(EMPTY, AllCalls(c.history), AllCalls(c.pending));
  }

  lemma HeadKnows(c: Chain, n: Nonce)
    requires Replayed(c)
    ensures n in HeadState(c).processed <==> Site(Canon(c), n) >= 0
    ensures !(n in HeadState(c).processed && n in HeadState(c).cancelled)
  {
    HeadIsFullReplay(c);
    HistoryDecides(AllCalls(Canon(c)), n);
    SiteLanded(Canon(c), n);
  }

  /* ----- adding a block ----- */

  lemma AddBlockCanon(c: Chain, hash: Hash)
    ensures Canon(AddBlock(c, hash)) == Canon(c) + [NextBlock(c, hash)]
  {
    assert c.history + (c.pending + [NextBlock(c, hash)]) == (c.history + c.pending) + [NextBlock(c, hash)];
  }

  lemma CanonLength(c: Chain)
    ensures |Canon(c)| == |c.history| + |c.pending|
  {
  }

  lemma AddBlockShaped(c: Chain, hash: Hash)
    requires Shaped(c)
    ensures Shaped(AddBlock(c, hash))
  {
    hide HeadState, Included, Rejections, Positions, Stamped, Events, Canon;
    AddBlockCanon(c, hash);
    CanonLength(c);
    var c' := AddBlock(c, hash);
    CanonLength(c');
    var b := NextBlock(c, hash);
    forall i | 0 <= i < |Canon(c')| ensures Canon(c')[i].height == i + 1 && c'.hashAt[i + 1] == Canon(c')[i].hash {
      if i < |Canon(c)| {
        assert Canon(c')[i] == Canon(c)[i];
      }
    }
  }

  lemma AddBlockReplayed(c: Chain, hash: Hash)
    requires Replayed(c)
    ensures Replayed(AddBlock(c, hash))
  {
    AddBlockCanon(c, hash);
    HeadIsFullReplay(c);
    var b := NextBlock(c, hash);
    AllCallsSnoc(Canon(c), b);
    IncludedAccepted(HeadState(c), c.mempool, c.head + 1);
    RunConcat(EMPTY, AllCalls(Canon(c)), CallsAt(b.txs, b.height));
  }

  lemma AddBlockTruthful(c: Chain, hash: Hash, n: Nonce)
    requires Shaped(c) && Replayed(c) && Truthful(c)
    ensures TruthfulAbout(AddBlock(c, hash), n)
  {
    var c' := AddBlock(c, hash);
    var b := NextBlock(c, hash);
    AddBlockCanon(c, hash);
    AddBlockReplayed(c, hash);
    SiteSnoc(Canon(c), b, n);
    assert TruthfulAbout(c, n);
    HeadKnows(c, n);
    var refused := Rejections(c.receipts, HeadState(c), c.mempool, b.height);
    RejectionsSpare(c.receipts, HeadState(c), c.mempool, b.height, n);
    StampedReceipt(refused, b.txs, b.height, hash, n);
    RejectionsFlag(c.receipts, HeadState(c), c.mempool, b.height, n);
    if Carries(b.txs, n) {
      assert Canon(c')[|Canon(c)|] == b;
    } else if Site(Canon(c), n) >= 0 {
      assert Canon(c')[Site(Canon(c), n)] == Canon(c)[Site(Canon(c), n)];
    }
  }

  lemma {:induction false} RejectionsFlag(receipts: map<Nonce, Receipt>, v: Vault, pool: seq<Tx>, height: int, n: Nonce)
    ensures var r := Rejections(receipts, v, pool, height);
      n in r ==> r[n] == (if n in receipts then receipts[n] else NO_RECEIPT) || (!r[n].processed && !r[n].finalized)
    decreases |pool|
  {
    if pool != [] {
      RejectionsFlag(receipts, v, pool[..|pool| - 1], height, n);
    }
  }

  lemma AddBlockHashed(c: Chain, hash: Hash)
    requires Hashed(c) && hash !in c.used
    ensures Hashed(AddBlock(c, hash))
  {
    hide HeadState, Included, Rejections, Stamped, Positions, Events;
    AddBlockCanon(c, hash);
    AddBlockLogs(c, hash);
    var c' := AddBlock(c, hash);
    forall i | 0 <= i < |Canon(c)| ensures Canon(c')[i] == Canon(c)[i] {}
    forall i | 0 <= i < |c'.log| ensures c'.log[i].hash in c'.used {
      if i < |c.log| {
        assert c'.log[i] == c.log[i];
      }
    }
  }

  lemma AddBlockLogs(c: Chain, hash: Hash)
    ensures var c' := AddBlock(c, hash);
      var b := NextBlock(c, hash);
      |c'.log| == |c.log| + |b.txs| &&
      forall i | 0 <= i < |c'.log| ::
        c'.log[i] == if i < |c.log| then c.log[i] else EventOf(i + 1, b.txs[i - |c.log|], b.height, hash)
  {
  }

  lemma AddBlockKeepsBlock(c: Chain, hash: Hash, k: nat)
    requires Hashed(c) && Logged(c) && hash !in c.used && k < |Canon(c)|
    ensures LoggedBlock(AddBlock(c, hash).log, Canon(c)[k])
  {
    AddBlockLogs(c, hash);
    assert LoggedBlock(c.log, Canon(c)[k]);
    assert Canon(c)[k].hash != hash;
    LoggedBlockGrows(c.log, AddBlock(c, hash).log, Canon(c)[k]);
  }

  lemma LoggedBlockGrows(log: seq<Event>, longer: seq<Event>, b: Block)
    requires LoggedBlock(log, b) && |log| <= |longer|
    requires forall i | 0 <= i < |longer| :: if i < |log| then longer[i] == log[i] else longer[i].hash != b.hash
    ensures LoggedBlock(longer, b)
  {
  }

  lemma FreshBlockLogged(log: seq<Event>, b: Block)
    requires |b.log| == |b.txs| && forall j | 0 <= j < |b.log| :: b.log[j] == |log| + j
    requires forall i | 0 <= i < |log| :: log[i].hash != b.hash
    ensures LoggedBlock(log + Events(|log|, b.txs, b.height, b.hash), b)
  {
    var longer := log + Events(|log|, b.txs, b.height, b.hash);
    forall j | 0 <= j < |b.log| ensures longer[b.log[j]] == EventOf(b.log[j] + 1, b.txs[j], b.height, b.hash) {
      assert longer[|log| + j] == Events(|log|, b.txs, b.height, b.hash)[j];
    }
    forall i | 0 <= i < |longer| && longer[i].hash == b.hash ensures i in b.log {
      assert b.log[i - |log|] == i;
    }
  }

  lemma AddBlockLogsAll(c: Chain, hash: Hash, k: nat)
    requires Hashed(c) && Logged(c) && hash !in c.used && k < |Canon(AddBlock(c, hash))|
    ensures LoggedBlock(AddBlock(c, hash).log, Canon(AddBlock(c, hash))[k])
  {
    AddBlockCanon(c, hash);
    if k < |Canon(c)| {
      AddBlockKeepsBlock(c, hash, k);
    } else {
      FreshBlockLogged(c.log, NextBlock(c, hash));
    }
  }

  lemma AddBlockMarks(c: Chain, hash: Hash, i: nat)
    requires Hashed(c) && Logged(c) && hash !in c.used && i < |AddBlock(c, hash).log|
    ensures var c' := AddBlock(c, hash);
      c'.log[i].number == i + 1 && (c'.log[i].kind == Orphaned <==> !HashLive(Canon(c'), c'.log[i].hash))
  {
    AddBlockCanon(c, hash);
    AddBlockLogs(c, hash);
    var c' := AddBlock(c, hash);
    if i < |c.log| {
      AddedHashLive(Canon(c), NextBlock(c, hash), c.log[i].hash);
    } else {
      assert Canon(c')[|Canon(c)|].hash == hash;
    }
  }

  lemma AddBlockLogged(c: Chain, hash: Hash)
    requires Hashed(c) && Logged(c) && hash !in c.used
    ensures Logged(AddBlock(c, hash))
  {
    var c' := AddBlock(c, hash);
    forall k | 0 <= k < |Canon(c')| ensures LoggedBlock(c'.log, Canon(c')[k]) {
      AddBlockLogsAll(c, hash, k);
    }
    forall i | 0 <= i < |c'.log|
      ensures c'.log[i].number == i + 1
      ensures c'.log[i].kind == Orphaned <==> !HashLive(Canon(c'), c'.log[i].hash)
    {
      AddBlockMarks(c, hash, i);
    }
  }

  lemma AddedHashLive(blocks: seq<Block>, b: Block, hash: Hash)
    requires b.hash != hash
    ensures HashLive(blocks + [b], hash) <==> HashLive(blocks, hash)
  {
    if HashLive(blocks, hash) {
      var k :| 0 <= k < |blocks| && blocks[k].hash == hash;
      assert (blocks + [b])[k].hash == hash;
    }
  }

  lemma AddBlockKeeps(c: Chain, hash: Hash)
    requires ChainInv(c) && hash !in c.used
    ensures ChainInv(AddBlock(c, hash))
  {
    AddBlockShaped(c, hash);
    AddBlockReplayed(c, hash);
    AddBlockHashed(c, hash);
    AddBlockLogged(c, hash);
    forall n ensures TruthfulAbout(AddBlock(c, hash), n) {
      AddBlockTruthful(c, hash, n);
    }
  }

  /* ----- finalising the oldest pending block ----- */

  lemma FinaliseCanon(c: Chain)
    requires c.pending != []
    ensures Canon(FinaliseOne(c)) == Canon(c)
    ensures Canon(c) == c.history + [c.pending[0]] + c.pending[1..]
  {
    assert c.pending == [c.pending[0]] + c.pending[1..];
  }

  lemma FinaliseTruthful(c: Chain, n: Nonce)
    requires Shaped(c) && Replayed(c) && Truthful(c) && c.pending != []
    ensures TruthfulAbout(FinaliseOne(c), n)
  {
    var f := c.pending[0];
    FinaliseCanon(c);
    assert Canon(c)[|c.history|] == f;
    PromotedReceipt(c.receipts, f.txs, n);
    assert TruthfulAbout(c, n);
    LandedOrRefusedAt(f.txs, f.height, n);
    if n in Nonces(f.txs) {
      BlockNonceSite(c.history, f, c.pending[1..], n);
    } else {
      SiteLanded(Canon(c), n);
      assert Site(Canon(c), n) != |c.history|;
    }
  }

  lemma FinaliseReplayed(c: Chain)
    requires Replayed(c) && c.pending != []
    ensures Replayed(FinaliseOne(c))
  {
    var f := c.pending[0];
    FinaliseCanon(c);
    AllCallsSnoc(c.history, f);
    RunConcat(EMPTY, AllCalls(c.history), CallsAt(f.txs, f.height));
  }

  lemma FinaliseFrame(c: Chain)
    requires Shaped(c) && Hashed(c) && Logged(c) && c.pending != []
    ensures Shaped(FinaliseOne(c)) && Hashed(FinaliseOne(c)) && Logged(FinaliseOne(c))
  {
    FinaliseCanon(c);
    assert Canon(c)[|c.history|] == c.pending[0];
    hide Run, Promoted;
  }

  lemma FinaliseKeeps(c: Chain)
    requires ChainInv(c) && c.pending != []
    ensures ChainInv(FinaliseOne(c))
  {
    hide TruthfulAbout, FinaliseOne, Shaped, Hashed, Logged, Replayed;
    FinaliseReplayed(c);
    FinaliseFrame(c);
    forall n ensures TruthfulAbout(FinaliseOne(c), n) {
      FinaliseTruthful(c, n);
    }
  }

  /* ----- dropping the newest pending blocks ----- */

  lemma ReorgCanon(c: Chain, depth: nat, shuffled: seq<Tx>)
    requires 1 <= depth <= |c.pending|
    ensures var c' := Reorg(c, depth, shuffled);
      Canon(c) == Canon(c') + c.pending[|c.pending| - depth..] && Canon(c') == Canon(c)[..|Canon(c)| - depth]
  {
  }

  lemma ReorgShaped(c: Chain, depth: nat, shuffled: seq<Tx>)
    requires Shaped(c) && 1 <= depth <= |c.pending|
    ensures Shaped(Reorg(c, depth, shuffled))
  {
    hide Canon, TxsOf, Nonces, MarkOrphans, HeadState, Heights;
    var c' := Reorg(c, depth, shuffled);
    ReorgCanon(c, depth, shuffled);
    CanonLength(c);
    CanonLength(c');
    OrphanedHeights(c, depth);
    forall i | 0 <= i < |Canon(c')| ensures Canon(c')[i] == Canon(c)[i] {}
  }

  lemma OrphanedHeights(c: Chain, depth: nat)
    requires Shaped(c) && 1 <= depth <= |c.pending|
    ensures var heights := Heights(c.pending[|c.pending| - depth..]);
        forall h :: h in heights <==> c.head - depth < h <= c.head
  {
    var orphaned, m := c.pending[|c.pending| - depth..], c.head - depth;
    forall k | 0 <= k < depth ensures orphaned[k].height == m + k + 1 {
      assert Canon(c)[m + k] == orphaned[k];
    }
    forall h ensures h in Heights(orphaned) <==> m < h <= m + depth {
      if m < h <= m + depth {
        assert orphaned[h - m - 1].height == h;
      }
    }
  }

  lemma ReorgReplayed(c: Chain, depth: nat, shuffled: seq<Tx>)
    requires Replayed(c) && 1 <= depth <= |c.pending|
    ensures Replayed(Reorg(c, depth, shuffled))
  {
    var c' := Reorg(c, depth, shuffled);
    var orphaned := c.pending[|c.pending| - depth..];
    ReorgCanon(c, depth, shuffled);
    AllCallsConcat(Canon(c'), orphaned);
    RunConcat(EMPTY, AllCalls(Canon(c')), AllCalls(orphaned));
  }

  lemma ReorgTruthful(c: Chain, depth: nat, shuffled: seq<Tx>, n: Nonce)
    requires Replayed(c) && TruthfulAbout(c, n) && 1 <= depth <= |c.pending|
    ensures TruthfulAbout(Reorg(c, depth, shuffled), n)
  {
    hide HeadState, MarkOrphans, Heights, TxsOf, Run;
    var c' := Reorg(c, depth, shuffled);
    ReorgCanon(c, depth, shuffled);
    SitePrefix(Canon(c'), c.pending[|c.pending| - depth..], n);
    SiteLanded(Canon(c'), n);
    SuffixNonceSite(Canon(c'), c.pending[|c.pending| - depth..], n);
  }

  lemma ReorgHashed(c: Chain, depth: nat, shuffled: seq<Tx>)
    requires Hashed(c) && 1 <= depth <= |c.pending|
    ensures Hashed(Reorg(c, depth, shuffled))
  {
    ReorgCanon(c, depth, shuffled);
    var c' := Reorg(c, depth, shuffled);
    forall i | 0 <= i < |Canon(c')| ensures Canon(c')[i] == Canon(c)[i] {}
  }

  // The log positions listed by the orphaned blocks are exactly the events carrying their hashes.
  lemma OrphanPositions(c: Chain, depth: nat, i: nat)
    requires Hashed(c) && Logged(c) && 1 <= depth <= |c.pending| && i < |c.log|
    ensures InLogOf(c.pending[|c.pending| - depth..], i)
            <==> HashLive(c.pending[|c.pending| - depth..], c.log[i].hash)
  {
    var orphaned := c.pending[|c.pending| - depth..];
    var m := |Canon(c)| - depth;
    forall k | 0 <= k < depth ensures Canon(c)[m + k] == orphaned[k] && LoggedBlock(c.log, orphaned[k]) {}
    if InLogOf(orphaned, i) {
      var k :| 0 <= k < |orphaned| && i in orphaned[k].log;
      var j :| 0 <= j < |orphaned[k].log| && orphaned[k].log[j] == i;
      assert c.log[i].hash == orphaned[k].hash;
    }
  }

  lemma ReorgMarks(c: Chain, depth: nat, shuffled: seq<Tx>, i: nat)
    requires Hashed(c) && Logged(c) && 1 <= depth <= |c.pending| && i < |c.log|
    ensures var e, live := c.log[i], HashLive(Canon(Reorg(c, depth, shuffled)), c.log[i].hash);
      Reorg(c, depth, shuffled).log[i] == if HashLive(Canon(c), e.hash) && !live then e.(kind := Orphaned) else e
  {
    var kept := Canon(Reorg(c, depth, shuffled));
    var orphaned := c.pending[|c.pending| - depth..];
    var hash := c.log[i].hash;
    ReorgCanon(c, depth, shuffled);
    OrphanPositions(c, depth, i);
    HashLiveConcat(kept, orphaned, hash);
  }

  lemma ReorgLogsBlock(c: Chain, depth: nat, shuffled: seq<Tx>, k: nat)
    requires Hashed(c) && Logged(c) && 1 <= depth <= |c.pending| && k < |Canon(c)| - depth
    ensures LoggedBlock(Reorg(c, depth, shuffled).log, Canon(c)[k])
  {
    var c' := Reorg(c, depth, shuffled);
    var b := Canon(c)[k];
    ReorgCanon(c, depth, shuffled);
    assert LoggedBlock(c.log, b) && Canon(c')[k] == b;
    forall i | 0 <= i < |c.log|
      ensures c'.log[i].hash == c.log[i].hash && (c.log[i].hash == b.hash ==> c'.log[i] == c.log[i])
    {
      ReorgMarks(c, depth, shuffled, i);
    }
  }

  lemma ReorgLogged(c: Chain, depth: nat, shuffled: seq<Tx>)
    requires Hashed(c) && Logged(c) && 1 <= depth <= |c.pending|
    ensures Logged(Reorg(c, depth, shuffled))
  {
    var c' := Reorg(c, depth, shuffled);
    ReorgCanon(c, depth, shuffled);
    forall k | 0 <= k < |Canon(c')| ensures LoggedBlock(c'.log, Canon(c')[k]) {
      ReorgLogsBlock(c, depth, shuffled, k);
    }
    forall i | 0 <= i < |c'.log|
      ensures c'.log[i].number == i + 1
      ensures c'.log[i].kind == Orphaned <==> !HashLive(Canon(c'), c'.log[i].hash)
    {
      ReorgMarks(c, depth, shuffled, i);
      HashLiveConcat(Canon(c'), c.pending[|c.pending| - depth..], c.log[i].hash);
    }
  }

  lemma HashLiveConcat(a: seq<Block>, b: seq<Block>, hash: Hash)
    ensures HashLive(a + b, hash) <==> HashLive(a, hash) || HashLive(b, hash)
  {
    forall k | 0 <= k < |a| ensures (a + b)[k] == a[k] {}
    forall k | 0 <= k < |b| ensures (a + b)[|a| + k] == b[k] {}
  }

  lemma ReorgKeeps(c: Chain, depth: nat, shuffled: seq<Tx>)
    requires ChainInv(c) && 1 <= depth <= |c.pending|
    ensures ChainInv(Reorg(c, depth, shuffled))
  {
    ReorgShaped(c, depth, shuffled);
    ReorgReplayed(c, depth, shuffled);
    ReorgHashed(c, depth, shuffled);
    ReorgLogged(c, depth, shuffled);
    forall n ensures TruthfulAbout(Reorg(c, depth, shuffled), n) {
      ReorgTruthful(c, depth, shuffled, n);
    }
  }

  /* ----- every call, every run ----- */

  lemma {:induction false} FinaliseAllKeeps(c: Chain)
    requires ChainInv(c)
    ensures ChainInv(FinaliseAll(c))
    ensures Canon(FinaliseAll(c)) == Canon(c) && c.history <= FinaliseAll(c).history
    decreases |c.pending|
  {
    if |c.pending| > c.confirms {
      FinaliseKeeps(c);
      FinaliseCanon(c);
      FinaliseAllKeeps(FinaliseOne(c));
    }
  }

  lemma MineKeeps(c: Chain, depth: nat, shuffled: seq<Tx>, hash: Hash)
    requires ChainInv(c) && CanMine(c, depth, shuffled, hash)
    ensures ChainInv(Mine(c, depth, shuffled, hash))
    ensures c.history <= Mine(c, depth, shuffled, hash).history
  {
    var c1 := if depth > 0 then Reorg(c, depth, shuffled) else c;
    if depth > 0 {
      ReorgKeeps(c, depth, shuffled);
    }
    AddBlockKeeps(c1, hash);
    FinaliseAllKeeps(AddBlock(c1, hash));
  }

  // The calls other than `Mine` leave everything the invariant speaks about alone.
  lemma PoolOnly(c: Chain, c': Chain)
    requires ChainInv(c)
    requires c' == c.(mempool := c'.mempool, nextDeposit := c'.nextDeposit, confirms := c'.confirms) && c'.confirms >= 1
    ensures ChainInv(c') && Canon(c') == Canon(c) && HeadState(c') == HeadState(c)
  {
    forall n ensures TruthfulAbout(c', n) {
      assert TruthfulAbout(c, n);
    }
    assert Shaped(c') && Replayed(c') && Hashed(c') && Logged(c');
  }

  lemma ActFrame(c: Chain, a: Action)
    requires Enabled(c, a) && !a.DoMine?
    ensures var c' := Act(c, a);
      c' == c.(mempool := c'.mempool, nextDeposit := c'.nextDeposit, confirms := c'.confirms) &&
          (c.confirms >= 1 ==> c'.confirms >= 1)
  {
    hide HeadState;
  }

  lemma ActKeeps(c: Chain, a: Action)
    requires ChainInv(c) && Enabled(c, a)
    ensures ChainInv(Act(c, a))
    ensures c.history <= Act(c, a).history
  {
    assert c.confirms >= 1;
    hide ChainInv, SubmitTx, CancelNonce, Mine;
    if a.DoMine? {
      MineKeeps(c, a.depth, a.shuffled, a.hash);
    } else {
      ActFrame(c, a);
      hide Act;
      PoolOnly(c, Act(c, a));
    }
  }

  lemma GenesisSound(confirms: int)
    ensures ChainInv(Genesis(confirms))
  {
    var c := Genesis(confirms);
    forall n ensures TruthfulAbout(c, n) {}
  }

  // After any mix of deposits, submissions, cancellations, blocks and reorgs the truthful tier
  // is truthful, and finalised history has only been appended to.
  lemma {:induction false} EveryRunKeeps(c: Chain, actions: seq<Action>)
    requires ChainInv(c) && IsRun(c, actions)
    ensures ChainInv(After(c, actions))
    ensures c.history <= After(c, actions).history
    decreases |actions|
  {
    if actions != [] {
      ActKeeps(c, actions[0]);
      EveryRunKeeps(Act(c, actions[0]), actions[1..]);
    }
  }

  ghost predicate SameFinalReceipt(a: Receipt, b: Receipt)
  {
    b.processed && b.finalized && b.height == a.height && b.hash == a.hash
  }

  lemma FinalReceiptStable(c: Chain, c': Chain, n: Nonce)
    requires TruthfulAbout(c, n) && TruthfulAbout(c', n) && Replayed(c')
    requires c.history <= c'.history && TxStatus(c, n).finalized
    ensures SameFinalReceipt(TxStatus(c, n), TxStatus(c', n))
  {
    var site := Site(Canon(c), n);
    SiteLanded(Canon(c), n);
    assert Canon(c)[site] == c.history[site] == Canon(c')[site];
    SiteUnique(Canon(c'), n, site);
  }

  // Finality: what is final stays exactly as it is, on any continuation.
  lemma FinalityIsForever(c: Chain, actions: seq<Action>, n: Nonce, height: int)
    requires ChainInv(c) && IsRun(c, actions)
    ensures TxStatus(c, n).finalized ==> SameFinalReceipt(TxStatus(c, n), TxStatus(After(c, actions), n))
    ensures 1 <= height <= c.finalHeight ==> CanonicalHash(After(c, actions), height) == CanonicalHash(c, height)
  {
    var c' := After(c, actions);
    EveryRunKeeps(c, actions);
    assert TruthfulAbout(c, n) && TruthfulAbout(c', n);
    if TxStatus(c, n).finalized {
      FinalReceiptStable(c, c', n);
    }
    if 1 <= height <= c.finalHeight {
      assert Canon(c)[height - 1] == c.history[height - 1] == Canon(c')[height - 1];
    }
  }

  /* ----- what a submission is told ----- */

  // The submitter hears `Queued` exactly when the call has entered the mempool and its receipt came
  // back; a lost receipt sounds like a dropped submission; and a call enters exactly when it is not
  // dropped and the chain can still execute it.
  lemma RepliesAreTruthful(c: Chain, tx: Tx, fate: Fate)
    ensures var r := SubmitTx(c, tx, fate);
      var wanted := !TxStatus(c, tx.nonce).processed && tx.nonce !in HeadState(c).cancelled &&
          (tx.kind == Cancel || tx.expiry <= 0 || c.head <= tx.expiry);
      && (r.0 == if wanted && fate != Drop then c.(mempool := c.mempool + [tx]) else c)
      && (r.1 == Queued <==> r.0.mempool == c.mempool + [tx] && fate == Deliver)
      && (r.1.InBlock? <==> TxStatus(c, tx.nonce).processed)
      && (r.1.InBlock? ==> r.1.hash == TxStatus(c, tx.nonce).hash && r.0 == c)
      && SubmitTx(c, tx, Drop).1 == SubmitTx(c, tx, LoseReceipt).1 != Queued
  {
    hide HeadState;
    assert |c.mempool + [tx]| != |c.mempool|;
  }

  // A cancellation is in force exactly when the contract has recorded it; it is queued only past the
  // expiry of a call that has not landed, and never twice.
  lemma CancelTells(c: Chain, n: Nonce, expiry: int64)
    ensures var r := CancelNonce(c, n, expiry);
      && (r.1 <==> n in HeadState(c).cancelled && !TxStatus(c, n).processed)
      && (r.1 ==> r.0 == c && IsExpired(c, n))
      && (r.0 != c ==> r.0 == c.(mempool := c.mempool + [CancelTx(n, expiry)]))
      && (r.0 != c <==> !TxStatus(c, n).processed && n !in HeadState(c).cancelled && expiry != 0 && c.head > expiry &&
                        forall t | t in c.mempool :: t.nonce != n || t.kind != Cancel)
  {
    hide HeadState;
    assert |c.mempool + [CancelTx(n, expiry)]| != |c.mempool|;
    if CancelQueued(c, n) {
      var i :| 0 <= i < |c.mempool| && c.mempool[i].nonce == n && c.mempool[i].kind == Cancel;
      assert c.mempool[i] in c.mempool;
    }
  }
}
