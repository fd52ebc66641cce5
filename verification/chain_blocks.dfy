/** Facts about sequences of blocks: how replays compose and where a nonce landed. */
module ChainBlocks {
  import opened GoVault
  import opened ChainModel

  lemma SameElements<T>(a: seq<T>, b: seq<T>)
    requires multiset(a) == multiset(b)
    ensures forall x | x in a :: x in b
  {
    forall x | x in a ensures x in b {
      assert x in multiset(a);
    }
  }

  lemma AllCallsSnoc(blocks: seq<Block>, b: Block)
    ensures AllCalls(blocks + [b]) == AllCalls(blocks) + CallsAt(b.txs, b.height)
  {
    assert (blocks + [b])[..|blocks|] == blocks;
  }

  lemma {:induction false} AllCallsConcat(a: seq<Block>, b: seq<Block>)
    ensures AllCalls(a + b) == AllCalls(a) + AllCalls(b)
    decreases |b|
  {
    hide AllCalls, CallsAt;
    if b == [] {
      NoBlocksNoCalls();
      assert a + b == a;
    } else {
      var rest, last := b[..|b| - 1], b[|b| - 1];
      AllCallsConcat(a, rest);
      AllCallsSnoc(a + rest, last);
      AllCallsSnoc(rest, last);
      assert b == rest + [last];
      assert a + b == a + rest + [last];
    }
  }

  lemma NoBlocksNoCalls()
    ensures AllCalls([]) == []
  {
  }

  // The block carries a non-cancel call for the nonce.
  ghost predicate Carries(txs: seq<Tx>, n: Nonce)
  {
    exists i | 0 <= i < |txs| :: txs[i].nonce == n && txs[i].kind != Cancel
  }

  // The index of the last block that carries the nonce, or -1.
  ghost function Site(blocks: seq<Block>, n: Nonce): int
  {
    if blocks == [] then -1
    else
      var last := |blocks| - 1;
      if Carries(blocks[last].txs, n) then last else Site(blocks[..last], n)
  }

  lemma SiteSnoc(blocks: seq<Block>, b: Block, n: Nonce)
    ensures Site(blocks + [b], n) == if Carries(b.txs, n) then |blocks| else Site(blocks, n)
  {
    assert (blocks + [b])[..|blocks|] == blocks;
  }

  lemma LandedConcat(a: seq<Call>, b: seq<Call>, n: Nonce)
    ensures Landed(a + b, n) <==> Landed(a, n) || Landed(b, n)
    ensures Refused(a + b, n) <==> Refused(a, n) || Refused(b, n)
  {
    forall i | 0 <= i < |a| ensures (a + b)[i] == a[i] {}
    forall i | 0 <= i < |b| ensures (a + b)[|a| + i] == b[i] {}
  }

  lemma LandedAt(txs: seq<Tx>, height: int, n: Nonce)
    ensures Landed(CallsAt(txs, height), n) <==> Carries(txs, n)
  {
    forall i | 0 <= i < |txs| ensures CallsAt(txs, height)[i] == Call(txs[i], height) {}
    if Landed(CallsAt(txs, height), n) {
      var i :| 0 <= i < |CallsAt(txs, height)| && CallsAt(txs, height)[i].tx.nonce == n &&
          CallsAt(txs, height)[i].tx.kind != Cancel;
      assert txs[i].nonce == n;
    }
    if Carries(txs, n) {
      var i :| 0 <= i < |txs| && txs[i].nonce == n && txs[i].kind != Cancel;
      assert CallsAt(txs, height)[i].tx.nonce == n;
    }
  }

  lemma {:induction false} SiteLanded(blocks: seq<Block>, n: Nonce)
    ensures -1 <= Site(blocks, n) < |blocks|
    ensures Site(blocks, n) >= 0 <==> Landed(AllCalls(blocks), n)
    ensures Site(blocks, n) >= 0 ==> Carries(blocks[Site(blocks, n)].txs, n)
    decreases |blocks|
  {
    if blocks != [] {
      var last := |blocks| - 1;
      SiteLanded(blocks[..last], n);
      LandedAt(blocks[last].txs, blocks[last].height, n);
      LandedConcat(AllCalls(blocks[..last]), CallsAt(blocks[last].txs, blocks[last].height), n);
    }
  }

  // In an accepted history a nonce lands in one block only, so its site in a prefix is its site.
  lemma {:induction false} SiteUnique(blocks: seq<Block>, n: Nonce, k: nat)
    requires Accepted(EMPTY, AllCalls(blocks))
    requires k < |blocks| && Carries(blocks[k].txs, n)
    ensures Site(blocks, n) == k
    decreases |blocks|
  {
    var last := |blocks| - 1;
    var before := blocks[..last];
    RunConcat(EMPTY, AllCalls(before), CallsAt(blocks[last].txs, blocks[last].height));
    if k < last {
      assert before[k] == blocks[k];
      SiteUnique(before, n, k);
      if Carries(blocks[last].txs, n) {
        SiteLanded(before, n);
        LandedAt(blocks[last].txs, blocks[last].height, n);
        LandsOnce(AllCalls(before), CallsAt(blocks[last].txs, blocks[last].height), n);
      }
    }
  }

  lemma LandsOnce(a: seq<Call>, b: seq<Call>, n: Nonce)
    requires Accepted(EMPTY, a + b)
    ensures !(Landed(a, n) && Landed(b, n))
    ensures !(Landed(a, n) && Refused(b, n))
    ensures !(Refused(a, n) && Landed(b, n))
  {
    if (Landed(a, n) || Refused(a, n)) && (Landed(b, n) || Refused(b, n)) {
      var i :| 0 <= i < |a| && a[i].tx.nonce == n;
      var j :| 0 <= j < |b| && b[j].tx.nonce == n;
      assert (a + b)[i] == a[i] && (a + b)[|a| + j] == b[j];
      OncePerNonce(a + b, i, |a| + j);
    }
  }

  lemma {:induction false} SitePrefix(a: seq<Block>, b: seq<Block>, n: Nonce)
    requires Accepted(EMPTY, AllCalls(a + b))
    ensures Site(a, n) >= 0 ==> Site(a + b, n) == Site(a, n)
    ensures 0 <= Site(a + b, n) < |a| ==> Site(a, n) == Site(a + b, n)
    ensures Site(a, n) < 0 && Site(a + b, n) >= 0 ==> Site(a + b, n) >= |a|
  {
    SiteLanded(a, n);
    SiteLanded(a + b, n);
    AllCallsConcat(a, b);
    RunConcat(EMPTY, AllCalls(a), AllCalls(b));
    var k, m := Site(a, n), Site(a + b, n);
    if k >= 0 {
      assert (a + b)[k] == a[k];
      SiteUnique(a + b, n, k);
    }
    if 0 <= m < |a| {
      assert (a + b)[m] == a[m];
      SiteUnique(a, n, m);
    }
  }

  // Every accepted transaction of the pool is accepted in the order it enters the block.
  lemma {:induction false} IncludedAccepted(v: Vault, pool: seq<Tx>, height: int)
    ensures Accepted(v, CallsAt(Included(v, pool, height), height))
    decreases |pool|
  {
    if pool != [] {
      var last := |pool| - 1;
      IncludedAccepted(v, pool[..last], height);
      var txs := Included(v, pool[..last], height);
      CallsAtSnoc(txs, pool[last], height);
      RunSnoc(v, CallsAt(txs, height), Call(pool[last], height));
    }
  }

  lemma CallsAtSnoc(txs: seq<Tx>, tx: Tx, height: int)
    ensures CallsAt(txs + [tx], height) == CallsAt(txs, height) + [Call(tx, height)]
  {
  }

  lemma PoolStateSnoc(v: Vault, pool: seq<Tx>, t: Tx, height: int)
    ensures var verdict := Apply(PoolState(v, pool, height), t, height);
      PoolState(v, pool + [t], height) == (if verdict.ok then verdict.vault else PoolState(v, pool, height)) &&
      Included(v, pool + [t], height) == Included(v, pool, height) + (if verdict.ok then [t] else [])
  {
    assert (pool + [t])[..|pool|] == pool;
    var txs := Included(v, pool, height);
    CallsAtSnoc(txs, t, height);
    RunSnoc(v, CallsAt(txs, height), Call(t, height));
  }

  lemma RejectionsSnoc(receipts: map<Nonce, Receipt>, v: Vault, pool: seq<Tx>, t: Tx, height: int)
    ensures var verdict := Apply(PoolState(v, pool, height), t, height);
      var before := Rejections(receipts, v, pool, height);
      Rejections(receipts, v, pool + [t], height) ==
      if !verdict.ok && verdict.reason != NoReason && verdict.reason != AlreadyProcessed then
        before[t.nonce := Receipt(false, false, 0, 0, verdict.reason)]
      else before
  {
    assert (pool + [t])[..|pool|] == pool;
  }

  lemma {:induction false} IncludedFromPool(v: Vault, pool: seq<Tx>, height: int, i: nat)
    requires i < |Included(v, pool, height)|
    ensures Included(v, pool, height)[i] in pool
    decreases |pool|
  {
    var last := |pool| - 1;
    var txs := Included(v, pool[..last], height);
    if i < |txs| {
      IncludedFromPool(v, pool[..last], height, i);
    }
  }

  // Rejections never touch the receipt of a nonce that the executing state has processed.
  lemma {:induction false} RejectionsSpare(receipts: map<Nonce, Receipt>, v: Vault, pool: seq<Tx>, height: int,
      n: Nonce)
    ensures var r := Rejections(receipts, v, pool, height);
      (n in r && r[n].processed ==> n in receipts && r[n] == receipts[n]) &&
      (n in v.processed && n in receipts ==> n in r && r[n] == receipts[n])
    decreases |pool|
  {
    if pool != [] {
      var last := |pool| - 1;
      RejectionsSpare(receipts, v, pool[..last], height, n);
      RunGrows(v, CallsAt(Included(v, pool[..last], height), height));
    }
  }

  lemma {:induction false} StampedReceipt(receipts: map<Nonce, Receipt>, txs: seq<Tx>, height: int, hash: Hash,
      n: Nonce)
    ensures var r := Stamped(receipts, txs, height, hash);
      if Carries(txs, n) then n in r && r[n] == Receipt(true, false, height, hash, NoReason)
      else (n in r <==> n in receipts) && (n in r ==> r[n] == receipts[n])
    decreases |txs|
  {
    if txs != [] {
      StampedReceipt(receipts, txs[..|txs| - 1], height, hash, n);
      CarriesSnoc(txs, n);
    }
  }

  lemma CarriesSnoc(txs: seq<Tx>, n: Nonce)
    requires txs != []
    ensures var last := |txs| - 1;
      Carries(txs, n) <==> Carries(txs[..last], n) || (txs[last].nonce == n && txs[last].kind != Cancel)
  {
    var last := |txs| - 1;
    forall i | 0 <= i < last ensures txs[..last][i] == txs[i] {}
    if Carries(txs[..last], n) {
      var i :| 0 <= i < last && txs[..last][i].nonce == n && txs[..last][i].kind != Cancel;
      assert txs[i].nonce == n;
    }
  }

  lemma {:induction false} PromotedReceipt(receipts: map<Nonce, Receipt>, txs: seq<Tx>, n: Nonce)
    ensures var r := Promoted(receipts, txs);
      (n in r <==> n in receipts) &&
      (n in r ==> r[n] == if receipts[n].processed && n in Nonces(txs) then receipts[n].(finalized := true)
          else receipts[n])
    decreases |txs|
  {
    if txs != [] {
      var last := |txs| - 1;
      PromotedReceipt(receipts, txs[..last], n);
      assert Nonces(txs) == Nonces(txs[..last]) + {txs[last].nonce} by {
        forall i | 0 <= i < last ensures txs[..last][i] == txs[i] {}
      }
      PromotedReceipt(receipts, txs[..last], txs[last].nonce);
    } else {
      assert Nonces(txs) == {};
    }
  }

  lemma NoncesConcat(a: seq<Tx>, b: seq<Tx>)
    ensures Nonces(a + b) == Nonces(a) + Nonces(b)
  {
    forall n | n in Nonces(a) + Nonces(b) ensures n in Nonces(a + b) {
      if n in Nonces(a) {
        var i :| 0 <= i < |a| && a[i].nonce == n;
        assert (a + b)[i].nonce == n;
      } else {
        var i :| 0 <= i < |b| && b[i].nonce == n;
        assert (a + b)[|a| + i].nonce == n;
      }
    }
  }

  // A nonce occurs in a block either as a landed call or as a cancellation.
  lemma LandedOrRefusedAt(txs: seq<Tx>, height: int, n: Nonce)
    ensures n in Nonces(txs) <==> Carries(txs, n) || Refused(CallsAt(txs, height), n)
  {
    var calls := CallsAt(txs, height);
    forall i | 0 <= i < |txs| ensures calls[i] == Call(txs[i], height) {}
    if n in Nonces(txs) {
      var i :| 0 <= i < |txs| && txs[i].nonce == n;
      assert calls[i].tx.nonce == n;
    }
    if Refused(calls, n) {
      var i :| 0 <= i < |calls| && calls[i].tx.nonce == n && calls[i].tx.kind == Cancel;
      assert txs[i].nonce == n;
    }
  }

  lemma {:induction false} LandedOrRefused(blocks: seq<Block>, n: Nonce)
    ensures n in Nonces(TxsOf(blocks)) <==> Landed(AllCalls(blocks), n) || Refused(AllCalls(blocks), n)
    decreases |blocks|
  {
    if blocks == [] {
      assert Nonces([]) == {};
    } else {
      var last := |blocks| - 1;
      LandedOrRefused(blocks[..last], n);
      NoncesConcat(TxsOf(blocks[..last]), blocks[last].txs);
      LandedAt(blocks[last].txs, blocks[last].height, n);
      LandedOrRefusedAt(blocks[last].txs, blocks[last].height, n);
      LandedConcat(AllCalls(blocks[..last]), CallsAt(blocks[last].txs, blocks[last].height), n);
    }
  }

  // A nonce of the later blocks landed there, or it never landed at all.
  lemma SuffixNonceSite(kept: seq<Block>, later: seq<Block>, n: Nonce)
    requires Accepted(EMPTY, AllCalls(kept + later))
    ensures n in Nonces(TxsOf(later)) ==> Site(kept, n) < 0
    ensures Site(kept + later, n) >= |kept| ==> n in Nonces(TxsOf(later))
  {
    AllCallsConcat(kept, later);
    LandedOrRefused(later, n);
    LandsOnce(AllCalls(kept), AllCalls(later), n);
    LandedConcat(AllCalls(kept), AllCalls(later), n);
    SiteLanded(kept, n);
    SiteLanded(kept + later, n);
    SitePrefix(kept, later, n);
  }

  // In an accepted history the nonces of a block did not land in any other block.
  lemma BlockNonceSite(before: seq<Block>, f: Block, after: seq<Block>, n: Nonce)
    requires Accepted(EMPTY, AllCalls(before + [f] + after))
    requires n in Nonces(f.txs)
    ensures Site(before + [f] + after, n) == if Carries(f.txs, n) then |before| else -1
  {
    var chain := before + [f] + after;
    SiteLanded(chain, n);
    LandedOrRefusedAt(f.txs, f.height, n);
    if Carries(f.txs, n) {
      assert chain[|before|] == f;
      SiteUnique(chain, n, |before|);
    } else if Site(chain, n) >= 0 {
      AllCallsSnoc(before, f);
      AllCallsConcat(before + [f], after);
      var a, b, d := AllCalls(before), CallsAt(f.txs, f.height), AllCalls(after);
      LandedConcat(a + b, d, n);
      LandedConcat(a, b, n);
      RunConcat(EMPTY, a + b, d);
      LandedAt(f.txs, f.height, n);
      LandsOnce(a + b, d, n);
      LandsOnce(a, b, n);
    }
  }

  // A refusal for good is put on record with its reason; a refusal for now, and the repetition of a
  // call that has landed, leave no trace.
  lemma RefusalIsFiled(receipts: map<Nonce, Receipt>, v: Vault, pool: seq<Tx>, tx: Tx, height: int)
    ensures var verdict := Apply(PoolState(v, pool, height), tx, height);
      var before, after := Rejections(receipts, v, pool, height), Rejections(receipts, v, pool + [tx], height);
      after == if !verdict.ok && verdict.reason in {Expired, ZeroAmount, MarketSettled, NotYetExpired, UnknownCall}
               then before[tx.nonce := Receipt(false, false, 0, 0, verdict.reason)] else before
  {
    RejectionsSnoc(receipts, v, pool, tx, height);
    hide Rejections, PoolState, Apply;
  }
}
