/** The simulator object: the same calls as module ChainModel, updating their state in place. */
module Sim {
  import opened Integers
  import opened GoVault
  import opened ChainModel
  import opened ChainBlocks
  import opened Differential

  // Fisher-Yates over the given random picks; the events and transactions survive as a bag.
  method Shuffle<T>(items: seq<T>, picks: seq<nat>) returns (r: seq<T>)
    ensures multiset(r) == multiset(items) && |r| == |items|
  {
    r := items;
    var i := |items| - 1;
    while i > 0
      invariant -1 <= i < |items| == |r|
      invariant multiset(r) == multiset(items)
    {
      var j := (if i < |picks| then picks[i] else 0) % (i + 1);
      r := r[i := r[j]][j := r[i]];
      i := i - 1;
    }
  }

  predicate Flag(flags: seq<bool>, i: nat)
  {
    i < |flags| && flags[i]
  }

  // What a poll reads from the first `count` log entries before it shuffles: up to the limit, it
  // skips orphans, withholds gaps and repeats doubles.
  function Polled(log: seq<Event>, since: nat, limit: nat, gaps: seq<bool>, doubles: seq<bool>, count: nat): seq<Event>
    requires count <= |log|
  {
    if count == 0 then []
    else
      var before := Polled(log, since, limit, gaps, doubles, count - 1);
      var e := log[count - 1];
      if |before| >= limit || e.number <= since || e.kind == Orphaned || Flag(gaps, count - 1) then before
      else before + [e] + if Flag(doubles, count - 1) then [e] else []
  }

  lemma {:induction false} PollStops(log: seq<Event>, since: nat, limit: nat, gaps: seq<bool>, doubles: seq<bool>,
      i: nat, count: nat)
    requires i <= count <= |log| && (i < count ==> |Polled(log, since, limit, gaps, doubles, i)| >= limit)
    ensures Polled(log, since, limit, gaps, doubles, count) == Polled(log, since, limit, gaps, doubles, i)
    decreases count - i
  {
    if i < count {
      PollStops(log, since, limit, gaps, doubles, i, count - 1);
    }
  }

  lemma {:induction false} PolledAreLive(log: seq<Event>, since: nat, limit: nat, gaps: seq<bool>, doubles: seq<bool>,
      count: nat)
    requires count <= |log|
    ensures forall e | e in Polled(log, since, limit, gaps, doubles, count) ::
        e in log && e.number > since && e.kind != Orphaned
    decreases count
  {
    if count > 0 {
      PolledAreLive(log, since, limit, gaps, doubles, count - 1);
    }
  }

  // A poll hands out at most one event more than its limit.
  lemma {:induction false} PollIsBounded(log: seq<Event>, since: nat, limit: nat, gaps: seq<bool>,
      doubles: seq<bool>, count: nat)
    requires count <= |log| && forall i | 0 <= i < |log| :: log[i].number == i + 1
    ensures var batch := Polled(log, since, limit, gaps, doubles, count);
      |batch| <= limit + 1 && forall e | e in batch :: e.number <= count
    decreases count
  {
    if count > 0 {
      PollIsBounded(log, since, limit, gaps, doubles, count - 1);
      PolledOneMore(log, since, limit, gaps, doubles, count);
      hide Polled, Copies;
    }
  }

  // As long as it has not reached the limit it holds every event up to there that is live, after the
  // cursor and not withheld, once or, if it is doubled, twice, and no other.
  lemma {:induction false} PollIsComplete(log: seq<Event>, since: nat, limit: nat, gaps: seq<bool>,
      doubles: seq<bool>, count: nat, i: nat)
    requires i < count <= |log| && (forall i | 0 <= i < |log| :: log[i].number == i + 1)
    requires |Polled(log, since, limit, gaps, doubles, count)| < limit
    ensures multiset(Polled(log, since, limit, gaps, doubles, count))[log[i]] ==
            Copies(log, since, gaps, doubles, i)
    decreases count
  {
    hide Polled, Copies;
    var before, e := Polled(log, since, limit, gaps, doubles, count - 1), log[count - 1];
    PolledOneMore(log, since, limit, gaps, doubles, count);
    PollIsBounded(log, since, limit, gaps, doubles, count - 1);
    AddedCopies(before, Polled(log, since, limit, gaps, doubles, count), e,
        Copies(log, since, gaps, doubles, count - 1));
    if i < count - 1 {
      PollIsComplete(log, since, limit, gaps, doubles, count - 1, i);
      assert log[i].number != e.number;
    }
  }

  lemma PolledOneMore(log: seq<Event>, since: nat, limit: nat, gaps: seq<bool>, doubles: seq<bool>, count: nat)
    requires 0 < count <= |log|
    ensures var before, e := Polled(log, since, limit, gaps, doubles, count - 1), log[count - 1];
      var added := if |before| >= limit then 0 else Copies(log, since, gaps, doubles, count - 1);
      && added <= 2
      && Polled(log, since, limit, gaps, doubles, count) ==
         before + if added == 0 then [] else if added == 1 then [e] else [e, e]
  {
  }

  lemma AddedCopies(before: seq<Event>, batch: seq<Event>, e: Event, added: nat)
    requires e !in before && added <= 2
    requires batch == before + if added == 0 then [] else if added == 1 then [e] else [e, e]
    ensures multiset(batch)[e] == added && forall x | x != e :: multiset(batch)[x] == multiset(before)[x]
  {
    assert [e, e] == [e] + [e];
  }

  function Copies(log: seq<Event>, since: nat, gaps: seq<bool>, doubles: seq<bool>, i: nat): nat
    requires i < |log|
  {
    if log[i].number <= since || log[i].kind == Orphaned || Flag(gaps, i) then 0 else if Flag(doubles, i) then 2 else 1
  }

  // Execute calls of one block on a contract, in order.
  method ExecuteAll(v: Contract, txs: seq<Tx>, height: int)
    modifies v
    ensures v.View() == Run(old(v.View()), CallsAt(txs, height))
  {
    assert CallsAt(txs[..0], height) == [];
    for i := 0 to |txs|
      invariant v.View() == Run(old(v.View()), CallsAt(txs[..i], height))
    {
      CallsAtSnoc(txs[..i], txs[i], height);
      assert txs[..i + 1] == txs[..i] + [txs[i]];
      RunSnoc(old(v.View()), CallsAt(txs[..i], height), Call(txs[i], height));
      var _, _ := v.ApplyTx(txs[i], height);
    }
    assert txs[..|txs|] == txs;
  }

  // Execute the pool on the head state, filing a receipt for every permanent refusal.
  method ExecutePool(state: Contract, pool: seq<Tx>, height: int, before: map<Nonce, Receipt>)
    returns (txs: seq<Tx>, receipts: map<Nonce, Receipt>)
    modifies state
    ensures txs == Included(old(state.View()), pool, height)
    ensures receipts == Rejections(before, old(state.View()), pool, height)
  {
    ghost var v := state.View();
    txs, receipts := [], before;
    assert CallsAt([], height) == [];
    for i := 0 to |pool|
      invariant txs == Included(v, pool[..i], height)
      invariant state.View() == PoolState(v, pool[..i], height)
      invariant receipts == Rejections(before, v, pool[..i], height)
    {
      assert pool[..i + 1] == pool[..i] + [pool[i]];
      PoolStateSnoc(v, pool[..i], pool[i], height);
      RejectionsSnoc(before, v, pool[..i], pool[i], height);
      var reason, ok := state.ApplyTx(pool[i], height);
      ApplyNonces(PoolState(v, pool[..i], height), pool[i], height);
      if !ok {
        if reason != NoReason && reason != AlreadyProcessed {
          receipts := receipts[pool[i].nonce := Receipt(false, false, 0, 0, reason)];
        }
      } else {
        txs := txs + [pool[i]];
      }
    }
    assert pool[..|pool|] == pool;
  }

  // A block's transactions become final: execute them, trace them, promote their receipts.
  method FinaliseTxs(final: Contract, txs: seq<Tx>, height: int, before: map<Nonce, Receipt>)
    returns (receipts: map<Nonce, Receipt>, lines: seq<Line>)
    modifies final
    ensures final.View() == Run(old(final.View()), CallsAt(txs, height))
    ensures receipts == Promoted(before, txs) && lines == Trace(CallsAt(txs, height))
  {
    receipts, lines := before, [];
    ghost var calls := CallsAt(txs, height);
    assert calls[..0] == [];
    assert Run(final.View(), []) == final.View();
    hide Run, Apply, WriteTrace, Trace, Promoted, CallsAt;
    FinalisedNothing(before, txs, height);
    for i := 0 to |txs|
      invariant final.View() == Run(old(final.View()), calls[..i])
      invariant receipts == Promoted(before, txs[..i]) && lines == Trace(calls[..i])
    {
      var tx := txs[i];
      FinalisedSnoc(before, txs, i, height);
      RunSnoc(old(final.View()), calls[..i], Call(tx, height));
      TraceSnoc(calls[..i], Call(tx, height));
      var _, _ := final.ApplyTx(tx, height);
      lines := lines + WriteTrace(Call(tx, height));
      if tx.nonce in receipts && receipts[tx.nonce].processed {
        receipts := receipts[tx.nonce := receipts[tx.nonce].(finalized := true)];
      }
    }
    assert txs[..|txs|] == txs && calls[..|txs|] == calls;
  }

  lemma FinalisedNothing(before: map<Nonce, Receipt>, txs: seq<Tx>, height: int)
    ensures Promoted(before, txs[..0]) == before && CallsAt(txs, height)[..0] == [] && Trace([]) == []
    ensures |CallsAt(txs, height)| == |txs|
  {
  }

  lemma FinalisedSnoc(before: map<Nonce, Receipt>, txs: seq<Tx>, i: nat, height: int)
    requires i < |txs|
    ensures Promoted(before, txs[..i + 1]) == Promote(Promoted(before, txs[..i]), txs[i].nonce)
    ensures i < |CallsAt(txs, height)| && CallsAt(txs, height)[..i + 1] == CallsAt(txs, height)[..i] +
        [Call(txs[i], height)]
  {
    assert txs[..i + 1][..i] == txs[..i];
  }

  // The block that the executed pool makes, assembled from its parts.
  lemma FinalisedShape(c: Chain)
    requires c.pending != []
    ensures var f := c.pending[0];
      FinaliseOne(c) == c.(pending := c.pending[1..], history := c.history + [f], final :=
          Run(c.final, CallsAt(f.txs, f.height)),
                           receipts := Promoted(c.receipts, f.txs), finalHeight := f.height)
  {
  }

  lemma Assembled(c: Chain, hash: Hash, txs: seq<Tx>, refused: map<Nonce, Receipt>, positions: seq<nat>)
    requires txs == Included(HeadState(c), c.mempool, c.head + 1)
    requires refused == Rejections(c.receipts, HeadState(c), c.mempool, c.head + 1)
    requires positions == Positions(|c.log|, |txs|)
    ensures AddBlock(c, hash) ==
            c.(head := c.head + 1, mempool := [], pending := c.pending + [Block(c.head + 1, hash, txs, positions)],
               hashAt := c.hashAt[c.head + 1 := hash], receipts := Stamped(refused, txs, c.head + 1, hash),
               log := c.log + Events(|c.log|, txs, c.head + 1, hash), used := c.used + {hash})
  {
    hide HeadState, Included, Rejections, Positions, Stamped, Events;
  }

  lemma DropNone(log: seq<Event>)
    ensures TxsOf([]) == [] && Nonces([]) == {} && Heights([]) == {} && MarkOrphans(log, []) == log
  {
  }

  lemma DropSnoc(blocks: seq<Block>, b: Block)
    ensures TxsOf(blocks + [b]) == TxsOf(blocks) + b.txs
    ensures Heights(blocks + [b]) == Heights(blocks) + {b.height}
    ensures Nonces(TxsOf(blocks + [b])) == Nonces(TxsOf(blocks)) + Nonces(b.txs)
  {
    assert (blocks + [b])[..|blocks|] == blocks;
    HeightsSnoc(blocks, b);
    NoncesConcat(TxsOf(blocks), b.txs);
  }

  lemma MarkOrphansSnoc(log0: seq<Event>, blocks: seq<Block>, b: Block, marked: seq<Event>)
    requires |marked| == |log0|
    requires forall p | 0 <= p < |log0| ::
               marked[p] == if p in b.log then MarkOrphans(log0, blocks)[p].(kind := Orphaned)
                   else MarkOrphans(log0, blocks)[p]
    ensures marked == MarkOrphans(log0, blocks + [b])
  {
    forall p | 0 <= p < |log0| ensures InLogOf(blocks + [b], p) <==> InLogOf(blocks, p) || p in b.log {
      if InLogOf(blocks, p) {
        var k :| 0 <= k < |blocks| && p in blocks[k].log;
        assert p in (blocks + [b])[k].log;
      }
      assert (blocks + [b])[|blocks|] == b;
    }
  }

  lemma HeightsSnoc(blocks: seq<Block>, b: Block)
    ensures Heights(blocks + [b]) == Heights(blocks) + {b.height}
  {
    forall h | h in Heights(blocks) ensures h in Heights(blocks + [b]) {
      var k :| 0 <= k < |blocks| && blocks[k].height == h;
      assert (blocks + [b])[k].height == h;
    }
    assert (blocks + [b])[|blocks|] == b;
  }

  class Simulator {
    var head: int
    var finalHeight: int
    var final: Contract
    var pending: seq<Block>
    var hashAt: map<int, Hash>
    var receipts: map<Nonce, Receipt>
    var log: seq<Event>
    var number: nat
    var mempool: seq<Tx>
    var confirms: nat
    var nextDeposit: nat
    var trace: seq<Line>
    ghost var history: seq<Block>
    ghost var used: set<Hash>

    ghost function View(): Chain
      reads this, final
    {
      Chain(head, finalHeight, final.View(), pending, hashAt, receipts, log, mempool, confirms, nextDeposit,
                  history, used)
    }

    // The event counter matches the log.
    ghost predicate Valid()
      reads this`number, this`log
    {
      number == |log|
    }

    // The trace holds every finalised call, in order.
    ghost predicate Traced()
      reads this`trace, this`history
    {
      trace == Trace(AllCalls(history))
    }

    constructor (faultConfirms: int)
      ensures Valid() && Traced() && fresh(final) && View() == Genesis(faultConfirms)
    {
      head, finalHeight, pending, hashAt, receipts := 0, 0, [], map[], map[];
      log, number, mempool, nextDeposit, trace := [], 0, [], 0, [];
      confirms := if faultConfirms <= 0 then 2 else faultConfirms;
      history, used := [], {};
      final := new Contract();
    }

    // The executing state: a copy of the final state with every pending block replayed on it.
    method HeadLocked() returns (v: Contract)
      ensures fresh(v) && v.View() == HeadState(View())
    {
      v := final.Clone();
      for k := 0 to |pending|
        invariant fresh(v) && v.View() == Run(final.View(), AllCalls(pending[..k]))
      {
        var b := pending[k];
        assert pending[..k + 1] == pending[..k] + [b];
        AllCallsSnoc(pending[..k], b);
        RunConcat(final.View(), AllCalls(pending[..k]), CallsAt(b.txs, b.height));
        ExecuteAll(v, b.txs, b.height);
      }
      assert pending[..|pending|] == pending;
    }

    method Deposit(user: User, amount: int64) returns (id: Nonce)
      requires Valid()
      modifies this
      ensures Valid() && final == old(final) && trace == old(trace) && View() == UserDeposit(old(View()), user, amount)
      ensures id == DepositId(old(nextDeposit) + 1)
    {
      nextDeposit := nextDeposit + 1;
      id := DepositId(nextDeposit);
      mempool := mempool + [Tx(id, Kind.Deposit, user, amount, "", 0, 0, 0)];
    }

    method Submit(tx: Tx, fate: Fate) returns (reply: Reply)
      requires Valid()
      modifies this
      ensures Valid() && final == old(final) && trace == old(trace) &&
          (View(), reply) == SubmitTx(old(View()), tx, fate)
    {
      if tx.nonce in receipts && receipts[tx.nonce].processed {
        return InBlock(receipts[tx.nonce].hash);
      }
      var v := HeadLocked();
      if tx.nonce in v.cancelled {
        return ErrExpired;
      }
      if tx.kind != Kind.Cancel && tx.expiry > 0 && head > tx.expiry {
        return ErrExpired;
      }
      if fate == Drop {
        return ErrSubmitFailed;
      }
      mempool := mempool + [tx];
      reply := if fate == LoseReceipt then ErrSubmitFailed else Queued;
    }

    method Cancel(n: Nonce, expiry: int64) returns (inForce: bool)
      requires Valid()
      modifies this
      ensures Valid() && final == old(final) && trace == old(trace) &&
          (View(), inForce) == CancelNonce(old(View()), n, expiry)
    {
      if n in receipts && receipts[n].processed {
        return false;
      }
      var v := HeadLocked();
      if n in v.cancelled {
        return true;
      }
      if expiry == 0 || head <= expiry {
        return false;
      }
      for i := 0 to |mempool|
        invariant forall k | 0 <= k < i :: !(mempool[k].nonce == n && mempool[k].kind == Kind.Cancel)
      {
        if mempool[i].nonce == n && mempool[i].kind == Kind.Cancel {
          return false;
        }
      }
      mempool := mempool + [CancelTx(n, expiry)];
      return false;
    }

    // One orphaned block: forget its hash and receipts, mark its events.
    method DropBlock(b: Block)
      requires Valid()
      modifies this`hashAt, this`receipts, this`log
      ensures Valid() && hashAt == old(hashAt) - {b.height} && receipts == old(receipts) - Nonces(b.txs)
      ensures |log| == |old(log)| && forall p | 0 <= p < |log| ::
                log[p] == if p in b.log then old(log)[p].(kind := Orphaned) else old(log)[p]
    {
      hashAt := hashAt - {b.height};
      assert Nonces(b.txs[..0]) == {};
      for i := 0 to |b.txs|
        invariant Valid() && log == old(log) && hashAt == old(hashAt) - {b.height}
        invariant receipts == old(receipts) - Nonces(b.txs[..i])
      {
        NoncesConcat(b.txs[..i], [b.txs[i]]);
        assert b.txs[..i + 1] == b.txs[..i] + [b.txs[i]];
        assert Nonces([b.txs[i]]) == {b.txs[i].nonce};
        receipts := receipts - {b.txs[i].nonce};
      }
      assert b.txs[..|b.txs|] == b.txs;
      for i := 0 to |b.log|
        invariant Valid() && |log| == |old(log)| && receipts == old(receipts) - Nonces(b.txs)
        invariant hashAt == old(hashAt) - {b.height}
        invariant forall p | 0 <= p < |log| :: log[p] == if p in b.log[..i] then old(log)[p].(kind := Orphaned)
            else old(log)[p]
      {
        assert b.log[..i + 1] == b.log[..i] + [b.log[i]];
        if b.log[i] < |log| {
          log := log[b.log[i] := log[b.log[i]].(kind := Orphaned)];
        }
      }
      assert b.log[..|b.log|] == b.log;
    }

    method DropBlocks(orphaned: seq<Block>) returns (reinclude: seq<Tx>)
      requires Valid()
      modifies this`hashAt, this`receipts, this`log
      ensures Valid() && reinclude == TxsOf(orphaned)
      ensures hashAt == old(hashAt) - Heights(orphaned) && receipts == old(receipts) - Nonces(reinclude)
      ensures log == MarkOrphans(old(log), orphaned)
    {
      reinclude := [];
      DropNone(log);
      assert orphaned[..0] == [];
      for k := 0 to |orphaned|
        invariant Valid() && reinclude == TxsOf(orphaned[..k])
        invariant hashAt == old(hashAt) - Heights(orphaned[..k])
        invariant receipts == old(receipts) - Nonces(reinclude)
        invariant log == MarkOrphans(old(log), orphaned[..k])
      {
        var b := orphaned[k];
        assert orphaned[..k + 1] == orphaned[..k] + [b];
        DropSnoc(orphaned[..k], b);
        DropBlock(b);
        reinclude := reinclude + b.txs;
        MarkOrphansSnoc(old(log), orphaned[..k], b, log);
      }
      assert orphaned[..|orphaned|] == orphaned;
    }

    method ReorgLocked(depth: nat, picks: seq<nat>) returns (ghost shuffled: seq<Tx>)
      requires Valid() && 1 <= depth <= |pending|
      modifies this
      ensures Valid() && final == old(final) && trace == old(trace)
      ensures CanReorg(old(View()), depth, shuffled) && View() == Reorg(old(View()), depth, shuffled)
    {
      var keep := |pending| - depth;
      var reinclude := DropBlocks(pending[keep..]);
      pending := pending[..keep];
      head := head - depth;
      reinclude := Shuffle(reinclude, picks);
      shuffled := reinclude;
      mempool := reinclude + mempool;
    }

    // Stamp the receipts of the block's transactions and log their events.
    method Publish(txs: seq<Tx>, height: int, hash: Hash) returns (positions: seq<nat>)
      requires Valid()
      modifies this`receipts, this`log, this`number
      ensures Valid() && receipts == Stamped(old(receipts), txs, height, hash)
      ensures log == old(log) + Events(|old(log)|, txs, height, hash)
      ensures positions == Positions(|old(log)|, |txs|)
    {
      positions := [];
      ghost var base := |log|;
      for i := 0 to |txs|
        invariant number == |log|
        invariant receipts == Stamped(old(receipts), txs[..i], height, hash)
        invariant log == old(log) + Events(base, txs[..i], height, hash)
        invariant positions == Positions(base, i)
      {
        var tx := txs[i];
        assert txs[..i + 1][..i] == txs[..i];
        if tx.kind != Kind.Cancel {
          receipts := receipts[tx.nonce := Receipt(true, false, height, hash, NoReason)];
        }
        number := number + 1;
        positions := positions + [|log|];
        log := log + [EventOf(number, tx, height, hash)];
      }
      assert txs[..|txs|] == txs;
    }

    method ExecuteMempool() returns (txs: seq<Tx>)
      requires Valid()
      modifies this`receipts
      ensures txs == Included(HeadState(old(View())), mempool, head + 1)
      ensures receipts == Rejections(old(receipts), HeadState(old(View())), mempool, head + 1)
    {
      var state := HeadLocked();
      txs, receipts := ExecutePool(state, mempool, head + 1, receipts);
    }

    // Append the block that the pool makes.
    method MineBlock(hash: Hash)
      requires Valid() && hash !in used
      modifies this
      ensures Valid() && final == old(final) && trace == old(trace) && View() == AddBlock(old(View()), hash)
    {
      hide Included, Rejections, Stamped, HeadState, AddBlock, NextBlock, Events, Positions, Run, AllCalls, CallsAt,
           EventOf, PoolState;
      var txs := ExecuteMempool();
      ghost var refused := receipts;
      var positions := Publish(txs, head + 1, hash);
      Assembled(old(View()), hash, txs, refused, positions);
      PushBlock(Block(head + 1, hash, txs, positions));
    }

    // The new block becomes the head, and the mempool is empty.
    method PushBlock(b: Block)
      modifies this`head, this`mempool, this`hashAt, this`pending, this`used
      ensures head == b.height && mempool == [] && hashAt == old(hashAt)[b.height := b.hash]
      ensures pending == old(pending) + [b] && used == old(used) + {b.hash}
    {
      head, mempool := b.height, [];
      hashAt := hashAt[b.height := b.hash];
      pending := pending + [b];
      used := used + {b.hash};
    }

    method FinaliseOldest()
      requires Valid() && pending != []
      modifies this, final
      ensures Valid() && final == old(final) && View() == FinaliseOne(old(View()))
      ensures trace == old(trace) + Trace(CallsAt(old(pending)[0].txs, old(pending)[0].height))
    {
      hide Run, CallsAt, Promoted, Trace, FinaliseOne;
      var f := pending[0];
      FinalisedShape(View());
      var lines;
      receipts, lines := FinaliseTxs(final, f.txs, f.height, receipts);
      trace := trace + lines;
      pending := pending[1..];
      history := history + [f];
      finalHeight := f.height;
    }

    method Mine(depth: nat, picks: seq<nat>, hash: Hash) returns (ghost shuffled: seq<Tx>)
      requires Valid() && Traced() && depth <= |pending| && hash !in used
      modifies this, final
      ensures Valid() && Traced() && final == old(final)
      ensures CanMine(old(View()), depth, shuffled, hash)
      ensures View() == ChainModel.Mine(old(View()), depth, shuffled, hash)
    {
      shuffled := [];
      if depth > 0 {
        shuffled := ReorgLocked(depth, picks);
      }
      MineBlock(hash);
      ghost var mined := View();
      while |pending| > confirms
        invariant Valid() && Traced() && final == old(final) && FinaliseAll(View()) == FinaliseAll(mined)
        decreases |pending|
      {
        TraceGrows(history, pending[0]);
        FinaliseOldest();
      }
    }

    method SetFaults(newConfirms: int)
      requires Valid()
      modifies this
      ensures Valid() && final == old(final) && trace == old(trace) && View() == SetConfirms(old(View()), newConfirms)
    {
      if newConfirms > 0 {
        confirms := newConfirms;
      }
    }

    // The unreliable stream: live events after the cursor, some withheld, some doubled, in any order.
    method PollEvents(since: nat, limit: nat, gaps: seq<bool>, doubles: seq<bool>, picks: seq<nat>)
        returns (out: seq<Event>)
      requires Valid()
      ensures multiset(out) == multiset(Polled(log, since, limit, gaps, doubles, |log|))
      ensures forall e | e in out :: e in log && e.number > since && e.kind != Orphaned
    {
      out := [];
      var i := 0;
      while i < |log| && |out| < limit
        invariant 0 <= i <= |log| && out == Polled(log, since, limit, gaps, doubles, i)
      {
        var e := log[i];
        if e.number > since && e.kind != Orphaned && !Flag(gaps, i) {
          out := out + [e];
          if Flag(doubles, i) {
            out := out + [e];
          }
        }
        i := i + 1;
      }
      PollStops(log, since, limit, gaps, doubles, i, |log|);
      PolledAreLive(log, since, limit, gaps, doubles, |log|);
      hide Polled;
      var shuffled := Shuffle(out, picks);
      SameElements(shuffled, out);
      out := shuffled;
    }

    method TxStatus(n: Nonce) returns (status: Receipt)
      ensures status == ChainModel.TxStatus(View(), n)
    {
      status := if n in receipts then receipts[n] else NO_RECEIPT;
    }

    method CanonicalHash(height: int) returns (hash: Hash, known: bool)
      ensures (hash, known) == ChainModel.CanonicalHash(View(), height)
    {
      known := height in hashAt;
      hash := if known then hashAt[height] else 0;
    }

    method Expired(n: Nonce) returns (refused: bool)
      ensures refused <==> IsExpired(View(), n)
    {
      if n in receipts {
        if receipts[n].processed {
          return false;
        }
        if receipts[n].rejected == Reason.Expired {
          return true;
        }
      }
      var v := HeadLocked();
      refused := n in v.cancelled;
    }

    method FinalFacts(kind: Kind) returns (out: seq<Event>)
      ensures out == FinalizedFacts(View(), kind)
    {
      out := [];
      for i := 0 to |log|
        invariant out == FactsUpTo(View(), kind, i)
      {
        var e := log[i];
        if e.kind == Of(kind) && e.fact in receipts && receipts[e.fact].finalized && receipts[e.fact].hash == e.hash {
          out := out + [e];
        }
      }
    }
  }
}
