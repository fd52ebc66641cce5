/** What becomes of an escrow instruction. It holds no funds, so the resolver gives it up by height
    alone; by a bound it is confirmed or given up, after which the worker can instruct the market
    anew, and once it is final the vault holds what it was told to hold. */
module EscrowResolution {
  import opened Integers
  import opened GoVault
  import opened ChainModel
  import opened ChainBlocks
  import opened ChainInvariants
  import opened Store
  import opened StoreInvariants
  import opened System
  import opened SystemInvariants
  import opened SystemRefunds
  import opened Engine
  import opened Resolution
  import opened EscrowTick

  ghost predicate InstructionOf(s: Sys, n: Nonce)
  {
    n in s.db.intents && s.db.intents[n].kind == EscrowSet
  }

  /* ----- one visit ----- */

  // What a visit makes of the row of an instruction in flight.
  ghost function Visited(s: Sys, n: Nonce): Intent
    requires n in s.db.intents
  {
    var i, st := s.db.intents[n], TxStatus(s.chain, n);
    if st.finalized then i.(state := StateConfirmed, height := st.height, hash := st.hash)
    else if !st.processed && s.chain.head > i.expiry then i.(state := StateExpired)
    else i
  }

  // Final: confirmed. Not on the chain and past its expiry: given up, whatever the clock says. Else
  // left alone. Nothing but the row changes.
  lemma EscrowVisit(s: Sys, n: Nonce, late: bool)
    requires Inv(s) && InstructionOf(s, n) && InFlight(s.db.intents[n])
    ensures Resolve(s, n, late) == s.(db := s.db.(intents := s.db.intents[n := Visited(s, n)]))
    ensures GoesOn(ResolveAnswer(s, n, late))
  {
    hide Inv, DbInv, Shaped, ChainInv, Confirm, Expire, TruthfulAbout, IntentRow, CancelNonce, IsExpired;
    var st := TxStatus(s.chain, n);
    PartsOf(s);
    IntentOf(s, n);
    InstructionExpires(s.db, n);
    FinalIsProcessed(s.chain, n);
    ConfirmEscrow(s.db, n, st.height, st.hash);
    ExpireEscrow(s.db, n, s.chain.head);
    assert s.db.intents == s.db.intents[n := s.db.intents[n]];
  }

  lemma InstructionExpires(db: Db, n: Nonce)
    requires n in db.intents && IntentRow(db, n) && db.intents[n].kind == EscrowSet
    ensures db.intents[n].expiry > 0
  {
  }

  // A settlement is never given up: until it is final a visit does nothing.
  lemma SettlementVisit(s: Sys, n: Nonce, late: bool)
    requires Inv(s) && n in s.db.intents && InFlight(s.db.intents[n]) && s.db.intents[n].kind == SettleMarket
    ensures !TxStatus(s.chain, n).finalized ==> Resolve(s, n, late) == s
    ensures TxStatus(s.chain, n).finalized ==>
              Resolve(s, n, late).chain == s.chain && Resolve(s, n, late).db ==
              Confirm(s.db, n, TxStatus(s.chain, n).height, TxStatus(s.chain, n).hash).0
  {
    hide Inv, DbInv, Shaped, ChainInv, Confirm, Expire, TruthfulAbout, IntentRow, CancelNonce, IsExpired;
    PartsOf(s);
    IntentOf(s, n);
    FinalIsProcessed(s.chain, n);
    ExpireNothing(s.db, n, s.chain.head);
  }

  /* ----- one pass ----- */

  lemma {:induction false} AlongThePass(s: Sys, queue: seq<Nonce>, late: set<Nonce>, n: Nonce, i: nat)
    requires Inv(s) && IsQueue(s.db, queue) && i <= |queue| && InstructionOf(s, n) && InFlight(s.db.intents[n])
    ensures var s' := ResolveAll(s, queue[..i], late);
      && Inv(s') && s'.chain == s.chain.(mempool := s'.chain.mempool) && n in s'.db.intents
      && s'.db.intents[n] == if n in queue[..i] then Visited(s, n) else s.db.intents[n]
    decreases i
  {
    hide Inv, Resolve, HeadState, SameGround;
    PassState(s, queue, late, i);
    if i > 0 {
      AlongThePass(s, queue, late, n, i - 1);
      PassState(s, queue, late, i - 1);
      var m, rest := queue[i - 1], queue[..i - 1];
      var before := ResolveAll(s, rest, late);
      assert queue[..i] == rest + [m] && (rest + [m])[..i - 1] == rest;
      assert m !in rest && m in before.db.intents && before.db.intents[m] == s.db.intents[m];
      VisitOnlyQueues(before, m, m in late);
      if m == n {
        EscrowVisit(before, n, n in late);
      } else {
        OtherRowKept(before, m, m in late, n);
      }
    }
  }

  lemma VisitOnlyQueues(s: Sys, n: Nonce, late: bool)
    requires n in s.db.intents
    ensures Resolve(s, n, late).chain == s.chain.(mempool := Resolve(s, n, late).chain.mempool)
  {
    hide Confirm, Expire, IsExpired, HeadState;
  }

  // An instruction lands no later than its expiry height.
  lemma InstructionLandsInTime(s: Sys, n: Nonce)
    requires Inv(s) && InstructionOf(s, n) && Site(Canon(s.chain), n) >= 0
    ensures Site(Canon(s.chain), n) + 1 <= s.db.intents[n].expiry
  {
    var c := s.chain;
    hide Inv, DbInv, Site;
    PartsOf(s);
    IntentOf(s, n);
    SiteLanded(Canon(c), n);
    var k := Site(Canon(c), n);
    var txs := Canon(c)[k].txs;
    var j :| 0 <= j < |txs| && txs[j].nonce == n && txs[j].kind != Cancel;
    HeldInBlock(c, k, j);
    KnownOf(s, txs[j]);
    var at := CallOfBlock(Canon(c), k, j);
    AcceptedCall(EMPTY, AllCalls(Canon(c)), at);
  }

  // On the chain but not final: then head is not yet as far past the expiry as finality takes.
  lemma PendingIsEarly(s: Sys, n: Nonce)
    requires Inv(s) && InstructionOf(s, n) && |s.chain.pending| <= s.chain.confirms
    requires TxStatus(s.chain, n).processed && !TxStatus(s.chain, n).finalized
    ensures s.chain.head < s.db.intents[n].expiry + s.chain.confirms
  {
    assert TruthfulAbout(s.chain, n);
    InstructionLandsInTime(s, n);
  }

  // A pass whose older visits find room gives every instruction past expiry + Confirms its end, in
  // any state the system can reach after a block, whatever reorgs came before.
  lemma PassEndsInstruction(s: Sys, queue: seq<Nonce>, late: set<Nonce>, visits: nat, n: Nonce)
    requires Inv(s) && IsPass(s, queue, late, visits) && InstructionOf(s, n) && InFlight(s.db.intents[n])
    requires ClearFor(s, queue, late, n)
    ensures var s' := ResolveAll(s, queue[..visits], late);
      && Inv(s') && n in s'.db.intents && s'.db.intents[n] == Visited(s, n) && s'.chain.head == s.chain.head
      && (|s.chain.pending| <= s.chain.confirms && s.chain.head >= s.db.intents[n].expiry + s.chain.confirms ==>
            !InFlight(s'.db.intents[n]))
  {
    hide Inv, ClearFor, OwnAnswer, ResolveAll, Smooth;
    assert n in Waiting(s.db) && n in queue;
    ServedIfClear(s, queue, late, visits, n);
    AlongThePass(s, queue, late, n, visits);
    ConfirmsArePositive(s);
    if TxStatus(s.chain, n).processed && !TxStatus(s.chain, n).finalized && |s.chain.pending| <= s.chain.confirms {
      PendingIsEarly(s, n);
    }
  }

  lemma ConfirmsArePositive(s: Sys)
    requires Inv(s)
    ensures s.chain.confirms >= 1
  {
  }

  /* ----- rounds ----- */

  // The measure: past expiry + Confirms there is no such instruction in flight.
  ghost predicate InTime(s: Sys, n: Nonce)
    requires n in s.db.intents
  {
    InFlight(s.db.intents[n]) ==> s.chain.head < s.db.intents[n].expiry + s.chain.confirms
  }

  lemma {:induction false} QuietRunInTime(s: Sys, steps: seq<Step>, n: Nonce)
    requires Inv(s) && IsTrace(s, steps) && AllQuiet(steps) && n in s.db.intents
    ensures var s' := Final(s, steps);
      && Inv(s') && n in s'.db.intents && MayBecome(s.db.intents[n], s'.db.intents[n])
      && s'.chain.head == s.chain.head && s'.chain.confirms == s.chain.confirms
    decreases |steps|
  {
    hide Inv, Next, Allowed;
    if steps != [] {
      assert Quiet(steps[0]);
      StepKeeps(s, steps[0]);
      StepProgress(s, steps[0]);
      MempoolGrows(s, steps[0]);
      CanonHeadFrame(s, steps[0]);
      QuietRunInTime(Next(s, steps[0]), steps[1..], n);
    }
  }

  lemma PassInTime(s: Sys, queue: seq<Nonce>, late: set<Nonce>, visits: nat, n: Nonce)
    requires Inv(s) && IsPass(s, queue, late, visits) && InstructionOf(s, n) && |s.chain.pending| <= s.chain.confirms
    requires n in queue ==> ClearFor(s, queue, late, n)
    ensures var s' := ResolveAll(s, queue[..visits], late);
      && Inv(s') && InstructionOf(s', n) && s'.db.intents[n].expiry == s.db.intents[n].expiry
      && SameGround(s.chain, s'.chain) && InTime(s', n)
  {
    hide Inv, ClearFor, ResolveAll, Smooth, HeadState, SameGround, StillQueued;
    PassState(s, queue, late, visits);
    if InFlight(s.db.intents[n]) {
      assert n in Waiting(s.db) && n in queue;
      PassEndsInstruction(s, queue, late, visits, n);
      GroundKeepsConfirms(s.chain, ResolveAll(s, queue[..visits], late).chain);
    } else {
      EndedStays(s, queue, late, visits, n);
    }
  }

  lemma GroundKeepsConfirms(c: Chain, c': Chain)
    requires SameGround(c, c')
    ensures c'.confirms == c.confirms && c'.head == c.head
  {
  }

  // What has ended is not visited.
  lemma {:induction false} EndedStays(s: Sys, queue: seq<Nonce>, late: set<Nonce>, i: nat, n: Nonce)
    requires Inv(s) && IsQueue(s.db, queue) && i <= |queue| && n in s.db.intents && !InFlight(s.db.intents[n])
    ensures var s' := ResolveAll(s, queue[..i], late); n in s'.db.intents && s'.db.intents[n] == s.db.intents[n]
    decreases i
  {
    hide Inv, Resolve, HeadState, SameGround;
    if i > 0 {
      EndedStays(s, queue, late, i - 1, n);
      PassState(s, queue, late, i - 1);
      assert queue[..i][..i - 1] == queue[..i - 1];
      OtherRowKept(ResolveAll(s, queue[..i - 1], late), queue[i - 1], queue[i - 1] in late, n);
    }
  }

  lemma RoundInTime(s: Sys, r: Round, n: Nonce)
    requires Inv(s) && IsRound(s, r) && ClearRound(s, r, n) && InstructionOf(s, n)
    ensures var s' := AfterRound(s, r);
      && Inv(s') && InstructionOf(s', n) && s'.db.intents[n].expiry == s.db.intents[n].expiry && InTime(s', n)
      && s'.chain.confirms == s.chain.confirms && s'.chain.head == s.chain.head + 1
  {
    QuietRunInTime(s, r.steps, n);
    var s1, s2 := Final(s, r.steps), Mined(s, r);
    MinesKeeps(s1, 0, [], r.hash);
    assert ChainInv(s1.chain);
    HeadAfterBlock(s1.chain, r.hash);
    hide Inv, ChainInv, Mine, HeadState, InTime;
    PassInTime(s2, r.queue, r.late, r.visits, n);
    GroundKeepsConfirms(s2.chain, AfterRound(s, r).chain);
  }

  // Every instruction is confirmed or given up by the round in which head reaches expiry + Confirms,
  // if in every pass before that the older intents found room.
  lemma {:induction false} InstructionsResolve(s: Sys, rounds: seq<Round>, n: Nonce)
    requires Inv(s) && AreRounds(s, rounds) && InstructionOf(s, n) && InTime(s, n)
    ensures AllClear(s, rounds, n) ==>
              var s' := AfterRounds(s, rounds);
              && Inv(s') && InstructionOf(s', n) && s'.chain.head == s.chain.head + |rounds|
              && (s'.chain.head >= s.db.intents[n].expiry + s.chain.confirms ==> !InFlight(s'.db.intents[n]))
    decreases |rounds|
  {
    hide Inv, IsRound, ClearRound, AfterRound;
    if rounds != [] && ClearRound(s, rounds[0], n) {
      RoundInTime(s, rounds[0], n);
      InstructionsResolve(AfterRound(s, rounds[0]), rounds[1..], n);
    }
  }

  // A new instruction is in time, with six blocks to its expiry.
  lemma FreshInstructionIsInTime(s: Sys, id: Nonce, market: Market, target: int64, expiry: int64)
    requires Inv(s) && Allowed(s, RequestsEscrow(id, market, target, expiry)) && !EscrowInFlight(s.db, market)
    ensures var s' := Next(s, RequestsEscrow(id, market, target, expiry));
      && InstructionOf(s', id) && InFlight(s'.db.intents[id]) && InTime(s', id)
      && s'.db.intents[id].expiry == s.chain.head + 6 && s'.db.intents[id].amount == Collateral(s.db, market)
  {
    hide Inv, EscrowInFlight;
    ConfirmsArePositive(s);
    EscrowRequestAdds(s.db, id, market, target, expiry);
  }

  lemma EscrowRequestAdds(db: Db, id: Nonce, market: Market, target: int64, expiry: int64)
    requires !EscrowInFlight(db, market)
    ensures var db' := RequestEscrowSet(db, id, market, target, expiry);
      id in db'.intents && db'.intents[id] ==
          Intent(EscrowSet, "", market, target, StateReserved, expiry, 0, 0, |db.intents|)
  {
    hide EscrowInFlight;
  }
}
