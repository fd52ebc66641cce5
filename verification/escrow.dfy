/** The second reconciliation: ledger collateral against on-chain escrow, market by market. Drift
    is normal; what the counter detects is drift that stands still with nobody working on it. */
module Escrow {
  import opened Integers
  import opened Sums
  import opened GoVault
  import opened ChainModel
  import opened Ledger
  import opened Store
  import opened StoreInvariants
  import opened System
  import opened SystemInvariants
  import opened Residue
  import Deposits

  const STUCK_THRESHOLD := 8

  // What one pass sees of a market: what the ledger wants, what the vault has, and whether an
  // instruction in flight would install exactly what the ledger wants.
  datatype Observation = Observation(want: int, got: int, covered: bool)

  datatype Drift = Drift(want: int, got: int, misses: nat)

  // The drift row after one issuing pass.
  function DriftAfter(row: Option<Drift>, o: Observation): Option<Drift>
  {
    if o.want == o.got then None
    else if o.covered then
      if row.None? then None else Some(Drift(o.want, o.got, 0))
    else if row.None? then Some(Drift(o.want, o.got, 0))
    else if row.value.want == o.want && row.value.got == o.got then Some(Drift(o.want, o.got, row.value.misses + 1))
    else Some(Drift(o.want, o.got, 0))
  }

  function DriftOver(passes: seq<Observation>): Option<Drift>
  {
    if passes == [] then None else DriftAfter(DriftOver(passes[..|passes| - 1]), passes[|passes| - 1])
  }

  predicate Stuck(row: Option<Drift>)
  {
    row.Some? && row.value.misses >= STUCK_THRESHOLD
  }

  // The last `k` passes all saw the same gap, with nobody working on it.
  ghost predicate StoodStill(passes: seq<Observation>, k: nat, want: int, got: int)
  {
    k <= |passes| && want != got && forall i | |passes| - k <= i < |passes| ::
        passes[i] == Observation(want, got, false)
  }

  // A row always describes the latest pass.
  lemma RowIsLatest(passes: seq<Observation>)
    requires passes != [] && DriftOver(passes).Some?
    ensures var row, last := DriftOver(passes).value, passes[|passes| - 1];
      row.want == last.want && row.got == last.got && row.want != row.got
  {
  }

  // The counter reaches k only over k identical, unequal, unattended passes.
  lemma {:induction false} MissesMeanStandstill(passes: seq<Observation>)
    requires DriftOver(passes).Some?
    ensures var row := DriftOver(passes).value; StoodStill(passes, row.misses, row.want, row.got)
    decreases |passes|
  {
    var last := |passes| - 1;
    var before := DriftOver(passes[..last]);
    RowIsLatest(passes);
    if before.Some? && DriftOver(passes).value.misses > 0 {
      MissesMeanStandstill(passes[..last]);
      forall i | |passes| - DriftOver(passes).value.misses <= i < last
        ensures passes[i] == Observation(DriftOver(passes).value.want, DriftOver(passes).value.got, false)
      {
        assert passes[..last][i] == passes[i];
      }
    }
  }

  // And it does reach k - 1 over k of them.
  lemma {:induction false} StandstillCounts(passes: seq<Observation>, k: nat, want: int, got: int)
    requires k > 0 && StoodStill(passes, k, want, got)
    ensures DriftOver(passes).Some? && DriftOver(passes).value.misses >= k - 1
    decreases k
  {
    var last := |passes| - 1;
    assert passes[last] == Observation(want, got, false);
    if k > 1 {
      forall i | last - (k - 1) <= i < last ensures passes[..last][i] == Observation(want, got, false) {
        assert passes[..last][i] == passes[i];
      }
      StandstillCounts(passes[..last], k - 1, want, got);
      RowIsLatest(passes[..last]);
      assert passes[..last][last - 1] == passes[last - 1];
    }
  }

  // The alarm is never false, and is raised at the ninth standing pass at the latest.
  lemma AlarmIsExact(passes: seq<Observation>, want: int, got: int)
    ensures Stuck(DriftOver(passes)) ==>
              StoodStill(passes, 8, DriftOver(passes).value.want, DriftOver(passes).value.got)
    ensures StoodStill(passes, 9, want, got) ==> Stuck(DriftOver(passes))
  {
    if Stuck(DriftOver(passes)) {
      MissesMeanStandstill(passes);
    }
    var k := STUCK_THRESHOLD + 1;
    if StoodStill(passes, k, want, got) {
      StandstillCounts(passes, k, want, got);
    }
  }

  // Any movement, match or cover resets it.
  lemma MovementResets(passes: seq<Observation>, o: Observation)
    requires passes != [] && (o.covered || o.want == o.got || o.want != passes[|passes| - 1].want ||
        o.got != passes[|passes| - 1].got)
    ensures DriftOver(passes + [o]).Some? ==> DriftOver(passes + [o]).value.misses == 0
  {
    assert (passes + [o])[..|passes|] == passes;
    if DriftOver(passes).Some? {
      RowIsLatest(passes);
    }
  }

  // The life of a row: it appears with a gap nobody works on, at zero; it stays while the gap does, back
  // at zero when somebody works on it; and it goes when the two sides agree.
  lemma RowLife(passes: seq<Observation>, o: Observation)
    ensures var before, after := DriftOver(passes), DriftOver(passes + [o]);
      && (o.want == o.got ==> after.None?)
      && (before.None? && o.want != o.got ==> after == if o.covered then None else Some(Drift(o.want, o.got, 0)))
      && (before.Some? && o.want != o.got ==> after.Some? && after.value.want == o.want && after.value.got == o.got)
      && (before.Some? && o.want != o.got && !o.covered && before.value == Drift(o.want, o.got, before.value.misses) ==>
            after.value.misses == before.value.misses + 1)
  {
    assert (passes + [o])[..|passes|] == passes;
  }

  /* ----- the custody guard ----- */

  // No call the engine makes carries a negative target, so the finalised vault is sound.
  lemma {:induction false} TargetsOf(s: Sys, blocks: seq<Block>)
    requires Inv(s) && forall k | 0 <= k < |blocks| :: blocks[k] in Canon(s.chain)
    ensures NonNegativeTargets(AllCalls(blocks))
    decreases |blocks|
  {
    if blocks != [] {
      var last := |blocks| - 1;
      TargetsOf(s, blocks[..last]);
      var b := blocks[last];
      forall i | 0 <= i < |CallsAt(b.txs, b.height)| ensures CallsAt(b.txs, b.height)[i].tx.target >= 0 {
        var k :| 0 <= k < |Canon(s.chain)| && Canon(s.chain)[k] == b;
        HeldInBlock(s.chain, k, i);
        TargetNonNegative(s, b.txs[i]);
      }
    }
  }

  lemma TargetNonNegative(s: Sys, t: Tx)
    requires Inv(s) && t in Deposits.Held(s.chain)
    ensures t.target >= 0
  {
    assert KnownTx(t, s.db, s.chain.nextDeposit);
    if t.nonce.IntentId? {
      assert IntentRow(s.db, t.nonce);
    }
  }

  lemma FinalVaultIsSound(s: Sys)
    requires Inv(s)
    ensures GoVault.Sound(s.chain.final, FinalCustody(s))
  {
    forall k | 0 <= k < |s.chain.history| ensures s.chain.history[k] in Canon(s.chain) {
      assert Canon(s.chain)[k] == s.chain.history[k];
    }
    TargetsOf(s, s.chain.history);
    RunKeepsSound(AllCalls(s.chain.history));
  }

  ghost function LiveMarkets(db: Db): set<Market>
  {
    set m | m in db.markets && db.markets[m].state != MarketClosed
  }

  // Escrow never exceeds custody, over whatever set of markets is summed, and so the guard that it
  // does never fires while custody fits 64 bits; and a market settled in the ledger holds no finalised
  // escrow and has no open position.
  lemma EscrowWithinCustody(s: Sys, live: set<Market>)
    requires Inv(s)
    ensures 0 <= Sum(Only(s.chain.final.escrow, live)) <= FinalCustody(s)
    ensures FinalCustody(s) <= MAX_INT64 ==> s.chain.final.balance == FinalCustody(s)
    ensures forall m | m in s.db.markets && s.db.markets[m].state == MarketClosed ::
              EscrowOf(s.chain.final, m) == 0 && OpenIn(s.db, m) == {}
  {
    var v := s.chain.final;
    FinalVaultIsSound(s);
    SumSplit(v.escrow, live);
    var rest := v.escrow - live;
    assert forall m | m in rest :: rest[m] == v.escrow[m];
    SumNonNegative(rest);
    SumNonNegative(Only(v.escrow, live));
    forall m | m in s.db.markets && s.db.markets[m].state == MarketClosed
      ensures EscrowOf(v, m) == 0 && OpenIn(s.db, m) == {}
    {
      assert m in v.settled;
      assert forall p | p in s.db.positions :: PositionRow(s.db, p);
    }
  }
}
