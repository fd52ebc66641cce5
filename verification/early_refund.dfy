/** The engine refunds on head state, and three pending blocks are enough to take that state back.
    This module runs the engine, from genesis, into paying one withdrawal twice. */
module EarlyRefund {
  import opened Integers
  import opened Sums
  import opened GoVault
  import opened ChainModel
  import opened ChainBlocks
  import opened ChainInvariants
  import opened Accounts
  import opened Ledger
  import opened Store
  import opened StoreInvariants
  import opened System
  import opened SystemInvariants
  import opened Residue
  import opened SystemRefunds
  import Refunds

  /* ----- runs, one step at a time ----- */

  // These steps, from genesis with three confirmations and with no money from outside, lead here.
  ghost predicate Reaches(steps: seq<Step>, s: Sys)
  {
    IsTrace(Start(3), steps) && Final(Start(3), steps) == s && Legitimate(steps) && Inv(s)
  }

  lemma {:induction false} TraceSnoc(s: Sys, steps: seq<Step>, step: Step)
    requires IsTrace(s, steps) && Allowed(Final(s, steps), step)
    ensures IsTrace(s, steps + [step]) && Final(s, steps + [step]) == Next(Final(s, steps), step)
    decreases |steps|
  {
    hide Allowed, Next;
    if steps == [] {
      assert [step][1..] == [] && steps + [step] == [step];
      assert IsTrace(Next(s, step), []);
    } else {
      assert (steps + [step])[1..] == steps[1..] + [step];
      TraceSnoc(Next(s, steps[0]), steps[1..], step);
    }
  }

  lemma Extend(steps: seq<Step>, s: Sys, step: Step)
    requires Reaches(steps, s) && Allowed(s, step) && !step.PostsOutside?
    ensures Reaches(steps + [step], Next(s, step))
  {
    hide Inv, Allowed, Next;
    TraceSnoc(Start(3), steps, step);
    StepKeeps(s, step);
  }

  lemma ReachesRun(steps: seq<Step>, s: Sys)
    requires Reaches(steps, s)
    ensures IsTrace(Start(3), steps) && Final(Start(3), steps) == s && Legitimate(steps)
  {
    hide Inv;
  }

  lemma Deposited(steps: seq<Step>, s: Sys, user: User, amount: int64)
    requires Reaches(steps, s)
    ensures Reaches(steps + [Deposits(user, amount)], s.(chain := UserDeposit(s.chain, user, amount)))
  {
    hide Reaches, UserDeposit;
    Extend(steps, s, Deposits(user, amount));
  }

  lemma MinedOn(steps: seq<Step>, s: Sys, depth: nat, shuffled: seq<Tx>, hash: Hash)
    requires Reaches(steps, s) && CanMine(s.chain, depth, shuffled, hash)
    ensures Reaches(steps + [Mines(depth, shuffled, hash)], s.(chain := Mine(s.chain, depth, shuffled, hash)))
  {
    hide Reaches, Mine;
    Extend(steps, s, Mines(depth, shuffled, hash));
  }

  lemma Copied(steps: seq<Step>, s: Sys, position: nat)
    requires Reaches(steps, s) && position < |s.chain.log| && s.chain.log[position].kind.Of?
    ensures var ev := s.chain.log[position];
      Reaches(steps + [Polls(position), Records(ev)], s.(polled := s.polled + {ev}, db := RecordEvent(s.db, ev)))
  {
    hide Reaches, RecordEvent;
    var ev := s.chain.log[position];
    Extend(steps, s, Polls(position));
    Extend(steps + [Polls(position)], s.(polled := s.polled + {ev}), Records(ev));
    assert steps + [Polls(position)] + [Records(ev)] == steps + [Polls(position), Records(ev)];
  }

  lemma AppliedTo(steps: seq<Step>, s: Sys, e: EventId)
    requires Reaches(steps, s) && e in s.db.events && s.db.events[e].kind == Deposit
    ensures Reaches(steps + [Applies(e)], s.(db := ApplyDeposit(s.db, e).0))
  {
    hide Reaches, ApplyDeposit;
    Extend(steps, s, Applies(e));
  }

  lemma Requested(steps: seq<Step>, s: Sys, id: Nonce, user: User, amount: int64, expiry: int64)
    requires Reaches(steps, s) && FreshIntent(s, id) && expiry == s.chain.head + WITHDRAW_EXPIRY_BLOCKS
    ensures Reaches(steps + [RequestsWithdraw(id, user, amount, "", expiry)],
                    s.(db := RequestWithdraw(s.db, id, user, amount, "", expiry).0))
  {
    hide Reaches, RequestWithdraw;
    Extend(steps, s, RequestsWithdraw(id, user, amount, "", expiry));
  }

  lemma Submitted(steps: seq<Step>, s: Sys, n: Nonce)
    requires Reaches(steps, s) && n in s.db.outbox
    ensures Reaches(steps + [Submits(n, Deliver)], s.(chain := SubmitTx(s.chain, s.db.outbox[n], Deliver).0))
  {
    hide Reaches, SubmitTx;
    Extend(steps, s, Submits(n, Deliver));
  }

  lemma ResolvedOnce(steps: seq<Step>, s: Sys, n: Nonce)
    requires Reaches(steps, s) && n in s.db.intents && InFlight(s.db.intents[n])
    ensures Reaches(steps + [Resolves(n, false)], Resolve(s, n, false))
  {
    hide Reaches, Resolve;
    Extend(steps, s, Resolves(n, false));
  }

  lemma Begin()
    ensures Reaches([], Start(3))
  {
    StartSound(3);
    hide Inv;
  }

  /* ----- one block ----- */

  // Finality after one more block on a chain that was as deep as finality allows.
  lemma FinalityAfterBlock(c: Chain)
    requires |c.pending| <= c.confirms + 1
    ensures var c' := FinaliseAll(c);
      && c'.head == c.head && c'.mempool == c.mempool && c'.confirms == c.confirms
      && c'.pending == if |c.pending| <= c.confirms then c.pending else c.pending[1..]
  {
    if |c.pending| > c.confirms {
      assert FinaliseAll(FinaliseOne(c)) == FinaliseOne(c);
    }
  }

  // Mining without a reorg.
  lemma Mined(c: Chain, hash: Hash)
    requires ChainInv(c) && hash !in c.used && |c.pending| <= c.confirms
    ensures var c', b := Mine(c, 0, [], hash), NextBlock(c, hash);
      && ChainInv(c') && Canon(c') == Canon(c) + [b]
      && c'.head == c.head + 1 && c'.mempool == [] && c'.confirms == c.confirms
      && c'.pending == if |c.pending| < c.confirms then c.pending + [b] else (c.pending + [b])[1..]
  {
    MineKeeps(c, 0, [], hash);
    AddBlockKeeps(c, hash);
    AddBlockCanon(c, hash);
    hide ChainInv, NextBlock;
    FinaliseAllKeeps(AddBlock(c, hash));
    FinalityAfterBlock(AddBlock(c, hash));
    hide FinaliseAll;
  }

  lemma MinedState(c: Chain, hash: Hash)
    requires ChainInv(c) && hash !in c.used && |c.pending| <= c.confirms
    ensures var b := NextBlock(c, hash); HeadState(Mine(c, 0, [], hash)) == Run(HeadState(c), CallsAt(b.txs, b.height))
  {
    var c', b := Mine(c, 0, [], hash), NextBlock(c, hash);
    Mined(c, hash);
    HeadIsFullReplay(c);
    HeadIsFullReplay(c');
    hide ChainInv, HeadState, NextBlock, Mine, Canon;
    AllCallsSnoc(Canon(c), b);
    RunConcat(EMPTY, AllCalls(Canon(c)), CallsAt(b.txs, b.height));
  }

  // Where the next block finds nothing to execute, or everything refused, the state stays.
  lemma NothingMined(c: Chain, hash: Hash)
    requires ChainInv(c) && hash !in c.used && |c.pending| <= c.confirms
    requires Included(HeadState(c), c.mempool, c.head + 1) == []
    ensures NextBlock(c, hash).txs == [] && HeadState(Mine(c, 0, [], hash)) == HeadState(c)
  {
    assert NextBlock(c, hash).txs == [];
    hide ChainInv, HeadState, NextBlock, Mine, Included;
    MinedState(c, hash);
    assert CallsAt([], NextBlock(c, hash).height) == [];
  }

  lemma PoolOfOne(v: Vault, t: Tx, height: int)
    ensures Included(v, [t], height) == if Apply(v, t, height).ok then [t] else []
  {
    assert [t][..0] == [];
    PoolStateSnoc(v, [], t, height);
    assert [] + [t] == [t];
  }

  lemma RunOfOne(v: Vault, t: Tx, height: int)
    ensures Run(v, CallsAt([t], height)) == Apply(v, t, height).vault
  {
    CallsAtSnoc([], t, height);
    assert [] + [t] == [t] && CallsAt([], height) == [];
    RunSnoc(v, [], Call(t, height));
    assert [] + [Call(t, height)] == [Call(t, height)];
  }

  /* ----- quiet stretches ----- */

  // At most three blocks, the last `quiet` of them, as far as they are there, empty.
  ghost predicate QuietTail(blocks: seq<Block>, quiet: nat)
  {
    && |blocks| <= 3 && (quiet <= |blocks| || |blocks| == 3)
    && forall i | 0 <= i < |blocks| && |blocks| - quiet <= i :: blocks[i].txs == []
  }

  // Nothing waits to be mined, and the last blocks carried nothing.
  ghost predicate Idle(c: Chain, v: Vault, quiet: nat)
  {
    c.confirms == 3 && c.mempool == [] && QuietTail(c.pending, quiet) && HeadState(c) == v
  }

  // The first block of the chain, and a nonce the chain has not heard of.
  ghost predicate Rooted(c: Chain, root: Hash)
  {
    |Canon(c)| > 0 && Canon(c)[0].hash == root
  }

  lemma EmptyPoolReceipts(c: Chain, hash: Hash, n: Nonce)
    requires c.mempool == [] && hash !in c.used
    ensures n in Mine(c, 0, [], hash).receipts <==> n in c.receipts
  {
    assert Included(HeadState(c), [], c.head + 1) == [];
    assert AddBlock(c, hash).receipts == c.receipts;
    FinaliseAllReceipts(AddBlock(c, hash), n);
  }

  lemma {:induction false} FinaliseAllReceipts(c: Chain, n: Nonce)
    ensures n in FinaliseAll(c).receipts <==> n in c.receipts
    decreases |c.pending|
  {
    if |c.pending| > c.confirms {
      PromotedReceipt(c.receipts, c.pending[0].txs, n);
      FinaliseAllReceipts(FinaliseOne(c), n);
    }
  }

  lemma IdleBlock(c: Chain, v: Vault, quiet: nat, root: Hash, hash: Hash)
    requires ChainInv(c) && Idle(c, v, quiet) && Rooted(c, root) && hash !in c.used
    ensures var c' := Mine(c, 0, [], hash);
      Idle(c', v, quiet + 1) && Rooted(c', root) && c'.head == c.head + 1 && c'.receipts.Keys == c.receipts.Keys
  {
    assert Included(HeadState(c), [], c.head + 1) == [];
    hide ChainInv, HeadState, Mine, NextBlock, Included, QuietTail, AddBlock, FinaliseAll, Rooted, Canon;
    SameReceipts(c, hash);
    Mined(c, hash);
    NothingMined(c, hash);
    RootedStays(c, root, hash);
    QuietGrows(c.pending, quiet, NextBlock(c, hash));
  }

  lemma SameReceipts(c: Chain, hash: Hash)
    requires c.mempool == [] && hash !in c.used
    ensures Mine(c, 0, [], hash).receipts.Keys == c.receipts.Keys
  {
    forall n ensures n in Mine(c, 0, [], hash).receipts <==> n in c.receipts {
      EmptyPoolReceipts(c, hash, n);
    }
  }

  lemma QuietGrows(blocks: seq<Block>, quiet: nat, b: Block)
    requires QuietTail(blocks, quiet) && b.txs == []
    ensures QuietTail(if |blocks| < 3 then blocks + [b] else (blocks + [b])[1..], quiet + 1)
  {
  }

  lemma IdleStep(steps: seq<Step>, s: Sys, v: Vault, quiet: nat, root: Hash) returns (steps': seq<Step>, s': Sys)
    requires Reaches(steps, s) && Idle(s.chain, v, quiet) && Rooted(s.chain, root)
    ensures Reaches(steps', s') && Idle(s'.chain, v, quiet + 1) && Rooted(s'.chain, root)
    ensures s'.db == s.db && s'.chain.head == s.chain.head + 1 && s'.chain.receipts.Keys == s.chain.receipts.Keys
  {
    var hash := Refunds.FreshHash(s.chain.used);
    hide Reaches, Inv, Mine, Idle, Rooted, ChainInv;
    ReachesInv(steps, s);
    PartsOf(s);
    IdleBlock(s.chain, v, quiet, root, hash);
    MinedOn(steps, s, 0, [], hash);
    steps', s' := steps + [Mines(0, [], hash)], s.(chain := Mine(s.chain, 0, [], hash));
  }

  // As many empty blocks as one likes.
  lemma {:induction false} IdleBlocks(steps: seq<Step>, s: Sys, v: Vault, quiet: nat, root: Hash, n: nat)
    returns (steps': seq<Step>, s': Sys)
    requires Reaches(steps, s) && Idle(s.chain, v, quiet) && Rooted(s.chain, root)
    ensures Reaches(steps', s') && Idle(s'.chain, v, quiet + n) && Rooted(s'.chain, root)
    ensures s'.db == s.db && s'.chain.head == s.chain.head + n && s'.chain.receipts.Keys == s.chain.receipts.Keys
    decreases n
  {
    hide Reaches, Idle, Rooted;
    steps', s' := steps, s;
    if n > 0 {
      steps', s' := IdleBlocks(steps, s, v, quiet, root, n - 1);
      steps', s' := IdleStep(steps', s', v, quiet + n - 1, root);
    }
  }

  // With every pending block empty, final state is head state.
  lemma IdleIsFinal(c: Chain, v: Vault, quiet: nat)
    requires Idle(c, v, quiet) && quiet >= 3
    ensures c.final == v && |c.pending| == 3 && forall i | 0 <= i < 3 :: c.pending[i].txs == []
  {
    Refunds.NoCalls(c.pending);
  }

  /* ----- the money comes in ----- */

  function Payment(user: User, amount: int64): Tx
  {
    Tx(DepositId(1), Deposit, user, amount, "", 0, 0, 0)
  }

  // The vault that holds one deposit and nothing else.
  function Funded(amount: int64): Vault
  {
    Vault(amount, map[], {}, {DepositId(1)}, {})
  }

  // The first block to carry anything carries the one transaction that waits.
  lemma FirstBlock(c: Chain, t: Tx, hash: Hash)
    requires c.mempool == [t] && Apply(HeadState(c), t, c.head + 1).ok && t.kind != Cancel && c.receipts == map[] &&
        c.log == []
    ensures var b, c' := NextBlock(c, hash), AddBlock(c, hash);
      b.txs == [t] && b.height == c.head + 1 && b.hash == hash &&
      c'.log == [EventOf(1, t, c.head + 1, hash)] && c'.receipts.Keys == {t.nonce} &&
      Run(HeadState(c), CallsAt(b.txs, b.height)) == Apply(HeadState(c), t, c.head + 1).vault
  {
    var v, height := HeadState(c), c.head + 1;
    hide HeadState, Apply, Run;
    PoolOfOne(v, t, height);
    RunOfOne(v, t, height);
    RejectionsSnoc(map[], v, [], t, height);
    assert [] + [t] == [t] && [t][..0] == [];
    PoolStateOfNothing(v, height);
    assert Rejections(map[], v, [t], height) == map[];
    assert Stamped(map[], [t][..0], height, hash) == map[];
    assert Stamped(map[], [t], height, hash) == map[][t.nonce := Receipt(true, false, height, hash, NoReason)];
    hide Included, Rejections;
    assert Events(0, [t], height, hash) == [EventOf(1, t, height, hash)];
  }

  lemma PoolStateOfNothing(v: Vault, height: int)
    ensures PoolState(v, [], height) == v
  {
    assert CallsAt([], height) == [];
  }

  // The chain of the first deposit, before its block.
  lemma Waiting(s: Sys, user: User, amount: int64) returns (s': Sys)
    requires s == Start(3) && amount > 0
    ensures s' == s.(chain := UserDeposit(s.chain, user, amount)) && s'.db == EMPTY_DB
    ensures var c, t := s'.chain, Payment(user, amount);
      && c.mempool == [t] && c.receipts == map[] && c.log == [] && c.pending == [] && c.history == [] && c.head == 0
      && c.confirms == 3 && c.used == {} && HeadState(c) == EMPTY
      && Apply(EMPTY, t, 1).ok && Apply(EMPTY, t, 1).vault == Funded(amount)
  {
    s' := s.(chain := UserDeposit(s.chain, user, amount));
  }

  lemma Fund(user: User, amount: int64) returns (steps: seq<Step>, s: Sys)
    requires amount > 0
    ensures Reaches(steps, s) && s.db == EMPTY_DB && s.chain.head == 1
    ensures Idle(s.chain, Funded(amount), 0) && Rooted(s.chain, 0)
    ensures s.chain.receipts.Keys == {DepositId(1)} && s.chain.log == [EventOf(1, Payment(user, amount), 1, 0)]
  {
    var hash := 0;
    hide Inv, ChainInv, Reaches, Start, UserDeposit, Apply, HeadState, AddBlock, NextBlock, Mine, Run;
    Begin();
    Deposited([], Start(3), user, amount);
    var s1 := Waiting(Start(3), user, amount);
    var steps1 := [] + [Deposits(user, amount)];
    ReachesInv(steps1, s1);
    PartsOf(s1);
    FirstBlock(s1.chain, Payment(user, amount), hash);
    Mined(s1.chain, hash);
    MinedState(s1.chain, hash);
    OneBlockIsPending(s1.chain, hash);
    MinedOn(steps1, s1, 0, [], hash);
    steps, s := steps1 + [Mines(0, [], hash)], s1.(chain := Mine(s1.chain, 0, [], hash));
  }

  lemma ReachesInv(steps: seq<Step>, s: Sys)
    requires Reaches(steps, s)
    ensures Inv(s) && s.db.outside == 0
  {
    hide Inv;
    StartSound(3);
    LegitimateRunsPostNothing(Start(3), steps);
  }

  lemma OneBlockIsPending(c: Chain, hash: Hash)
    requires hash !in c.used && |c.pending| < c.confirms
    ensures Mine(c, 0, [], hash) == AddBlock(c, hash)
  {
  }

  /* ----- the user is credited and asks for the money back ----- */

  function Credited(amount: int64): FactRow
  {
    FactRow(amount, 1, false, false)
  }

  ghost predicate CreditedStore(db: Db, user: User, amount: int64, root: Hash)
  {
    && db.facts == map[EventId(DepositId(1), root) := Credited(amount)] && BalanceOf(db.book, Available(user)) == amount
    && db.intents == map[] && db.outbox == map[] && db.requests == map[] && db.frozen == {} && db.markets == map[]
    && db.positions == map[]
  }

  lemma CreditMakes(db: Db, user: User, amount: int64, root: Hash)
    requires DbInv(db) && amount > 0
    requires db == EMPTY_DB.(events := map[EventId(DepositId(1), root) :=
        EventRow(1, Deposit, user, amount, 1, Received)])
    ensures CreditedStore(ApplyDeposit(db, EventId(DepositId(1), root)).0, user, amount, root)
  {
    var e := EventId(DepositId(1), root);
    assert BalanceOf(db.book, Available(user)) == 0;
    hide DbInv, ApplyDeposit, BalanceOf;
    ApplyDepositKeeps(db, e);
    assert Shift(External, Available(user), amount, Available(user)) == amount;
  }

  lemma Credit(steps: seq<Step>, s: Sys, user: User, amount: int64, root: Hash) returns (steps': seq<Step>, s': Sys)
    requires Reaches(steps, s) && s.db == EMPTY_DB && amount > 0
    requires s.chain.log == [EventOf(1, Payment(user, amount), 1, root)]
    ensures Reaches(steps', s') && s'.chain == s.chain && CreditedStore(s'.db, user, amount, root)
  {
    hide Inv, Reaches, CreditedStore, ApplyDeposit;
    var ev, e := EventOf(1, Payment(user, amount), 1, root), EventId(DepositId(1), root);
    Copied(steps, s, 0);
    var s1 := s.(polled := s.polled + {ev}, db := RecordEvent(s.db, ev));
    var steps1 := steps + [Polls(0), Records(ev)];
    assert s1.db == EMPTY_DB.(events := map[e := EventRow(1, Deposit, user, amount, 1, Received)]);
    ReachesInv(steps1, s1);
    PartsOf(s1);
    CreditMakes(s1.db, user, amount, root);
    AppliedTo(steps1, s1, e);
    steps', s' := steps1 + [Applies(e)], s1.(db := ApplyDeposit(s1.db, e).0);
  }

  // The store with one withdrawal in this state, credited as before.
  ghost predicate HoldsWithdrawal(db: Db, user: User, amount: int64, root: Hash, id: Nonce, expiry: int64,
      state: IntentState)
  {
    && db.intents == map[id := Intent(Withdraw, user, "", amount, state, expiry, 0, 0, 0)]
    && db.outbox == map[id := WithdrawTx(id, user, amount, expiry)]
    && db.facts == map[EventId(DepositId(1), root) := Credited(amount)]
    && (state == StateReserved ==> BalanceOf(db.book, Available(user)) == 0)
  }

  lemma RequestMakes(db: Db, user: User, amount: int64, root: Hash, id: Nonce, expiry: int64)
    requires DbInv(db) && CreditedStore(db, user, amount, root) && amount > 0 && id.IntentId? && expiry > 0
    ensures HoldsWithdrawal(RequestWithdraw(db, id, user, amount, "", expiry).0, user, amount, root, id, expiry,
        StateReserved)
  {
    RequestWithdrawOutcome(db, id, user, amount, "", expiry);
    NothingReserved(db, user);
    hide DbInv, BalanceOf, BooksSound, Keyed, Rows, Backed, ExternalExplained, KeyUsed, RequestWithdraw, MovedOnly;
    DbParts(db);
    UnusedKey(db, ReserveKey(id));
    RequestWithdrawShape(db, id, user, amount, "", expiry);
    assert Shift(Available(user), Pending(user), amount, Available(user)) == 0 - amount;
  }

  lemma NothingReserved(db: Db, user: User)
    requires DbInv(db) && db.intents == map[]
    ensures BalanceOf(db.book, Pending(user)) == 0
  {
    assert BackedFor(db, user);
    SumOfNothing(db.intents, ReservedFor(user));
  }

  lemma Request(steps: seq<Step>, s: Sys, user: User, amount: int64, root: Hash, id: Nonce)
    returns (steps': seq<Step>, s': Sys)
    requires Reaches(steps, s) && CreditedStore(s.db, user, amount, root) && amount > 0 && id.IntentId? &&
        s.chain.head == 1
    ensures Reaches(steps', s') && s'.chain == s.chain &&
        HoldsWithdrawal(s'.db, user, amount, root, id, 11, StateReserved)
  {
    assert id !in s.db.intents;
    hide Inv, Reaches, CreditedStore, HoldsWithdrawal, RequestWithdraw;
    ReachesInv(steps, s);
    PartsOf(s);
    RequestMakes(s.db, user, amount, root, id, 11);
    Requested(steps, s, id, user, amount, 11);
    steps', s' := steps + [RequestsWithdraw(id, user, amount, "", 11)],
                  s.(db := RequestWithdraw(s.db, id, user, amount, "", 11).0);
  }

  /* ----- past the expiry the resolver cancels, and then refunds ----- */

  // The chain holds neither the withdrawal nor its cancellation.
  lemma Unheard(c: Chain, v: Vault, n: Nonce)
    requires ChainInv(c) && HeadState(c) == v && n !in v.processed
    ensures !TxStatus(c, n).processed && Site(Canon(c), n) < 0
  {
    HeadKnows(c, n);
    assert TruthfulAbout(c, n);
  }

  lemma AskCancel(steps: seq<Step>, s: Sys, user: User, amount: int64, root: Hash, id: Nonce, v: Vault)
    returns (steps': seq<Step>, s': Sys)
    requires Reaches(steps, s) && HoldsWithdrawal(s.db, user, amount, root, id, 11, StateReserved)
    requires s.chain.head == 12 && s.chain.mempool == [] && HeadState(s.chain) == v
    requires id !in v.processed && id !in v.cancelled && id !in s.chain.receipts
    ensures Reaches(steps', s') && s'.db == s.db && s'.chain == s.chain.(mempool := [CancelTx(id, 11)])
  {
    hide Inv, Reaches, HeadState, ChainInv, Resolve;
    ReachesInv(steps, s);
    PartsOf(s);
    Unheard(s.chain, v, id);
    ResolvedOnce(steps, s, id);
    ResolveCancels(s, id, 11);
    steps', s' := steps + [Resolves(id, false)], Resolve(s, id, false);
  }

  // The first pass past the expiry only queues the cancellation.
  lemma ResolveCancels(s: Sys, n: Nonce, expiry: int64)
    requires n in s.db.intents && s.db.intents[n].kind == Withdraw && s.db.intents[n].expiry == expiry
    requires 0 < expiry < s.chain.head && s.chain.mempool == []
    requires !TxStatus(s.chain, n).processed && n !in HeadState(s.chain).cancelled && n !in s.chain.receipts
    ensures Resolve(s, n, false) == s.(chain := s.chain.(mempool := [CancelTx(n, expiry)]))
  {
    hide Confirm, Expire, HeadState;
    assert !CancelQueued(s.chain, n);
    assert [] + [CancelTx(n, expiry)] == [CancelTx(n, expiry)];
  }

  // Once the contract has refused the nonce, a pass past the expiry refunds.
  lemma ResolveRefunds(s: Sys, n: Nonce, expiry: int64)
    requires n in s.db.intents && s.db.intents[n].kind == Withdraw && s.db.intents[n].expiry == expiry
    requires 0 < expiry < s.chain.head && !TxStatus(s.chain, n).processed && n in HeadState(s.chain).cancelled
    ensures Resolve(s, n, false) == s.(db := Expire(s.db, n, s.chain.head).0)
  {
    hide Confirm, Expire, HeadState, CancelNonce;
  }

  lemma RefundMakes(db: Db, user: User, amount: int64, root: Hash, id: Nonce, observed: int)
    requires DbInv(db) && HoldsWithdrawal(db, user, amount, root, id, 11, StateReserved) && observed > 11
    ensures HoldsWithdrawal(Expire(db, id, observed).0, user, amount, root, id, 11, StateExpired)
  {
    hide DbInv, Expire, Resolved;
    ExpireWithdrawal(db, id, observed);
  }

  lemma Refund(steps: seq<Step>, s: Sys, user: User, amount: int64, root: Hash, id: Nonce, v: Vault)
    returns (steps': seq<Step>, s': Sys)
    requires Reaches(steps, s) && HoldsWithdrawal(s.db, user, amount, root, id, 11, StateReserved)
    requires s.chain.head > 11 && HeadState(s.chain) == v && id !in v.processed && id in v.cancelled
    ensures Reaches(steps', s') && s'.chain == s.chain &&
        HoldsWithdrawal(s'.db, user, amount, root, id, 11, StateExpired)
  {
    hide Inv, Reaches, HeadState, ChainInv, Expire, Resolve;
    ReachesInv(steps, s);
    PartsOf(s);
    Unheard(s.chain, v, id);
    ResolvedOnce(steps, s, id);
    ResolveRefunds(s, id, 11);
    RefundMakes(s.db, user, amount, root, id, s.chain.head);
    steps', s' := steps + [Resolves(id, false)], Resolve(s, id, false);
  }

  /* ----- the reorg takes the cancellation back, and the withdrawal lands ----- */

  // The block of the cancellation, on top of empty blocks.
  lemma CancelBlock(c: Chain, v: Vault, root: Hash, id: Nonce, hash: Hash)
    requires ChainInv(c) && Idle(c.(mempool := []), v, 3) && Rooted(c, root) && hash !in c.used
    requires c.mempool == [CancelTx(id, 11)] && c.head > 11 && id !in v.processed && id !in v.cancelled
    ensures var c' := Mine(c, 0, [], hash);
      && c'.head == c.head + 1 && c'.mempool == [] && c'.confirms == 3 && Rooted(c', root)
      && HeadState(c') == v.(cancelled := v.cancelled + {id}) && c'.final == v
      && TxsOf(c'.pending) == [CancelTx(id, 11)] && |c'.pending| == 3
  {
    var t, c', b := CancelTx(id, 11), Mine(c, 0, [], hash), NextBlock(c, hash);
    IdleIsFinal(c.(mempool := []), v, 3);
    hide ChainInv, Mine, Run, Included, NextBlock, AddBlock, FinaliseAll, QuietTail, TxsOf;
    CancelIncluded(c, v, id, hash);
    Mined(c, hash);
    MinedState(c, hash);
    FinalAfterEmpty(c, hash);
    TxsOfLast(c.pending, b);
  }

  lemma CancelIncluded(c: Chain, v: Vault, id: Nonce, hash: Hash)
    requires HeadState(c) == v && c.mempool == [CancelTx(id, 11)] && c.head > 11 && id !in v.processed &&
        id !in v.cancelled
    ensures NextBlock(c, hash).txs == [CancelTx(id, 11)] && NextBlock(c, hash).height == c.head + 1
    ensures Run(v, CallsAt([CancelTx(id, 11)], c.head + 1)) == v.(cancelled := v.cancelled + {id})
  {
    hide Run, Included, HeadState;
    PoolOfOne(v, CancelTx(id, 11), c.head + 1);
    RunOfOne(v, CancelTx(id, 11), c.head + 1);
  }

  lemma TxsOfLast(blocks: seq<Block>, b: Block)
    requires |blocks| == 3 && blocks[1].txs == [] && blocks[2].txs == []
    ensures TxsOf((blocks + [b])[1..]) == b.txs && |(blocks + [b])[1..]| == 3
  {
    TxsOfThree(blocks[1], blocks[2], b);
    assert (blocks + [b])[1..] == [blocks[1], blocks[2], b];
  }

  lemma TxsOfThree(a: Block, b: Block, last: Block)
    requires a.txs == [] && b.txs == []
    ensures TxsOf([a, b, last]) == last.txs
  {
    assert TxsOf([a]) == [] by {
      assert [a][..0] == [];
    }
    assert TxsOf([a, b]) == [] by {
      assert [a, b][..1] == [a];
    }
    assert [a, b, last][..2] == [a, b];
    assert [] + last.txs == last.txs;
  }

  // Finalising an empty block leaves the final state.
  lemma FinalAfterEmpty(c: Chain, hash: Hash)
    requires ChainInv(c) && hash !in c.used && |c.pending| == c.confirms == 3 && c.pending[0].txs == []
    ensures Mine(c, 0, [], hash).final == c.final
  {
    var a := AddBlock(c, hash);
    var f := a.pending[0];
    assert f == c.pending[0] && CallsAt(f.txs, f.height) == [];
    assert FinaliseAll(a) == FinaliseOne(a) by {
      assert FinaliseAll(FinaliseOne(a)) == FinaliseOne(a);
    }
  }

  // Dropping every pending block.
  lemma RewoundTo(c: Chain, root: Hash, depth: nat, shuffled: seq<Tx>)
    requires ChainInv(c) && Rooted(c, root) && depth == |c.pending| > 0 && c.history != [] && c.mempool == []
    requires shuffled == TxsOf(c.pending)
    ensures var c' := Reorg(c, depth, shuffled);
      && CanReorg(c, depth, shuffled) && ChainInv(c') && Rooted(c', root) && c'.head == c.head - depth &&
          c'.used == c.used
      && c'.mempool == shuffled && c'.pending == [] && HeadState(c') == c.final && c'.final == c.final &&
          c'.confirms == c.confirms
  {
    assert c.pending[0..] == c.pending && shuffled + [] == shuffled;
    hide ChainInv, Canon, TxsOf, Nonces, Heights, MarkOrphans, Run, AllCalls;
    assert CanReorg(c, depth, shuffled);
    ReorgKeeps(c, depth, shuffled);
    ReorgCanon(c, depth, shuffled);
    NothingPending(Reorg(c, depth, shuffled));
    RootIsHistory(c, root);
    RootIsHistory(Reorg(c, depth, shuffled), root);
  }

  lemma NothingPending(c: Chain)
    requires c.pending == []
    ensures HeadState(c) == c.final
  {
  }

  lemma RootIsHistory(c: Chain, root: Hash)
    requires c.history != []
    ensures Rooted(c, root) <==> c.history[0].hash == root
  {
  }

  lemma MineIsReorgFirst(c: Chain, depth: nat, shuffled: seq<Tx>, hash: Hash)
    requires depth > 0 && CanReorg(c, depth, shuffled) && hash !in c.used
    ensures CanMine(c, depth, shuffled, hash)
    ensures Mine(c, depth, shuffled, hash) == Mine(Reorg(c, depth, shuffled), 0, [], hash)
  {
  }

  // Back at the expiry height less one the cancellation is premature, and so refused.
  lemma Premature(c: Chain, v: Vault, root: Hash, id: Nonce, hash: Hash)
    requires ChainInv(c) && Rooted(c, root) && c.confirms == 3 && hash !in c.used
    requires c.mempool == [CancelTx(id, 11)] && c.head == 10 && c.pending == [] && HeadState(c) == c.final == v
    ensures var c' := Mine(c, 0, [], hash);
      c'.head == 11 && c'.final == v && Rooted(c', root) && Idle(c', v, 1) && |c'.pending| == 1
  {
    var t := CancelTx(id, 11);
    PoolOfOne(v, t, 11);
    hide ChainInv, HeadState, Mine, Rooted, NextBlock, Included, Apply;
    assert !Apply(v, t, 11).ok by {
      Refunds.EarlyCancelRefused(v, t, 11);
    }
    NothingMined(c, hash);
    Mined(c, hash);
    RootedStays(c, root, hash);
    FinalStays(c, hash);
    QuietGrows([], 0, NextBlock(c, hash));
  }

  lemma TakenBack(steps: seq<Step>, s: Sys, v: Vault, root: Hash, id: Nonce) returns (steps': seq<Step>, s': Sys)
    requires Reaches(steps, s) && Rooted(s.chain, root) && s.chain.head == 13 && s.chain.confirms == 3
    requires |s.chain.pending| == 3 && TxsOf(s.chain.pending) == [CancelTx(id, 11)] && s.chain.mempool == [] &&
        s.chain.final == v
    ensures Reaches(steps', s') && s'.db == s.db && s'.chain.head == 11 && s'.chain.final == v && Rooted(s'.chain, root)
    ensures Idle(s'.chain, v, 1) && |s'.chain.pending| == 1
  {
    var c, t := s.chain, CancelTx(id, 11);
    var hash := Refunds.FreshHash(c.used);
    hide Inv, Reaches, ChainInv, HeadState, Mine, Reorg, Rooted, Idle, CanReorg, TxsOf, Canon;
    ReachesInv(steps, s);
    PartsOf(s);
    RewoundTo(c, root, 3, [t]);
    MineIsReorgFirst(c, 3, [t], hash);
    Premature(Reorg(c, 3, [t]), v, root, id, hash);
    MinedOn(steps, s, 3, [t], hash);
    steps', s' := steps + [Mines(3, [t], hash)], s.(chain := Mine(c, 3, [t], hash));
  }

  lemma RootedStays(c: Chain, root: Hash, hash: Hash)
    requires ChainInv(c) && hash !in c.used && |c.pending| <= c.confirms && Rooted(c, root)
    ensures Rooted(Mine(c, 0, [], hash), root)
  {
    hide ChainInv, Mine;
    Mined(c, hash);
  }

  lemma FinalStays(c: Chain, hash: Hash)
    requires hash !in c.used && |c.pending| < c.confirms
    ensures Mine(c, 0, [], hash).final == c.final
  {
    OneBlockIsPending(c, hash);
  }

  // At the expiry height the outbox may still deliver.
  lemma Resubmitted(steps: seq<Step>, s: Sys, v: Vault, root: Hash, id: Nonce, t: Tx)
      returns (steps': seq<Step>, s': Sys)
    requires Reaches(steps, s) && Idle(s.chain, v, 1) && s.chain.head == 11
    requires id in s.db.outbox && s.db.outbox[id] == t && t.nonce == id && t.expiry == 11 && t.kind == Withdraw
    requires id !in v.processed && id !in v.cancelled
    ensures Reaches(steps', s') && s' == s.(chain := s.chain.(mempool := [t]))
  {
    hide Inv, Reaches, ChainInv, HeadState, QuietTail;
    ReachesInv(steps, s);
    PartsOf(s);
    Unheard(s.chain, v, id);
    Submitted(steps, s, id);
    assert [] + [t] == [t];
    steps', s' := steps + [Submits(id, Deliver)], s.(chain := SubmitTx(s.chain, t, Deliver).0);
  }

  // One more reorg, of the block at the expiry height, and the withdrawal is in its place.
  lemma Landed(steps: seq<Step>, s: Sys, v: Vault, root: Hash, t: Tx) returns (steps': seq<Step>, s': Sys)
    requires Reaches(steps, s) && Idle(s.chain.(mempool := []), v, 1) && Rooted(s.chain, root) && s.chain.head == 11
    requires |s.chain.pending| == 1 && s.chain.final == v && s.chain.mempool == [t] && Apply(v, t, 11).ok
    ensures Reaches(steps', s') && s'.db == s.db && s'.chain.head == 11
    ensures Idle(s'.chain, Apply(v, t, 11).vault, 0) && Rooted(s'.chain, root)
  {
    var c := s.chain;
    var hash := Refunds.FreshHash(c.used);
    assert TxsOf(c.pending) == [] by {
      Refunds.SinglePending(c);
    }
    hide Inv, Reaches, ChainInv, HeadState, Mine, Reorg, Rooted, Run, Apply;
    ReachesInv(steps, s);
    PartsOf(s);
    RewoundWithPool(c, root, t);
    MineIsReorgFirst(c, 1, [], hash);
    var c1 := Reorg(c, 1, []);
    PoolOfOne(v, t, 11);
    RunOfOne(v, t, 11);
    hide Included;
    Mined(c1, hash);
    MinedState(c1, hash);
    RootedStays(c1, root, hash);
    MinedOn(steps, s, 1, [], hash);
    steps', s' := steps + [Mines(1, [], hash)], s.(chain := Mine(c, 1, [], hash));
  }

  lemma RewoundWithPool(c: Chain, root: Hash, t: Tx)
    requires ChainInv(c) && Rooted(c, root) && |c.pending| == 1 && c.history != [] && c.mempool == [t] &&
        TxsOf(c.pending) == []
    ensures var c' := Reorg(c, 1, []);
      && CanReorg(c, 1, []) && ChainInv(c') && Rooted(c', root) && c'.head == c.head - 1 && c'.used == c.used
      && c'.mempool == [t] && c'.pending == [] && HeadState(c') == c.final && c'.confirms == c.confirms
  {
    assert c.pending[0..] == c.pending && [] + [t] == [t];
    hide ChainInv, Canon, TxsOf, Nonces, Heights, MarkOrphans, Run, AllCalls;
    assert CanReorg(c, 1, []);
    ReorgKeeps(c, 1, []);
    ReorgCanon(c, 1, []);
    NothingPending(Reorg(c, 1, []));
    RootIsHistory(c, root);
    RootIsHistory(Reorg(c, 1, []), root);
  }

  /* ----- the whole story ----- */

  lemma CancelMined(steps: seq<Step>, s: Sys, v: Vault, root: Hash, id: Nonce) returns (steps': seq<Step>, s': Sys)
    requires Reaches(steps, s) && Idle(s.chain.(mempool := []), v, 11) && Rooted(s.chain, root) && s.chain.head == 12
    requires s.chain.mempool == [CancelTx(id, 11)] && id !in v.processed && id !in v.cancelled
    ensures Reaches(steps', s') && s'.db == s.db && s'.chain.head == 13 && s'.chain.mempool == [] &&
        s'.chain.confirms == 3
    ensures HeadState(s'.chain) == v.(cancelled := v.cancelled + {id}) && s'.chain.final == v && Rooted(s'.chain, root)
    ensures TxsOf(s'.chain.pending) == [CancelTx(id, 11)] && |s'.chain.pending| == 3
  {
    var hash := Refunds.FreshHash(s.chain.used);
    assert Idle(s.chain.(mempool := []), v, 3);
    hide Inv, Reaches, ChainInv, HeadState, Mine, Rooted, Idle, TxsOf;
    ReachesInv(steps, s);
    PartsOf(s);
    CancelBlock(s.chain, v, root, id, hash);
    MinedOn(steps, s, 0, [], hash);
    steps', s' := steps + [Mines(0, [], hash)], s.(chain := Mine(s.chain, 0, [], hash));
  }

  // The user is refunded at height 13.
  lemma RefundedOnHead(user: User, amount: int64, id: Nonce) returns (steps: seq<Step>, s: Sys)
    requires amount > 0 && id.IntentId?
    ensures Reaches(steps, s) && HoldsWithdrawal(s.db, user, amount, 0, id, 11, StateExpired)
    ensures s.chain.head == 13 && s.chain.final == Funded(amount) && Rooted(s.chain, 0)
    ensures TxsOf(s.chain.pending) == [CancelTx(id, 11)] && |s.chain.pending| == 3
    ensures s.chain.mempool == [] && s.chain.confirms == 3
  {
    hide Reaches, HoldsWithdrawal, CreditedStore, Rooted, QuietTail, TxsOf, HeadState;
    var v := Funded(amount);
    steps, s := Fund(user, amount);
    steps, s := Credit(steps, s, user, amount, 0);
    steps, s := Request(steps, s, user, amount, 0, id);
    steps, s := IdleBlocks(steps, s, v, 0, 0, 11);
    ghost var idle := s.chain;
    steps, s := AskCancel(steps, s, user, amount, 0, id, v);
    assert s.chain.(mempool := []) == idle;
    RootedPool(idle, s.chain, 0);
    steps, s := CancelMined(steps, s, v, 0, id);
    steps, s := Refund(steps, s, user, amount, 0, id, v.(cancelled := v.cancelled + {id}));
  }

  lemma RootedPool(c: Chain, c': Chain, root: Hash)
    requires Rooted(c, root) && c' == c.(mempool := c'.mempool)
    ensures Rooted(c', root)
  {
  }

  lemma WithdrawalFits(user: User, amount: int64, id: Nonce)
    requires amount > 0 && id.IntentId?
    ensures var t, v := WithdrawTx(id, user, amount, 11), Funded(amount);
      Apply(v, t, 11).ok && id in Apply(v, t, 11).vault.processed
  {
    var v := Funded(amount);
    assert Sum(v.escrow) == 0;
  }

  lemma HeldPayload(db: Db, user: User, amount: int64, root: Hash, id: Nonce, expiry: int64, state: IntentState)
    requires HoldsWithdrawal(db, user, amount, root, id, expiry, state)
    ensures id in db.outbox && db.outbox[id] == WithdrawTx(id, user, amount, expiry)
  {
  }

  // The outbox delivers once more.
  lemma Redelivered(steps: seq<Step>, s: Sys, v: Vault, root: Hash, id: Nonce, t: Tx)
    returns (steps': seq<Step>, s': Sys)
    requires Reaches(steps, s) && Rooted(s.chain, root) && s.chain.head == 13 && s.chain.confirms == 3
    requires |s.chain.pending| == 3 && TxsOf(s.chain.pending) == [CancelTx(id, 11)] && s.chain.mempool == [] &&
        s.chain.final == v
    requires id in s.db.outbox && s.db.outbox[id] == t && t.nonce == id && t.expiry == 11 && t.kind == Withdraw
    requires id !in v.processed && id !in v.cancelled
    ensures Reaches(steps', s') && s'.db == s.db && Idle(s'.chain.(mempool := []), v, 1) && Rooted(s'.chain, root)
    ensures s'.chain.head == 11 && |s'.chain.pending| == 1 && s'.chain.final == v && s'.chain.mempool == [t]
  {
    hide Reaches, Rooted, TxsOf, QuietTail, HeadState;
    steps', s' := TakenBack(steps, s, v, root, id);
    ghost var back := s'.chain;
    steps', s' := Resubmitted(steps', s', v, root, id, t);
    assert s'.chain.(mempool := []) == back;
    RootedPool(back, s'.chain, root);
  }

  // And the chain pays all the same.
  lemma PaidAfterRefund(user: User, amount: int64, id: Nonce, steps: seq<Step>, s: Sys)
    returns (steps': seq<Step>, s': Sys, v': Vault)
    requires amount > 0 && id.IntentId? && Reaches(steps, s) &&
        HoldsWithdrawal(s.db, user, amount, 0, id, 11, StateExpired)
    requires s.chain.head == 13 && s.chain.final == Funded(amount) && Rooted(s.chain, 0)
    requires TxsOf(s.chain.pending) == [CancelTx(id, 11)] && |s.chain.pending| == 3
    requires s.chain.mempool == [] && s.chain.confirms == 3
    ensures Reaches(steps', s') && s'.db == s.db && Rooted(s'.chain, 0)
    ensures id in v'.processed && Idle(s'.chain, v', 3)
  {
    hide Reaches, HoldsWithdrawal, Rooted, Idle, TxsOf, Apply, Sum;
    var v, t := Funded(amount), WithdrawTx(id, user, amount, 11);
    HeldPayload(s.db, user, amount, 0, id, 11, StateExpired);
    WithdrawalFits(user, amount, id);
    v' := Apply(v, t, 11).vault;
    steps', s' := Redelivered(steps, s, v, 0, id, t);
    steps', s' := Landed(steps', s', v, 0, t);
    steps', s' := IdleBlocks(steps', s', v', 0, 0, 3);
  }

  // With nothing but empty blocks pending, what has landed is final.
  lemma LandedIsFinal(c: Chain, v: Vault, n: Nonce)
    requires ChainInv(c) && Idle(c, v, 3) && n in v.processed
    ensures TxStatus(c, n).finalized
  {
    IdleIsFinal(c, v, 3);
    HeadKnows(c, n);
    assert TruthfulAbout(c, n);
    var site := Site(Canon(c), n);
    SiteLanded(Canon(c), n);
    assert forall i | 0 <= i < |c.pending| :: Canon(c)[|c.history| + i] == c.pending[i];
  }

  lemma OnlyCreditIsLive(s: Sys, amount: int64, root: Hash)
    requires Inv(s) && Rooted(s.chain, root) && s.db.facts == map[EventId(DepositId(1), root) := Credited(amount)]
    ensures FactsSettled(s)
  {
    hide Inv, LiveFact;
    assert HashLive(Canon(s.chain), root);
    LiveFactIsExact(s, EventId(DepositId(1), root));
  }

  lemma OnlyRefundIsPaid(s: Sys, n: Nonce, i: Intent)
    requires s.db.intents == map[n := i] && i.kind == Withdraw && i.state == StateExpired &&
        TxStatus(s.chain, n).finalized
    ensures PaidTwice(s) == i.amount
  {
    var twice := FinalisedIn(s, Refunded);
    var none: map<Nonce, int> := map[];
    assert twice == none[n := i.amount];
    SumUpdate(none, n, i.amount);
    assert Sum(none) == 0;
  }

  // The engine refunds too early. For any user, any amount and any intent there is a run, with the
  // default confirmations and with no money from outside, in which the withdrawal is requested as
  // the engine requests it, its cancellation is mined and the resolver refunds it, and a reorg then
  // takes the cancellation back in time for the chain to pay the user too. The payment is final,
  // hypothesis R has failed, and the residue is the amount to the unit.
  lemma EngineRefundsTooEarly(user: User, amount: int64, id: Nonce) returns (steps: seq<Step>)
    requires amount > 0 && id.IntentId?
    ensures IsTrace(Start(3), steps) && Legitimate(steps)
    ensures var s := Final(Start(3), steps);
      && id in s.db.intents && s.db.intents[id].state == StateExpired && s.db.intents[id].user == user
      && TxStatus(s.chain, id).finalized && s.db.outside == 0
      && PaidTwice(s) == amount && FactsSettled(s) && Unexplained(s) == amount
    ensures !HypothesisR(Start(3), steps)
  {
    hide Reaches, Idle, Rooted, TxsOf;
    var s, v;
    steps, s := RefundedOnHead(user, amount, id);
    steps, s, v := PaidAfterRefund(user, amount, id, steps, s);
    EndOfStory(steps, s, user, amount, id, v);
  }

  lemma EndOfStory(steps: seq<Step>, s: Sys, user: User, amount: int64, id: Nonce, v: Vault)
    requires Reaches(steps, s) && HoldsWithdrawal(s.db, user, amount, 0, id, 11, StateExpired) && amount > 0
    requires Rooted(s.chain, 0) && id in v.processed && Idle(s.chain, v, 3)
    ensures IsTrace(Start(3), steps) && Legitimate(steps) && s == Final(Start(3), steps)
    ensures id in s.db.intents && s.db.intents[id].state == StateExpired && s.db.intents[id].user == user
    ensures TxStatus(s.chain, id).finalized && s.db.outside == 0
    ensures PaidTwice(s) == amount && FactsSettled(s) && Unexplained(s) == amount
    ensures !HypothesisR(Start(3), steps)
  {
    hide Inv, ChainInv, Idle, Rooted, FactsSettled, PaidTwice, Unexplained, Next, Allowed, HypothesisR, Start;
    ReachesInv(steps, s);
    PartsOf(s);
    LandedIsFinal(s.chain, v, id);
    OnlyCreditIsLive(s, amount, 0);
    OnlyRefundIsPaid(s, id, s.db.intents[id]);
    ResidueIsExact(s);
    if HypothesisR(Start(3), steps) {
      EveryUnitIsExplained(3, steps);
      assert false;
    }
  }
}