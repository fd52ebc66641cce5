/** The hostile chain as values: every simulator call is a function from chain to chain.
    Randomness (fates, reorg depth, shuffle order, block hashes) arrives as arguments. */
module ChainModel {
  import opened Integers
  import opened GoVault

  type Hash = nat

  // `log` holds the positions of the block's events in the chain's event log.
  datatype Block = Block(height: int, hash: Hash, txs: seq<Tx>, log: seq<nat>)

  datatype EventKind = Of(kind: Kind) | Orphaned

  datatype Event = Event(number: nat, kind: EventKind, fact: Nonce, user: User, amount: int64, market: Market,
                         target: int64, outcome: int64, height: int, hash: Hash)

  datatype Receipt = Receipt(processed: bool, finalized: bool, height: int, hash: Hash, rejected: Reason)

  const NO_RECEIPT := Receipt(false, false, 0, 0, NoReason)

  // `history` (the finalised blocks) and `used` (every hash ever minted) are bookkeeping of
  // the model; the other fields are the simulator's own.
  datatype Chain = Chain(head: int, finalHeight: int, final: Vault, pending: seq<Block>, hashAt: map<int, Hash>,
                         receipts: map<Nonce, Receipt>, log: seq<Event>, mempool: seq<Tx>, confirms: nat,
                         nextDeposit: nat, history: seq<Block>, used: set<Hash>)

  function Genesis(confirms: int): Chain
  {
    Chain(0, 0, EMPTY, [], map[], map[], [], [], if confirms <= 0 then 2 else confirms, 0, [], {})
  }

  /* ----- replaying blocks ----- */

  function CallsAt(txs: seq<Tx>, height: int): seq<Call>
  {
    seq(|txs|, i requires 0 <= i < |txs| => Call(txs[i], height))
  }

  function AllCalls(blocks: seq<Block>): seq<Call>
  {
    if blocks == [] then []
    else
      var last := blocks[|blocks| - 1];
      AllCalls(blocks[..|blocks| - 1]) + CallsAt(last.txs, last.height)
  }

  function Canon(c: Chain): seq<Block>
  {
    c.history + c.pending
  }

  ghost function HeadState(c: Chain): Vault
  {
    Run(c.final, AllCalls(c.pending))
  }

  /* ----- deposits, submissions, cancellations ----- */

  function UserDeposit(c: Chain, user: User, amount: int64): Chain
  {
    var id := DepositId(c.nextDeposit + 1);
    c.(nextDeposit := c.nextDeposit + 1, mempool := c.mempool + [Tx(id, Deposit, user, amount, "", 0, 0, 0)])
  }

  function TxStatus(c: Chain, n: Nonce): Receipt
  {
    if n in c.receipts then c.receipts[n] else NO_RECEIPT
  }

  // What the caller of `Submit` is told; a dropped and a lost submission look the same.
  datatype Reply = InBlock(hash: Hash) | Queued | ErrExpired | ErrSubmitFailed

  datatype Fate = Deliver | Drop | LoseReceipt

  ghost function SubmitTx(c: Chain, tx: Tx, fate: Fate): (Chain, Reply)
  {
    if TxStatus(c, tx.nonce).processed then (c, InBlock(TxStatus(c, tx.nonce).hash))
    else if tx.nonce in HeadState(c).cancelled then (c, ErrExpired)
    else if tx.kind != Cancel && tx.expiry > 0 && c.head > tx.expiry then (c, ErrExpired)
    else if fate == Drop then (c, ErrSubmitFailed)
    else (c.(mempool := c.mempool + [tx]), if fate == LoseReceipt then ErrSubmitFailed else Queued)
  }

  predicate CancelQueued(c: Chain, n: Nonce)
  {
    exists i | 0 <= i < |c.mempool| :: c.mempool[i].nonce == n && c.mempool[i].kind == Cancel
  }

  function CancelTx(n: Nonce, expiry: int64): Tx
  {
    Tx(n, Cancel, "", 0, "", 0, 0, expiry)
  }

  ghost function CancelNonce(c: Chain, n: Nonce, expiry: int64): (Chain, bool)
  {
    if TxStatus(c, n).processed then (c, false)
    else if n in HeadState(c).cancelled then (c, true)
    else if expiry == 0 || c.head <= expiry then (c, false)
    else if CancelQueued(c, n) then (c, false)
    else (c.(mempool := c.mempool + [CancelTx(n, expiry)]), false)
  }

  // `Expired`: the contract has permanently refused the nonce.
  ghost predicate IsExpired(c: Chain, n: Nonce)
  {
    !TxStatus(c, n).processed &&
    ((n in c.receipts && c.receipts[n].rejected == Expired) || n in HeadState(c).cancelled)
  }

  function SetConfirms(c: Chain, confirms: int): Chain
  {
    if confirms <= 0 then c else c.(confirms := confirms)
  }

  /* ----- mining ----- */

  // The transactions of the pool that the contract accepts, in order.
  ghost function Included(v: Vault, pool: seq<Tx>, height: int): seq<Tx>
  {
    if pool == [] then []
    else
      var last := |pool| - 1;
      var txs := Included(v, pool[..last], height);
      if Apply(Run(v, CallsAt(txs, height)), pool[last], height).ok then txs + [pool[last]] else txs
  }

  ghost function PoolState(v: Vault, pool: seq<Tx>, height: int): Vault
  {
    Run(v, CallsAt(Included(v, pool, height), height))
  }

  // A permanent refusal leaves a receipt; "already processed" and transient refusals do not.
  ghost function Rejections(receipts: map<Nonce, Receipt>, v: Vault, pool: seq<Tx>, height: int): map<Nonce, Receipt>
  {
    if pool == [] then receipts
    else
      var last := |pool| - 1;
      var before := Rejections(receipts, v, pool[..last], height);
      var verdict := Apply(PoolState(v, pool[..last], height), pool[last], height);
      if !verdict.ok && verdict.reason != NoReason && verdict.reason != AlreadyProcessed then
        before[pool[last].nonce := Receipt(false, false, 0, 0, verdict.reason)]
      else before
  }

  function Stamped(receipts: map<Nonce, Receipt>, txs: seq<Tx>, height: int, hash: Hash): map<Nonce, Receipt>
  {
    if txs == [] then receipts
    else
      var last := txs[|txs| - 1];
      var before := Stamped(receipts, txs[..|txs| - 1], height, hash);
      if last.kind != Cancel then before[last.nonce := Receipt(true, false, height, hash, NoReason)] else before
  }

  function EventOf(number: nat, tx: Tx, height: int, hash: Hash): Event
  {
    Event(number, Of(tx.kind), tx.nonce, tx.user, tx.amount, tx.market, tx.target, tx.outcome, height, hash)
  }

  // The events of a block, numbered on from `base`.
  function Events(base: nat, txs: seq<Tx>, height: int, hash: Hash): seq<Event>
  {
    seq(|txs|, i requires 0 <= i < |txs| => EventOf(base + i + 1, txs[i], height, hash))
  }

  // Consecutive positions in the event log.
  function Positions(base: nat, count: nat): (positions: seq<nat>)
    ensures |positions| == count
    ensures forall i | 0 <= i < count :: positions[i] == base + i
  {
    if count == 0 then [] else Positions(base, count - 1) + [base + count - 1]
  }

  ghost function NextBlock(c: Chain, hash: Hash): Block
  {
    var txs := Included(HeadState(c), c.mempool, c.head + 1);
    Block(c.head + 1, hash, txs, Positions(|c.log|, |txs|))
  }

  ghost function AddBlock(c: Chain, hash: Hash): Chain
  {
    var b := NextBlock(c, hash);
    var refused := Rejections(c.receipts, HeadState(c), c.mempool, b.height);
    c.(head := b.height, mempool := [], pending := c.pending + [b], hashAt := c.hashAt[b.height := hash],
       receipts := Stamped(refused, b.txs, b.height, hash),
       log := c.log + Events(|c.log|, b.txs, b.height, hash),
       used := c.used + {hash})
  }

  function Promote(receipts: map<Nonce, Receipt>, n: Nonce): map<Nonce, Receipt>
  {
    if n in receipts && receipts[n].processed then receipts[n := receipts[n].(finalized := true)] else receipts
  }

  function Promoted(receipts: map<Nonce, Receipt>, txs: seq<Tx>): map<Nonce, Receipt>
  {
    if txs == [] then receipts else Promote(Promoted(receipts, txs[..|txs| - 1]), txs[|txs| - 1].nonce)
  }

  ghost function FinaliseOne(c: Chain): Chain
    requires c.pending != []
  {
    var f := c.pending[0];
    c.(pending := c.pending[1..], history := c.history + [f], final := Run(c.final, CallsAt(f.txs, f.height)),
       receipts := Promoted(c.receipts, f.txs), finalHeight := f.height)
  }

  ghost function FinaliseAll(c: Chain): Chain
    decreases |c.pending|
  {
    if |c.pending| > c.confirms then FinaliseAll(FinaliseOne(c)) else c
  }

  /* ----- reorganisation ----- */

  function TxsOf(blocks: seq<Block>): seq<Tx>
  {
    if blocks == [] then [] else TxsOf(blocks[..|blocks| - 1]) + blocks[|blocks| - 1].txs
  }

  ghost predicate InLogOf(blocks: seq<Block>, i: int)
  {
    exists k | 0 <= k < |blocks| :: i in blocks[k].log
  }

  ghost function MarkOrphans(log: seq<Event>, blocks: seq<Block>): seq<Event>
  {
    seq(|log|, i requires 0 <= i < |log| => if InLogOf(blocks, i) then log[i].(kind := Orphaned) else log[i])
  }

  function Nonces(txs: seq<Tx>): set<Nonce>
  {
    set i | 0 <= i < |txs| :: txs[i].nonce
  }

  function Heights(blocks: seq<Block>): set<int>
  {
    set k | 0 <= k < |blocks| :: blocks[k].height
  }

  ghost predicate CanReorg(c: Chain, depth: nat, shuffled: seq<Tx>)
  {
    1 <= depth <= |c.pending| && multiset(shuffled) == multiset(TxsOf(c.pending[|c.pending| - depth..]))
  }

  ghost function Reorg(c: Chain, depth: nat, shuffled: seq<Tx>): Chain
    requires 1 <= depth <= |c.pending|
  {
    var keep := |c.pending| - depth;
    var orphaned := c.pending[keep..];
    c.(pending := c.pending[..keep], hashAt := c.hashAt - Heights(orphaned),
       receipts := c.receipts - Nonces(TxsOf(orphaned)), log := MarkOrphans(c.log, orphaned),
       head := c.head - depth, mempool := shuffled + c.mempool)
  }

  // One `Mine` call: maybe a reorg (depth 0 is none), then one block, then finality.
  ghost predicate CanMine(c: Chain, depth: nat, shuffled: seq<Tx>, hash: Hash)
  {
    hash !in c.used && (depth > 0 ==> CanReorg(c, depth, shuffled))
  }

  ghost function Mine(c: Chain, depth: nat, shuffled: seq<Tx>, hash: Hash): Chain
    requires CanMine(c, depth, shuffled, hash)
  {
    FinaliseAll(AddBlock(if depth > 0 then Reorg(c, depth, shuffled) else c, hash))
  }

  /* ----- the truthful reads ----- */

  function CanonicalHash(c: Chain, height: int): (Hash, bool)
  {
    if height in c.hashAt then (c.hashAt[height], true) else (0, false)
  }

  predicate IsFinalFact(c: Chain, e: Event, kind: Kind)
  {
    e.kind == Of(kind) && TxStatus(c, e.fact).finalized && TxStatus(c, e.fact).hash == e.hash
  }

  function FactsUpTo(c: Chain, kind: Kind, count: nat): seq<Event>
    requires count <= |c.log|
  {
    if count == 0 then []
    else
      var before := FactsUpTo(c, kind, count - 1);
      if IsFinalFact(c, c.log[count - 1], kind) then before + [c.log[count - 1]] else before
  }

  // `FinalizedFacts`: every finalised fact of a kind, read from chain state alone.
  function FinalizedFacts(c: Chain, kind: Kind): seq<Event>
  {
    FactsUpTo(c, kind, |c.log|)
  }

  /* ----- runs of the simulator ----- */

  datatype Action =
    | DoDeposit(user: User, amount: int64)
    | DoSubmit(tx: Tx, fate: Fate)
    | DoCancel(nonce: Nonce, expiry: int64)
    | DoMine(depth: nat, shuffled: seq<Tx>, hash: Hash)
    | DoSetConfirms(confirms: int)

  ghost predicate Enabled(c: Chain, a: Action)
  {
    a.DoMine? ==> CanMine(c, a.depth, a.shuffled, a.hash)
  }

  ghost function Act(c: Chain, a: Action): Chain
    requires Enabled(c, a)
  {
    match a
    case DoDeposit(user, amount) => UserDeposit(c, user, amount)
    case DoSubmit(tx, fate) => SubmitTx(c, tx, fate).0
    case DoCancel(nonce, expiry) => CancelNonce(c, nonce, expiry).0
    case DoMine(depth, shuffled, hash) => Mine(c, depth, shuffled, hash)
    case DoSetConfirms(confirms) => SetConfirms(c, confirms)
  }

  // A run of simulator calls, each enabled when its turn comes.
  ghost predicate IsRun(c: Chain, actions: seq<Action>)
    decreases |actions|
  {
    actions == [] || (Enabled(c, actions[0]) && IsRun(Act(c, actions[0]), actions[1..]))
  }

  ghost function After(c: Chain, actions: seq<Action>): Chain
    requires IsRun(c, actions)
    decreases |actions|
  {
    if actions == [] then c else After(Act(c, actions[0]), actions[1..])
  }
}
