/** The whole system as one state machine: the chain, the store, and every committed transaction
    and chain call that the users, the workers and the environment make. A crash is a run that
    stops between two steps; the order of steps is arbitrary. */
module System {
  import opened Integers
  import opened Sums
  import opened GoVault
  import opened ChainModel
  import opened Ledger
  import opened Margins
  import opened Store

  const WITHDRAW_EXPIRY_BLOCKS := 10
  const ESCROW_EXPIRY_BLOCKS := 6

  // `polled` holds the event copies that the stream has handed out. A copy keeps what it was read as,
  // whatever becomes of its block before the inbox writes it down.
  datatype Sys = Sys(chain: Chain, db: Db, polled: set<Event>)

  ghost function Start(confirms: int): Sys
  {
    Sys(Genesis(confirms), EMPTY_DB, {})
  }

  // The truthful test of a provisional credit: the chain's nonce lookup still points at the exact
  // block it came from, and that block is canonical.
  predicate LiveFact(c: Chain, e: EventId, height: int)
  {
    TxStatus(c, e.fact).processed && TxStatus(c, e.fact).hash == e.hash && CanonicalHash(c, height) == (e.hash, true)
  }

  predicate Provisional(f: FactRow)
  {
    !f.finalized && !f.reverted
  }

  // A block found orphaned by one of its provisional credits.
  ghost predicate OrphanedBlock(s: Sys, hash: Hash)
  {
    exists e | e in s.db.facts ::
      e.hash == hash && Provisional(s.db.facts[e]) && !LiveFact(s.chain, e, s.db.facts[e].height)
  }

  function CollateralIn(market: Market): Position -> int
  {
    (p: Position) => if p.state == OpenPos && p.market == market then p.collateral else 0
  }

  // One pass of the resolver over one intent in flight.
  ghost function Resolve(s: Sys, n: Nonce, deadlinePassed: bool): Sys
    requires n in s.db.intents
  {
    var i := s.db.intents[n];
    var st := TxStatus(s.chain, n);
    if st.processed && st.finalized then s.(db := Confirm(s.db, n, st.height, st.hash).0)
    else if st.processed then s
    else
      var pastExpiry := i.expiry > 0 && s.chain.head > i.expiry;
      var cancelFirst := pastExpiry && i.kind == Withdraw && !IsExpired(s.chain, n);
      var cancel := if cancelFirst then CancelNonce(s.chain, n, i.expiry) else (s.chain, true);
      if !cancel.1 then s.(chain := cancel.0)
      else if (pastExpiry && (IsExpired(cancel.0, n) || i.kind != Withdraw)) || (i.expiry == 0 && deadlinePassed) then
        Sys(cancel.0, Expire(s.db, n, s.chain.head).0, s.polled)
      else s.(chain := cancel.0)
  }

  // What the store answers on that pass; a pass that asks nothing of the store counts as done.
  ghost function ResolveAnswer(s: Sys, n: Nonce, deadlinePassed: bool): Answer
    requires n in s.db.intents
  {
    var i := s.db.intents[n];
    var st := TxStatus(s.chain, n);
    if st.processed && st.finalized then Confirm(s.db, n, st.height, st.hash).1
    else if st.processed then Done
    else
      var pastExpiry := i.expiry > 0 && s.chain.head > i.expiry;
      var cancelFirst := pastExpiry && i.kind == Withdraw && !IsExpired(s.chain, n);
      var cancel := if cancelFirst then CancelNonce(s.chain, n, i.expiry) else (s.chain, true);
      if cancel.1 && ((pastExpiry && (IsExpired(cancel.0, n) || i.kind != Withdraw)) ||
          (i.expiry == 0 && deadlinePassed)) then
        Expire(s.db, n, s.chain.head).1
      else Done
  }

  // Any answer but these two ends the whole pass of the resolver.
  predicate GoesOn(answer: Answer)
  {
    answer == Done || answer == Conflict
  }

  datatype Step =
    // the environment
    | Deposits(user: User, amount: int64)
    | Mines(depth: nat, shuffled: seq<Tx>, hash: Hash)
    | SetsConfirms(confirms: int)
    // users
    | RequestsWithdraw(id: Nonce, user: User, amount: int64, request: string, expiry: int64)
    | Opens(position: nat, user: User, market: Market, side: Side, size: int64, request: string)
    | Closes(position: nat, mark: int64, liquidation: bool)
    // operators
    | Seeds(market: Market, mark: int64)
    | Reprices(market: Market, mark: int64)
    | RequestsSettlement(id: Nonce, market: Market, outcome: int64)
    | Freezes(subject: string)
    | Unfreezes(subject: string)
    // the outbox
    | Submits(intent: Nonce, fate: Fate)
    | Marks(intent: Nonce)
    // the resolver
    | Resolves(intent: Nonce, deadlinePassed: bool)
    // the inbox, and the healing pass of the reconciler
    | Polls(position: nat)
    | Records(copy: Event)
    | Advances(number: nat)
    | Applies(event: EventId)
    | Ignores(event: EventId)
    | Promotes(event: EventId)
    | Reverts(event: EventId)
    // the escrow worker
    | RequestsEscrow(id: Nonce, market: Market, target: int64, expiry: int64)
    // callers of the ledger that no protocol step stands behind
    | PostsOutside(text: string, user: User, credit: int64)

  // The event with this sequence number is in the inbox.
  ghost predicate Recorded(db: Db, number: nat)
  {
    exists e | e in db.events :: db.events[e].number == number
  }

  ghost predicate FreshIntent(s: Sys, id: Nonce)
  {
    id.IntentId? && id !in s.db.intents
  }

  ghost predicate Allowed(s: Sys, step: Step)
  {
    match step
    case Mines(depth, shuffled, hash) => CanMine(s.chain, depth, shuffled, hash)
    case RequestsWithdraw(id, _, _, _, expiry) => FreshIntent(s, id) && expiry == s.chain.head + WITHDRAW_EXPIRY_BLOCKS
    case Opens(position, _, _, _, _, _) => position !in s.db.positions
    case Seeds(_, mark) => IsPrice(mark)
    case RequestsSettlement(id, _, _) => FreshIntent(s, id)
    case Submits(n, _) => n in s.db.outbox
    case Resolves(n, _) => n in s.db.intents && InFlight(s.db.intents[n])
    case Polls(position) => position < |s.chain.log| && s.chain.log[position].kind.Of?
    case Records(copy) => copy in s.polled && copy.kind.Of?
    case Advances(number) => forall k: nat | s.db.cursor < k <= number :: Recorded(s.db, k)
    case Applies(e) => e in s.db.events && s.db.events[e].kind == Deposit
    case Ignores(e) => e in s.db.events && s.db.events[e].kind != Deposit
    case Promotes(e) => e in s.db.facts && TxStatus(s.chain, e.fact).finalized &&
        TxStatus(s.chain, e.fact).hash == e.hash
    case Reverts(e) => e in s.db.facts && !s.db.facts[e].reverted && OrphanedBlock(s, e.hash)
    case RequestsEscrow(id, market, target, expiry) =>
      FreshIntent(s, id) && market in s.db.markets && s.db.markets[market].state != MarketClosed &&
      target == SumOf(s.db.positions, CollateralIn(market)) && expiry == s.chain.head + ESCROW_EXPIRY_BLOCKS &&
      market !in s.chain.final.settled
    // both legs are 64-bit numbers
    case PostsOutside(_, _, credit) => credit != -TWO_TO_THE_63
    case _ => true
  }

  ghost function Next(s: Sys, step: Step): Sys
    requires Allowed(s, step)
  {
    match step
    case Deposits(user, amount) => s.(chain := UserDeposit(s.chain, user, amount))
    case Mines(depth, shuffled, hash) => s.(chain := Mine(s.chain, depth, shuffled, hash))
    case SetsConfirms(confirms) => s.(chain := SetConfirms(s.chain, confirms))
    case RequestsWithdraw(id, user, amount, request, expiry) =>
      s.(db := RequestWithdraw(s.db, id, user, amount, request, expiry).0)
    case Opens(position, user, market, side, size, request) =>
      s.(db := OpenPosition(s.db, position, user, market, side, size, request).0)
    case Closes(position, mark, liquidation) => s.(db := ClosePosition(s.db, position, mark, liquidation).0)
    case Seeds(market, mark) => s.(db := SeedMarket(s.db, market, mark))
    case Reprices(market, mark) => s.(db := SetMark(s.db, market, mark))
    case RequestsSettlement(id, market, outcome) => s.(db := RequestSettlement(s.db, id, market, outcome).0)
    case Freezes(subject) => s.(db := s.db.(frozen := s.db.frozen + {subject}))
    case Unfreezes(subject) => s.(db := s.db.(frozen := s.db.frozen - {subject}))
    case Submits(n, fate) => s.(chain := SubmitTx(s.chain, s.db.outbox[n], fate).0)
    case Marks(n) => s.(db := MarkSubmitted(s.db, n))
    case Resolves(n, deadlinePassed) => Resolve(s, n, deadlinePassed)
    case Polls(position) => s.(polled := s.polled + {s.chain.log[position]})
    case Records(copy) => s.(db := RecordEvent(s.db, copy))
    case Advances(number) => s.(db := AdvanceCursor(s.db, number))
    case Applies(e) => s.(db := ApplyDeposit(s.db, e).0)
    case Ignores(e) => s.(db := SetStatus(s.db, e, Ignored))
    case Promotes(e) => s.(db := MarkFactFinalized(s.db, e))
    case Reverts(e) => s.(db := RevertFact(s.db, e).0)
    case RequestsEscrow(id, market, target, expiry) => s.(db := RequestEscrowSet(s.db, id, market, target, expiry))
    case PostsOutside(text, user, amount) => s.(db := PostOutside(s.db, text, user, amount))
  }

  ghost predicate IsTrace(s: Sys, steps: seq<Step>)
    decreases |steps|
  {
    steps == [] || (Allowed(s, steps[0]) && IsTrace(Next(s, steps[0]), steps[1..]))
  }

  ghost function Final(s: Sys, steps: seq<Step>): Sys
    requires IsTrace(s, steps)
    decreases |steps|
  {
    if steps == [] then s else Final(Next(s, steps[0]), steps[1..])
  }
}
