/** The store's tables as one value, and every transaction of the engine as a function from
    tables to tables. A transaction that fails leaves the tables as they were. */
module Store {
  import opened Integers
  import opened GoVault
  import opened ChainModel
  import opened Accounts
  import opened Ledger
  import opened Margins

  datatype IntentState = StateReserved | StateSubmitted | StateConfirmed | StateExpired

  // `kind` is Withdraw, SettleMarket or EscrowSet; `amount` is the escrow target for the last.
  // `height` and `hash` are set by the confirmation; `created` is the rank of the row by creation.
  datatype Intent = Intent(kind: Kind, user: User, market: Market, amount: int64, state: IntentState, expiry: int64,
                           height: int, hash: Hash, created: nat)

  datatype EventStatus = Received | Applied | Ignored | OrphanedEvent

  datatype EventRow = EventRow(number: nat, kind: Kind, user: User, amount: int64, height: int, status: EventStatus)

  datatype FactRow = FactRow(amount: int64, height: int, finalized: bool, reverted: bool)

  datatype MarketState = MarketOpen | Settling | MarketClosed

  datatype MarketRow = MarketRow(mark: int64, state: MarketState, outcome: Option<int64>)

  datatype PositionState = OpenPos | ClosedPos | LiquidatedPos

  datatype Position = Position(user: User, market: Market, side: Side, size: int64, entry: int64, collateral: int64,
                               state: PositionState, request: Option<string>)

  // `requests` is the unique index on intent idempotency keys. `outside` is bookkeeping of the
  // model: the net amount outside callers have credited to users against `external`.
  datatype Db = Db(book: Book, intents: map<Nonce, Intent>, requests: map<string, Nonce>, outbox: map<Nonce, Tx>,
                   events: map<EventId, EventRow>, facts: map<EventId, FactRow>, cursor: nat,
                   markets: map<Market, MarketRow>, positions: map<nat, Position>, frozen: set<string>, outside: int)

  const EMPTY_DB := Db(OPENING, map[], map[], map[], map[], map[], 0, map[], map[], {}, 0)

  // `Refused` is the ledger's refusal: too little money, or a balance that does not fit.
  datatype Answer = Done | Replay(id: Nonce) | Invalid | Conflict | Halted | Refused | NotFound

  predicate InFlight(i: Intent)
  {
    i.state == StateReserved || i.state == StateSubmitted
  }

  predicate Frozen(db: Db, user: User)
  {
    user in db.frozen || "*" in db.frozen
  }

  // The ledger move of a transaction; None when the move, and so the transaction, fails.
  ghost function Move(db: Db, key: Key, legs: seq<Leg>): Option<Db>
  {
    var posting := Posting(db.book, Transfer(Some(key), legs));
    if posting.1.Posted? || posting.1.Replayed? then Some(db.(book := posting.0)) else None
  }

  /* ----- withdrawals ----- */

  function WithdrawTx(id: Nonce, user: User, amount: int64, expiry: int64): Tx
  {
    Tx(id, Withdraw, user, amount, "", 0, 0, expiry)
  }

  function ReserveLegs(user: User, amount: int64): seq<Leg>
  {
    [Leg(Available(user), Negated(amount)), Leg(Pending(user), amount)]
  }

  ghost function RequestWithdraw(db: Db, id: Nonce, user: User, amount: int64, request: string, expiry: int64): (Db,
      Answer)
  {
    if amount <= 0 then (db, Invalid)
    else if request != "" && request in db.requests then
      var prior := db.requests[request];
      if prior !in db.intents then (db, NotFound)
      else if db.intents[prior].user != user || IntentAmount(db.intents[prior]) != amount then (db, Conflict)
      else (db, Replay(prior))
    else if Frozen(db, user) then (db, Halted)
    else
      match Move(db, ReserveKey(id), ReserveLegs(user, amount))
      case None => (db, Refused)
      case Some(moved) =>
        (moved.(intents := db.intents[id := Intent(Withdraw, user, "", amount, StateReserved, expiry, 0, 0,
            |db.intents|)],
                requests := if request != "" then db.requests[request := id] else db.requests,
                outbox := db.outbox[id := WithdrawTx(id, user, amount, expiry)]), Done)
  }

  // A settlement intent is stored with amount zero.
  function IntentAmount(i: Intent): int
  {
    if i.kind == SettleMarket then 0 else i.amount
  }

  /* ----- settlement and escrow instructions ----- */

  function SettleTx(id: Nonce, market: Market, outcome: int64): Tx
  {
    Tx(id, SettleMarket, "", 0, market, 0, outcome, 0)
  }

  function SettleRequest(market: Market): string
  {
    "settle:" + market
  }

  function RequestSettlement(db: Db, id: Nonce, market: Market, outcome: int64): (Db, Answer)
  {
    var request := SettleRequest(market);
    if outcome != 0 && outcome != ONE then (db, Invalid)
    else if request in db.requests then
      var prior := db.requests[request];
      if prior !in db.intents || db.intents[prior].kind == Withdraw || db.intents[prior].market !in db.markets
          then (db, NotFound)
      else if db.markets[db.intents[prior].market].outcome != Some(outcome) then (db, Conflict)
      else (db, Replay(prior))
    else if market !in db.markets || db.markets[market].state != MarketOpen then (db, Conflict)
    else
      (db.(intents := db.intents[id := Intent(SettleMarket, "", market, 0, StateReserved, 0, 0, 0, |db.intents|)],
           requests := db.requests[request := id],
           markets := db.markets[market := db.markets[market].(state := Settling, outcome := Some(outcome))],
           outbox := db.outbox[id := SettleTx(id, market, outcome)]), Done)
  }

  function EscrowTx(id: Nonce, market: Market, target: int64, expiry: int64): Tx
  {
    Tx(id, EscrowSet, "", 0, market, target, 0, expiry)
  }

  // At most one escrow instruction per market is in flight.
  ghost predicate EscrowInFlight(db: Db, market: Market)
  {
    exists n | n in db.intents ::
      db.intents[n].kind == EscrowSet && db.intents[n].market == market && InFlight(db.intents[n])
  }

  ghost function RequestEscrowSet(db: Db, id: Nonce, market: Market, target: int64, expiry: int64): Db
  {
    if EscrowInFlight(db, market) then db
    else
      db.(intents := db.intents[id := Intent(EscrowSet, "", market, target, StateReserved, expiry, 0, 0, |db.intents|)],
          outbox := db.outbox[id := EscrowTx(id, market, target, expiry)])
  }

  function MarkSubmitted(db: Db, id: Nonce): Db
  {
    if id in db.intents && db.intents[id].state == StateReserved then
      db.(intents := db.intents[id := db.intents[id].(state := StateSubmitted)])
    else db
  }

  /* ----- positions ----- */

  function OpenLegs(user: User, collateral: int64): seq<Leg>
  {
    [Leg(Available(user), Negated(collateral)), Leg(Margin(user), collateral)]
  }

  ghost predicate HoldsOpen(db: Db, user: User, market: Market)
  {
    exists p | p in db.positions ::
      db.positions[p].user == user && db.positions[p].market == market && db.positions[p].state == OpenPos
  }

  // The request id belongs to the position: replaying an accepted request opens no second one.
  ghost predicate RequestUsed(db: Db, request: string)
  {
    exists p | p in db.positions :: db.positions[p].request == Some(request)
  }

  ghost predicate RequestFits(db: Db, request: string, user: User, market: Market, side: Side, size: int64)
  {
    exists p | p in db.positions ::
      var prior := db.positions[p];
      prior.request == Some(request) && prior.user == user && prior.market == market && prior.side == side &&
          prior.size == size
  }

  ghost function OpenPosition(db: Db, id: nat, user: User, market: Market, side: Side, size: int64,
      request: string): (Db, Answer)
  {
    if size <= 0 then (db, Invalid)
    else if request != "" && RequestUsed(db, request) then
      (db, if RequestFits(db, request, user, market, side, size) then Done else Conflict)
    else if market !in db.markets then (db, NotFound)
    else if db.markets[market].state != MarketOpen then (db, Conflict)
    else
      var mark := db.markets[market].mark;
      var collateral := InitialMargin64(side, size, mark);
      if collateral <= 0 then (db, Invalid)
      else if HoldsOpen(db, user, market) then (db, Conflict)
      else
        match Move(db, OpenKey(id), OpenLegs(user, collateral))
        case None => (db, Refused)
        case Some(moved) =>
          (moved.(positions := db.positions[id :=
             Position(user, market, side, size, mark, collateral, OpenPos, if request == "" then None
                 else Some(request))]), Done)
  }

  function CloseLegs(user: User, collateral: int64, payout: int64): seq<Leg>
  {
    [Leg(Margin(user), Negated(collateral)), Leg(Available(user), payout), Leg(Insurance, Wrapped(collateral - payout))]
  }

  ghost function CloseAs(db: Db, id: nat, key: Key, payout: int64, state: PositionState): (Db, Answer)
    requires id in db.positions
  {
    var p := db.positions[id];
    match Move(db, key, CloseLegs(p.user, p.collateral, payout))
    case None => (db, Refused)
    case Some(moved) => (moved.(positions := db.positions[id := p.(state := state)]), Done)
  }

  ghost function ClosePosition(db: Db, id: nat, mark: int64, liquidation: bool): (Db, Answer)
  {
    if id !in db.positions then (db, NotFound)
    else if db.positions[id].state != OpenPos then (db, Conflict)
    else
      var p := db.positions[id];
      var payout := Payout64(p.side, p.size, p.entry, p.collateral, mark, Penalty64(p.collateral, liquidation));
      CloseAs(db, id, CloseKey(id), payout, if liquidation then LiquidatedPos else ClosedPos)
  }

  function SeedMarket(db: Db, market: Market, mark: int64): Db
  {
    if market in db.markets then db else db.(markets := db.markets[market := MarketRow(mark, MarketOpen, None)])
  }

  function SetMark(db: Db, market: Market, mark: int64): Db
  {
    if market in db.markets && db.markets[market].state == MarketOpen then
      var clamped := if mark < 1000 then 1000 else if mark > ONE - 1000 then ONE - 1000 else mark;
      db.(markets := db.markets[market := db.markets[market].(mark := clamped)])
    else db
  }

  // The ids in ascending order.
  ghost function Ascending(ids: set<nat>): seq<nat>
  {
    if ids == {} then []
    else
      var top := Greatest(ids);
      Ascending(ids - {top}) + [top]
  }

  ghost function Greatest(ids: set<nat>): (top: nat)
    requires ids != {}
    ensures top in ids && forall i | i in ids :: i <= top
  {
    var i :| i in ids;
    var others := ids - {i};
    assert forall j | j in ids :: j == i || j in others;
    if others == {} then i
    else
      var rest := Greatest(others);
      if rest > i then rest else i
  }

  lemma AscendingUnfolds(ids: set<nat>)
    ensures ids == {} ==> Ascending(ids) == []
    ensures ids != {} ==> Ascending(ids) == Ascending(ids - {Greatest(ids)}) + [Greatest(ids)]
  {
  }

  ghost function OpenIn(db: Db, market: Market): set<nat>
  {
    set p | p in db.positions && db.positions[p].market == market && db.positions[p].state == OpenPos
  }

  ghost function SettleOne(db: Db, id: nat, outcome: int64): (Db, Answer)
  {
    if id !in db.positions || db.positions[id].state != OpenPos then (db, Conflict)
    else
      var p := db.positions[id];
      CloseAs(db, id, SettleKey(id), Payout64(p.side, p.size, p.entry, p.collateral, outcome, 0), ClosedPos)
  }

  ghost function SettleAll(db: Db, ids: seq<nat>, outcome: int64): (Db, Answer)
  {
    if ids == [] then (db, Done)
    else
      var before := SettleAll(db, ids[..|ids| - 1], outcome);
      if before.1 != Done then before else SettleOne(before.0, ids[|ids| - 1], outcome)
  }

  // Pays out every open position of the market, in id order, and closes the market; or nothing.
  ghost function SettleMarketRows(db: Db, market: Market, outcome: int64): (Db, Answer)
  {
    var paid := SettleAll(db, Ascending(OpenIn(db, market)), outcome);
    if paid.1 != Done || market !in db.markets then (db, if paid.1 != Done then paid.1 else NotFound)
    else (paid.0.(markets := paid.0.markets[market := db.markets[market].(state := MarketClosed)]), Done)
  }

  /* ----- resolving intents ----- */

  function PayLegs(user: User, amount: int64): seq<Leg>
  {
    [Leg(Pending(user), Negated(amount)), Leg(External, amount)]
  }

  function RefundLegs(user: User, amount: int64): seq<Leg>
  {
    [Leg(Pending(user), Negated(amount)), Leg(Available(user), amount)]
  }

  ghost function ConfirmEffect(db: Db, id: Nonce): (Db, Answer)
    requires id in db.intents
  {
    var i := db.intents[id];
    match i.kind
    case Withdraw =>
      (match Move(db, FinalKey(id), PayLegs(i.user, i.amount))
       case None => (db, Refused)
       case Some(moved) => (moved, Done))
    case SettleMarket =>
      if i.market !in db.markets then (db, NotFound)
      else if db.markets[i.market].outcome.None? then (db, Conflict)
      else SettleMarketRows(db, i.market, db.markets[i.market].outcome.value)
    case _ => (db, Done)
  }

  ghost function Confirm(db: Db, id: Nonce, height: int, hash: Hash): (Db, Answer)
  {
    if id !in db.intents then (db, NotFound)
    else if db.intents[id].state == StateConfirmed then (db, Done)
    else if !InFlight(db.intents[id]) then (db, Conflict)
    else
      var effect := ConfirmEffect(db, id);
      if effect.1 != Done then (db, effect.1)
      else
        (effect.0.(intents := effect.0.intents[id :=
           db.intents[id].(state := StateConfirmed, height := height, hash := hash)]), Done)
  }

  ghost function Expire(db: Db, id: Nonce, observed: int): (Db, Answer)
  {
    if id !in db.intents then (db, NotFound)
    else if db.intents[id].state == StateExpired then (db, Done)
    else if !InFlight(db.intents[id]) then (db, Conflict)
    else
      var i := db.intents[id];
      match i.kind
      case Withdraw =>
        if i.expiry <= 0 || observed <= i.expiry then (db, Conflict)
        else
          (match Move(db, RefundKey(id), RefundLegs(i.user, i.amount))
           case None => (db, Refused)
           case Some(moved) => (moved.(intents := db.intents[id := i.(state := StateExpired)]), Done))
      // A settlement must eventually happen: only its outbox row is re-armed.
      case SettleMarket => (db, Done)
      case _ => (db.(intents := db.intents[id := i.(state := StateExpired)]), Done)
  }

  /* ----- the inbox ----- */

  function EventIdOf(e: Event): EventId
  {
    EventId(e.fact, e.hash)
  }

  // Only events that are not orphaned are ever handed out, so the kind is a call's kind.
  function RecordEvent(db: Db, e: Event): Db
    requires e.kind.Of?
  {
    if EventIdOf(e) in db.events then db
    else db.(events := db.events[EventIdOf(e) := EventRow(e.number, e.kind.kind, e.user, e.amount, e.height, Received)])
  }

  function AdvanceCursor(db: Db, number: nat): Db
  {
    if number > db.cursor then db.(cursor := number) else db
  }

  function SetStatus(db: Db, e: EventId, status: EventStatus): Db
  {
    if e in db.events then db.(events := db.events[e := db.events[e].(status := status)]) else db
  }

  function CreditLegs(user: User, amount: int64): seq<Leg>
  {
    [Leg(External, Negated(amount)), Leg(Available(user), amount)]
  }

  // Credits a deposit at one confirmation. Keyed on the event, not the fact: a deposit that is
  // reorged out and included again is a new effect, because the first one is compensated.
  ghost function ApplyDeposit(db: Db, e: EventId): (Db, Answer)
  {
    if e !in db.events then (db, NotFound)
    else
      var row := db.events[e];
      match Move(db, CreditKey(e), CreditLegs(row.user, row.amount))
      case None => (db, Refused)
      case Some(moved) =>
        (SetStatus(moved.(facts := if e in db.facts then db.facts
                                   else db.facts[e := FactRow(row.amount, row.height, false, false)]), e, Applied),
                                       Done)
  }

  function MarkFactFinalized(db: Db, e: EventId): Db
  {
    if e in db.facts && !db.facts[e].reverted then db.(facts := db.facts[e := db.facts[e].(finalized := true)]) else db
  }

  function Clawback(db: Db, user: User, amount: int64): int64
  {
    var available := BalanceOf(db.book, Available(user));
    var clawback := if available < amount then available else amount;
    if clawback < 0 then 0 else clawback
  }

  function ClawbackLegs(user: User, clawback: int64, amount: int64): seq<Leg>
  {
    [Leg(Available(user), Negated(clawback)), Leg(Insurance, Negated(Wrapped(amount - clawback))),
        Leg(External, amount)]
  }

  // Compensates one credit. What the user has already spent the insurance fund absorbs, and the
  // account is frozen.
  ghost function RevertFact(db: Db, e: EventId): (Db, Answer)
  {
    if e !in db.facts || e !in db.events || db.facts[e].reverted then (db, NotFound)
    else
      var user, amount := db.events[e].user, db.facts[e].amount;
      var clawback := Clawback(db, user, amount);
      match Move(db, ClawbackKey(e), ClawbackLegs(user, clawback, amount))
      case None => (db, Refused)
      case Some(moved) =>
        (SetStatus(moved.(facts := db.facts[e := db.facts[e].(reverted := true)],
                          frozen := if clawback < amount then db.frozen + {user} else db.frozen), e, OrphanedEvent),
                              Done)
  }

  /* ----- outside callers ----- */

  // A balanced post between `external` and `available` that no protocol step stands behind.
  ghost function PostOutside(db: Db, text: string, user: User, amount: int64): Db
  {
    var t := Transfer(Some(OutsideKey(text)), CreditLegs(user, amount));
    var posting := Posting(db.book, t);
    if posting.1.Posted? then db.(book := posting.0, outside := db.outside + amount) else db
  }
}
