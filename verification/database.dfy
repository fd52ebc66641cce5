/** The store as the program runs it: tables updated in place, statement by statement, each
    transaction rolled back when it fails. Every method is proved to have the effect of its
    transaction in `Store`. */
module Postgres {
  import opened Integers
  import opened GoVault
  import opened ChainModel
  import opened Accounts
  import opened Ledger
  import opened Margins
  import opened Store

  class Database {
    const ledger: Tables
    var intents: map<Nonce, Intent>
    var requests: map<string, Nonce>
    var outbox: map<Nonce, Tx>
    var events: map<EventId, EventRow>
    var facts: map<EventId, FactRow>
    var cursor: nat
    var markets: map<Market, MarketRow>
    var positions: map<nat, Position>
    var frozen: set<string>
    ghost var outside: int

    ghost function View(): Db
      reads this, ledger
    {
      Db(ledger.View(), intents, requests, outbox, events, facts, cursor, markets, positions, frozen, outside)
    }

    constructor ()
      ensures fresh(ledger) && View() == EMPTY_DB
    {
      intents, requests, outbox, events, facts := map[], map[], map[], map[], map[];
      cursor, markets, positions, frozen, outside := 0, map[], map[], {}, 0;
      ledger := new Tables();
    }

    // A keyed ledger move inside a transaction.
    method MoveTx(key: Key, legs: seq<Leg>) returns (ok: bool)
      modifies ledger
      ensures ok <==> Move(old(View()), key, legs).Some?
      ensures View() == if ok then Move(old(View()), key, legs).value else old(View())
    {
      var out := ledger.Post(Transfer(Some(key), legs));
      ok := out.Posted? || out.Replayed?;
    }

    method RequestWithdraw(id: Nonce, user: User, amount: int64, request: string, expiry: int64)
        returns (answer: Answer)
      modifies this`intents, this`requests, this`outbox, ledger
      ensures (View(), answer) == Store.RequestWithdraw(old(View()), id, user, amount, request, expiry)
    {
      if amount <= 0 {
        return Invalid;
      }
      if request != "" && request in requests {
        var prior := requests[request];
        if prior !in intents {
          return NotFound;
        }
        if intents[prior].user != user || IntentAmount(intents[prior]) != amount {
          return Conflict;
        }
        return Replay(prior);
      }
      if user in frozen || "*" in frozen {
        return Halted;
      }
      var ok := MoveTx(ReserveKey(id), ReserveLegs(user, amount));
      if !ok {
        return Refused;
      }
      intents := intents[id := Intent(Withdraw, user, "", amount, StateReserved, expiry, 0, 0, |intents|)];
      if request != "" {
        requests := requests[request := id];
      }
      outbox := outbox[id := WithdrawTx(id, user, amount, expiry)];
      return Done;
    }

    method RequestSettlement(id: Nonce, market: Market, outcome: int64) returns (answer: Answer)
      modifies this`intents, this`requests, this`outbox, this`markets
      ensures (View(), answer) == Store.RequestSettlement(old(View()), id, market, outcome)
    {
      if outcome != 0 && outcome != ONE {
        return Invalid;
      }
      var request := SettleRequest(market);
      if request in requests {
        var prior := requests[request];
        if prior !in intents || intents[prior].kind == Withdraw || intents[prior].market !in markets {
          return NotFound;
        }
        if markets[intents[prior].market].outcome != Some(outcome) {
          return Conflict;
        }
        return Replay(prior);
      }
      if market !in markets || markets[market].state != MarketOpen {
        return Conflict;
      }
      intents := intents[id := Intent(SettleMarket, "", market, 0, StateReserved, 0, 0, 0, |intents|)];
      requests := requests[request := id];
      markets := markets[market := markets[market].(state := Settling, outcome := Some(outcome))];
      outbox := outbox[id := SettleTx(id, market, outcome)];
      return Done;
    }

    method RequestEscrowSet(id: Nonce, market: Market, target: int64, expiry: int64)
      modifies this`intents, this`outbox
      ensures View() == Store.RequestEscrowSet(old(View()), id, market, target, expiry)
    {
      var working := exists n | n in intents ::
        intents[n].kind == EscrowSet && intents[n].market == market && InFlight(intents[n]);
      if working {
        return;
      }
      intents := intents[id := Intent(EscrowSet, "", market, target, StateReserved, expiry, 0, 0, |intents|)];
      outbox := outbox[id := EscrowTx(id, market, target, expiry)];
    }

    method MarkSubmitted(id: Nonce)
      modifies this`intents
      ensures View() == Store.MarkSubmitted(old(View()), id)
    {
      if id in intents && intents[id].state == StateReserved {
        intents := intents[id := intents[id].(state := StateSubmitted)];
      }
    }

    /* ----- positions ----- */

    method OpenPosition(id: nat, user: User, market: Market, side: Side, size: int64, request: string)
        returns (answer: Answer)
      modifies this`positions, ledger
      ensures (View(), answer) == Store.OpenPosition(old(View()), id, user, market, side, size, request)
    {
      hide Move, InitialMargin64, HoldsOpen, RequestUsed, RequestFits;
      if size <= 0 {
        return Invalid;
      }
      if request != "" {
        var used := exists p | p in positions :: positions[p].request == Some(request);
        UsedIs(View(), request, used);
        if used {
          var fits := exists p | p in positions ::
            positions[p].request == Some(request) && positions[p].user == user && positions[p].market == market &&
            positions[p].side == side && positions[p].size == size;
          FitsIs(View(), request, user, market, side, size, fits);
          return if fits then Done else Conflict;
        }
      }
      if market !in markets {
        return NotFound;
      }
      if markets[market].state != MarketOpen {
        return Conflict;
      }
      var mark := markets[market].mark;
      var collateral := InitialMargin64(side, size, mark);
      if collateral <= 0 {
        return Invalid;
      }
      var holds := exists p | p in positions ::
        positions[p].user == user && positions[p].market == market && positions[p].state == OpenPos;
      HoldsIs(View(), user, market, holds);
      if holds {
        return Conflict;
      }
      var ok := MoveTx(OpenKey(id), OpenLegs(user, collateral));
      if !ok {
        return Refused;
      }
      positions := positions[id := Position(user, market, side, size, mark, collateral, OpenPos,
                                          if request == "" then None else Some(request))];
      return Done;
    }

    method CloseAs(id: nat, key: Key, payout: int64, state: PositionState) returns (answer: Answer)
      requires id in positions
      modifies this`positions, ledger
      ensures (View(), answer) == Store.CloseAs(old(View()), id, key, payout, state)
    {
      var p := positions[id];
      var ok := MoveTx(key, CloseLegs(p.user, p.collateral, payout));
      if !ok {
        return Refused;
      }
      positions := positions[id := p.(state := state)];
      return Done;
    }

    method ClosePosition(id: nat, mark: int64, liquidation: bool) returns (answer: Answer)
      modifies this`positions, ledger
      ensures (View(), answer) == Store.ClosePosition(old(View()), id, mark, liquidation)
    {
      hide Store.CloseAs, Mul64, Pnl64, Wrapped;
      if id !in positions {
        return NotFound;
      }
      var p := positions[id];
      if p.state != OpenPos {
        return Conflict;
      }
      var state, penalty: int64 := ClosedPos, 0;
      if liquidation {
        state, penalty := LiquidatedPos, Mul64(p.collateral, LIQUIDATION_PENALTY);
      }
      var profit := Pnl64(p.side, p.size, p.entry, mark);
      var payout := Wrapped(Wrapped(p.collateral + profit) - penalty);
      if payout < 0 {
        payout := 0;
      }
      answer := CloseAs(id, CloseKey(id), payout, state);
    }

    // The market's open positions, by id.
    method OpenPositions(market: Market) returns (ids: seq<nat>)
      ensures ids == Ascending(OpenIn(View(), market))
    {
      hide Ascending;
      var rest := set p | p in positions && positions[p].market == market && positions[p].state == OpenPos;
      ids := [];
      ghost var all := Ascending(OpenIn(View(), market));
      assert rest == OpenIn(View(), market) && all + [] == all;
      while rest != {}
        invariant all == Ascending(rest) + ids
        decreases |rest|
      {
        var top := Highest(rest);
        AscendingUnfolds(rest);
        rest, ids := rest - {top}, [top] + ids;
      }
      AscendingUnfolds(rest);
    }

    // Pays out the listed positions one by one, stopping at the first that fails.
    method SettlePositions(ids: seq<nat>, outcome: int64) returns (answer: Answer)
      modifies this`positions, ledger
      ensures answer == SettleAll(old(View()), ids, outcome).1
      ensures answer == Done ==> View() == SettleAll(old(View()), ids, outcome).0
    {
      ghost var before := View();
      var i := 0;
      while i < |ids|
        invariant 0 <= i <= |ids|
        invariant SettleAll(before, ids[..i], outcome) == (View(), Done)
      {
        SettleSnoc(before, ids, i, outcome);
        answer := SettlePosition(ids[i], outcome);
        if answer != Done {
          SettleStops(before, ids, i + 1, outcome);
          return;
        }
        i := i + 1;
      }
      assert ids[..i] == ids;
      return Done;
    }

    method SettlePosition(id: nat, outcome: int64) returns (answer: Answer)
      modifies this`positions, ledger
      ensures (View(), answer) == SettleOne(old(View()), id, outcome)
    {
      hide Store.CloseAs, Mul64, Pnl64, Wrapped;
      if id !in positions || positions[id].state != OpenPos {
        return Conflict;
      }
      var p := positions[id];
      var payout := Wrapped(p.collateral + Pnl64(p.side, p.size, p.entry, outcome));
      if payout < 0 {
        payout := 0;
      }
      answer := CloseAs(id, SettleKey(id), payout, ClosedPos);
    }

    method SettleMarketTx(market: Market, outcome: int64) returns (answer: Answer)
      modifies this`positions, this`markets, ledger
      ensures answer == SettleMarketRows(old(View()), market, outcome).1
      ensures answer == Done ==> View() == SettleMarketRows(old(View()), market, outcome).0
    {
      var ids := OpenPositions(market);
      answer := SettlePositions(ids, outcome);
      if answer != Done {
        return;
      }
      if market !in markets {
        return NotFound;
      }
      markets := markets[market := markets[market].(state := MarketClosed)];
    }

    /* ----- resolving intents ----- */

    method Confirm(id: Nonce, height: int, hash: Hash) returns (answer: Answer)
      modifies this`intents, this`positions, this`markets, ledger
      ensures (View(), answer) == Store.Confirm(old(View()), id, height, hash)
    {
      hide Move, SettleMarketRows;
      if id !in intents {
        return NotFound;
      }
      var intent := intents[id];
      if intent.state == StateConfirmed {
        return Done;
      }
      if intent.state != StateSubmitted && intent.state != StateReserved {
        return Conflict;
      }
      match intent.kind {
        case Withdraw =>
          var ok := MoveTx(FinalKey(id), PayLegs(intent.user, intent.amount));
          if !ok {
            return Refused;
          }
        case SettleMarket =>
          if intent.market !in markets {
            return NotFound;
          }
          if markets[intent.market].outcome.None? {
            return Conflict;
          }
          var keys, entries, balances, rows, open := ledger.keys, ledger.entries, ledger.balances, markets, positions;
          answer := SettleMarketTx(intent.market, markets[intent.market].outcome.value);
          if answer != Done {
            ledger.keys, ledger.entries, ledger.balances, markets, positions := keys, entries, balances, rows, open;
            return;
          }
        case _ =>
      }
      intents := intents[id := intent.(state := StateConfirmed, height := height, hash := hash)];
      return Done;
    }

    method Expire(id: Nonce, observed: int) returns (answer: Answer)
      modifies this`intents, ledger
      ensures (View(), answer) == Store.Expire(old(View()), id, observed)
    {
      if id !in intents {
        return NotFound;
      }
      var intent := intents[id];
      if intent.state == StateExpired {
        return Done;
      }
      if intent.state != StateSubmitted && intent.state != StateReserved {
        return Conflict;
      }
      if intent.kind == Withdraw {
        if intent.expiry <= 0 || observed <= intent.expiry {
          return Conflict;
        }
        var ok := MoveTx(RefundKey(id), RefundLegs(intent.user, intent.amount));
        if !ok {
          return Refused;
        }
      }
      if intent.kind == SettleMarket {
        return Done;
      }
      intents := intents[id := intent.(state := StateExpired)];
      return Done;
    }

    /* ----- the inbox ----- */

    method RecordEvent(e: Event) returns (isNew: bool)
      requires e.kind.Of?
      modifies this`events
      ensures View() == Store.RecordEvent(old(View()), e) && (isNew <==> EventIdOf(e) !in old(events))
    {
      isNew := EventIdOf(e) !in events;
      if isNew {
        events := events[EventIdOf(e) := EventRow(e.number, e.kind.kind, e.user, e.amount, e.height, Received)];
      }
    }

    method AdvanceCursor(number: nat)
      modifies this`cursor
      ensures View() == Store.AdvanceCursor(old(View()), number)
    {
      cursor := if number > cursor then number else cursor;
    }

    method SetEventStatus(e: EventId, status: EventStatus)
      modifies this`events
      ensures View() == SetStatus(old(View()), e, status)
    {
      if e in events {
        events := events[e := events[e].(status := status)];
      }
    }

    method ApplyDeposit(e: EventId) returns (answer: Answer)
      modifies this`events, this`facts, ledger
      ensures (View(), answer) == Store.ApplyDeposit(old(View()), e)
    {
      if e !in events {
        return NotFound;
      }
      var row := events[e];
      var ok := MoveTx(CreditKey(e), CreditLegs(row.user, row.amount));
      if !ok {
        return Refused;
      }
      if e !in facts {
        facts := facts[e := FactRow(row.amount, row.height, false, false)];
      }
      SetEventStatus(e, Applied);
      return Done;
    }

    method MarkFactFinalized(e: EventId)
      modifies this`facts
      ensures View() == Store.MarkFactFinalized(old(View()), e)
    {
      if e in facts && !facts[e].reverted {
        facts := facts[e := facts[e].(finalized := true)];
      }
    }

    method RevertFact(e: EventId) returns (answer: Answer)
      modifies this`events, this`facts, this`frozen, ledger
      ensures (View(), answer) == Store.RevertFact(old(View()), e)
    {
      hide Move;
      if e !in facts || e !in events || facts[e].reverted {
        return NotFound;
      }
      var user, amount := events[e].user, facts[e].amount;
      var available := if Available(user) in ledger.balances then ledger.balances[Available(user)] else 0;
      var clawback: int := amount;
      if available < clawback {
        clawback := available;
      }
      if clawback < 0 {
        clawback := 0;
      }
      var shortfall: int := amount - clawback;
      var ok := MoveTx(ClawbackKey(e), ClawbackLegs(user, clawback, amount));
      if !ok {
        return Refused;
      }
      facts := facts[e := facts[e].(reverted := true)];
      SetEventStatus(e, OrphanedEvent);
      if shortfall > 0 {
        frozen := frozen + {user};
      }
      return Done;
    }

    method Freeze(subject: string)
      modifies this`frozen
      ensures View() == old(View()).(frozen := old(frozen) + {subject})
    {
      frozen := frozen + {subject};
    }
  }

  method Highest(ids: set<nat>) returns (top: nat)
    requires ids != {}
    ensures top == Greatest(ids)
  {
    var i :| i in ids;
    top := i;
    var rest := ids - {i};
    while rest != {}
      invariant top in ids && rest <= ids && forall j | j in ids :: j <= top || j in rest
      decreases |rest|
    {
      var j :| j in rest;
      rest := rest - {j};
      if j > top {
        top := j;
      }
    }
  }

  lemma UsedIs(db: Db, request: string, used: bool)
    requires used <==> exists p | p in db.positions :: db.positions[p].request == Some(request)
    ensures used <==> RequestUsed(db, request)
  {
  }

  lemma FitsIs(db: Db, request: string, user: User, market: Market, side: Side, size: int64, fits: bool)
    requires fits <==> exists p | p in db.positions ::
               db.positions[p].request == Some(request) && db.positions[p].user == user &&
               db.positions[p].market == market && db.positions[p].side == side && db.positions[p].size == size
    ensures fits <==> RequestFits(db, request, user, market, side, size)
  {
  }

  lemma HoldsIs(db: Db, user: User, market: Market, holds: bool)
    requires holds <==> exists p | p in db.positions ::
               db.positions[p].user == user && db.positions[p].market == market && db.positions[p].state == OpenPos
    ensures holds <==> HoldsOpen(db, user, market)
  {
  }

  lemma SettleSnoc(db: Db, ids: seq<nat>, i: nat, outcome: int64)
    requires i < |ids|
    ensures var before := SettleAll(db, ids[..i], outcome);
      SettleAll(db, ids[..i + 1], outcome) == if before.1 != Done then before else SettleOne(before.0, ids[i], outcome)
  {
    assert ids[..i + 1][..i] == ids[..i];
  }

  // A settlement that fails at some position fails as a whole with the same answer.
  lemma {:induction false} SettleStops(db: Db, ids: seq<nat>, i: nat, outcome: int64)
    requires i <= |ids| && SettleAll(db, ids[..i], outcome).1 != Done
    ensures SettleAll(db, ids, outcome).1 == SettleAll(db, ids[..i], outcome).1
    decreases |ids| - i
  {
    if i < |ids| {
      assert ids[..i + 1][..i] == ids[..i];
      SettleStops(db, ids, i + 1, outcome);
    } else {
      assert ids[..i] == ids;
    }
  }
}
