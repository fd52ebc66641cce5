/** What every transaction of the store keeps: sound books, one row of state behind every used
    idempotency key, `external` explained to the unit by credits and payouts, and every user's
    reserved and margin balances backed by the rows that claim them. */
module StoreInvariants {
  import opened Integers
  import opened Sums
  import opened GoVault
  import opened ChainModel
  import opened Accounts
  import opened Ledger
  import opened Margins
  import opened Store

  /* ----- the columns that explain the accounts ----- */

  function Paid(i: Intent): int
  {
    if i.kind == Withdraw && i.state == StateConfirmed then i.amount else 0
  }

  function ReservedFor(user: User): Intent -> int
  {
    (i: Intent) => if i.kind == Withdraw && InFlight(i) && i.user == user then i.amount as int else 0
  }

  function Credit(f: FactRow): int
  {
    if f.reverted then 0 else f.amount
  }

  function CollateralFor(user: User): Position -> int
  {
    (p: Position) => if p.state == OpenPos && p.user == user then p.collateral else 0
  }

  /* ----- the invariant ----- */

  // A used key names a transition that the tables record as taken.
  predicate Justified(db: Db, key: Key)
  {
    match key
    case ReserveKey(n) => n in db.intents && db.intents[n].kind == Withdraw
    case FinalKey(n) => n in db.intents && db.intents[n].kind == Withdraw && db.intents[n].state == StateConfirmed
    case RefundKey(n) => n in db.intents && db.intents[n].kind == Withdraw && db.intents[n].state == StateExpired
    case CreditKey(e) => e in db.facts
    case ClawbackKey(e) => e in db.facts && db.facts[e].reverted
    case OpenKey(p) => p in db.positions
    case CloseKey(p) => p in db.positions && db.positions[p].state != OpenPos
    case SettleKey(p) => p in db.positions && db.positions[p].state != OpenPos
    case OutsideKey(_) => true
  }

  ghost predicate Keyed(db: Db)
  {
    && (forall key | KeyUsed(db.book, key) :: Justified(db, key))
    && (forall e | e in db.facts :: KeyUsed(db.book, CreditKey(e)))
  }

  ghost predicate ExternalExplained(db: Db)
  {
    BalanceOf(db.book, External) == SumOf(db.intents, Paid) - SumOf(db.facts, Credit) - db.outside
  }

  ghost predicate BackedFor(db: Db, user: User)
  {
    && BalanceOf(db.book, Pending(user)) == SumOf(db.intents, ReservedFor(user))
    && BalanceOf(db.book, Margin(user)) == SumOf(db.positions, CollateralFor(user))
  }

  ghost predicate Backed(db: Db)
  {
    forall user :: BackedFor(db, user)
  }

  // What an intent sends to the chain: whom to pay and how much, which market to settle, or which
  // market is to hold what.
  predicate PayloadFits(n: Nonce, i: Intent, tx: Tx)
  {
    match i.kind
    case Withdraw => tx == Tx(n, Withdraw, i.user, i.amount, "", 0, 0, i.expiry)
    case SettleMarket => tx == Tx(n, SettleMarket, "", 0, i.market, 0, tx.outcome, 0)
    case EscrowSet => tx == Tx(n, EscrowSet, "", 0, i.market, i.amount, 0, i.expiry)
    case _ => false
  }

  predicate IntentRow(db: Db, n: Nonce)
    requires n in db.intents
  {
    var i := db.intents[n];
    && n.IntentId?
    && n in db.outbox && PayloadFits(n, i, db.outbox[n])
    && (i.kind == Withdraw ==> i.amount > 0 && i.expiry > 0)
    && (i.kind == EscrowSet ==> i.amount >= 0 && i.expiry > 0)
    && (i.kind == SettleMarket ==>
          i.expiry == 0 && i.market in db.markets && db.markets[i.market].state != MarketOpen &&
              db.markets[i.market].outcome == Some(db.outbox[n].outcome))
  }

  predicate FactRowFits(db: Db, e: EventId)
    requires e in db.facts
  {
    && e in db.events && db.events[e].kind == Deposit
    && db.facts[e].amount == db.events[e].amount && db.facts[e].height == db.events[e].height
  }

  predicate PositionRow(db: Db, p: nat)
    requires p in db.positions
  {
    var pos := db.positions[p];
    && pos.collateral > 0 && pos.size > 0
    && (pos.state == OpenPos ==> pos.market in db.markets && db.markets[pos.market].state != MarketClosed)
  }

  ghost predicate Rows(db: Db)
  {
    && (forall n | n in db.intents :: IntentRow(db, n))
    && (forall n | n in db.outbox :: n in db.intents)
    && (forall e | e in db.facts :: FactRowFits(db, e))
    && (forall p | p in db.positions :: PositionRow(db, p))
  }

  ghost predicate DbInv(db: Db)
  {
    BooksSound(db.book) && Keyed(db) && ExternalExplained(db) && Backed(db) && Rows(db)
  }

  // The parts of the invariant, for proofs that need one and not the rest.
  lemma DbParts(db: Db)
    requires DbInv(db)
    ensures BooksSound(db.book) && Keyed(db) && ExternalExplained(db) && Backed(db) && Rows(db)
  {
  }

  lemma DbWhole(db: Db)
    requires BooksSound(db.book) && Keyed(db) && ExternalExplained(db) && Backed(db) && Rows(db)
    ensures DbInv(db)
  {
  }

  lemma CreditKeyOf(db: Db, e: EventId)
    requires Keyed(db) && e in db.facts
    ensures KeyUsed(db.book, CreditKey(e))
  {
  }

  lemma IntentRowOf(db: Db, n: Nonce)
    requires Rows(db) && n in db.intents
    ensures IntentRow(db, n)
  {
  }

  lemma PositionRowOf(db: Db, p: nat)
    requires Rows(db) && p in db.positions
    ensures PositionRow(db, p)
  {
  }

  lemma FactRowOf(db: Db, e: EventId)
    requires Rows(db) && e in db.facts
    ensures FactRowFits(db, e)
  {
  }

  lemma CustodyNonNegative(b: Book, a: Account)
    requires BooksSound(b) && Custody(a)
    ensures BalanceOf(b, a) >= 0
  {
  }

  lemma EmptyStoreSound()
    ensures DbInv(EMPTY_DB)
  {
    OpeningSound();
    SumOfNothing(EMPTY_DB.intents, Paid);
    SumOfNothing(EMPTY_DB.facts, Credit);
    forall user ensures BackedFor(EMPTY_DB, user) {
      SumOfNothing(EMPTY_DB.intents, ReservedFor(user));
      SumOfNothing(EMPTY_DB.positions, CollateralFor(user));
    }
  }

  /* ----- ledger moves ----- */

  lemma MoveOnlyBook(db: Db, key: Key, legs: seq<Leg>)
    ensures Move(db, key, legs).Some? ==> Move(db, key, legs).value == db.(book := Move(db, key, legs).value.book)
  {
    hide Posting;
  }

  /* ----- which tables a transaction touches ----- */

  lemma RequestFrame(db: Db, id: Nonce, user: User, amount: int64, request: string, expiry: int64)
    ensures var db' := RequestWithdraw(db, id, user, amount, request, expiry).0;
      db' == db.(book := db'.book, intents := db'.intents, requests := db'.requests, outbox := db'.outbox)
  {
    hide Move;
    MoveOnlyBook(db, ReserveKey(id), ReserveLegs(user, amount));
  }

  // At most the status of events has changed.
  ghost predicate StatusOnly(events: map<EventId, EventRow>, events': map<EventId, EventRow>)
  {
    forall e | e in events :: e in events' && events'[e] == events[e].(status := events'[e].status)
  }

  lemma CreditFrame(db: Db, e: EventId)
    ensures var db' := ApplyDeposit(db, e).0;
      db' == db.(book := db'.book, facts := db'.facts, events := db'.events) && StatusOnly(db.events, db'.events)
  {
    hide Move;
    if e in db.events {
      MoveOnlyBook(db, CreditKey(e), CreditLegs(db.events[e].user, db.events[e].amount));
    }
  }

  lemma StatusFrame(db: Db, e: EventId, status: EventStatus)
    ensures var db' := SetStatus(db, e, status); db' == db.(events := db'.events) && StatusOnly(db.events, db'.events)
  {
    if e in db.events {
      assert SetStatus(db, e, status).events[e] == db.events[e].(status := status);
    }
  }

  lemma RevertFrame(db: Db, e: EventId)
    ensures var db' := RevertFact(db, e).0;
      && db' == db.(book := db'.book, facts := db'.facts, frozen := db'.frozen, events := db'.events)
      && StatusOnly(db.events, db'.events)
  {
    SameStatus(db.events);
    hide Move, Clawback, SetStatus, StatusOnly;
    if e in db.events && e in db.facts {
      var user, amount := db.events[e].user, db.facts[e].amount;
      var clawback := Clawback(db, user, amount);
      var moved := Move(db, ClawbackKey(e), ClawbackLegs(user, clawback, amount));
      MoveOnlyBook(db, ClawbackKey(e), ClawbackLegs(user, clawback, amount));
      if moved.Some? {
        StatusFrame(moved.value.(facts := db.facts[e := db.facts[e].(reverted := true)],
                                 frozen := if clawback < amount then db.frozen + {user} else db.frozen), e,
                                     OrphanedEvent);
      }
    }
  }

  lemma SameStatus(events: map<EventId, EventRow>)
    ensures StatusOnly(events, events)
  {
  }

  lemma ExpireFrame(db: Db, n: Nonce, observed: int)
    ensures var db' := Expire(db, n, observed).0; db' == db.(book := db'.book, intents := db'.intents)
  {
    hide Move, RefundLegs, InFlight;
    if n in db.intents && db.intents[n].kind == Withdraw {
      var i := db.intents[n];
      MoveOnlyBook(db, RefundKey(n), RefundLegs(i.user, i.amount));
    }
  }

  lemma OutsideFrame(db: Db, text: string, user: User, amount: int64)
    ensures var db' := PostOutside(db, text, user, amount); db' == db.(book := db'.book, outside := db'.outside)
  {
    hide Posting;
  }

  lemma OpenFrame(db: Db, id: nat, user: User, market: Market, side: Side, size: int64, request: string)
    ensures var db' := OpenPosition(db, id, user, market, side, size, request).0;
      db' == db.(book := db'.book, positions := db'.positions)
  {
    hide Move, HoldsOpen, RequestUsed, RequestFits;
    if market in db.markets {
      MoveOnlyBook(db, OpenKey(id), OpenLegs(user, InitialMargin64(side, size, db.markets[market].mark)));
    }
    hide InitialMargin64;
  }

  lemma CloseFrame(db: Db, id: nat, mark: int64, liquidation: bool)
    ensures var db' := ClosePosition(db, id, mark, liquidation).0;
        db' == db.(book := db'.book, positions := db'.positions)
  {
    hide Move;
    if id in db.positions {
      var p := db.positions[id];
      MoveOnlyBook(db, CloseKey(id), CloseLegs(p.user, p.collateral,
          Payout64(p.side, p.size, p.entry, p.collateral, mark, Penalty64(p.collateral, liquidation))));
    }
    hide Payout64, Penalty64;
  }

  // The balance column can hold the account's balance after this change.
  predicate Room(b: Book, a: Account, change: int)
  {
    FitsInt64(BalanceOf(b, a) + change)
  }

  predicate Lands(b: Book, legs: seq<Leg>, a: Account)
  {
    Room(b, a, Delta(legs, a)) && (Custody(a) ==> BalanceOf(b, a) + Delta(legs, a) >= 0)
  }

  // A balanced move under a fresh key succeeds exactly when every new balance fits its column and
  // no custody account is overdrawn, and then moves exactly its legs; under a used key it is a
  // no-op.
  lemma MoveIs(db: Db, key: Key, legs: seq<Leg>)
    requires BooksSound(db.book) && legs != [] && Total(legs) == 0 && forall a :: FitsInt64(Delta(legs, a))
    ensures KeyUsed(db.book, key) ==> Move(db, key, legs) == Some(db)
    ensures !KeyUsed(db.book, key) ==> (Move(db, key, legs).Some? <==> forall a :: Lands(db.book, legs, a))
    ensures Move(db, key, legs).Some? ==>
      var db' := Move(db, key, legs).value;
      && db' == db.(book := db'.book) && BooksSound(db'.book)
      && (forall k :: KeyUsed(db'.book, k) <==> KeyUsed(db.book, k) || k == key)
      && (!KeyUsed(db.book, key) ==> forall a :: BalanceOf(db'.book, a) == BalanceOf(db.book, a) + Delta(legs, a))
  {
    var t := Transfer(Some(key), legs);
    PostKeepsSound(db.book, t);
    BalanceCheckIsExact(legs);
    forall a ensures Lands(db.book, legs, a) <==> !Blocked(db.book, legs, a) {
      LandsIsNotBlocked(db.book, legs, a);
    }
    hide Lands, Blocked;
    if Move(db, key, legs).Some? && !KeyUsed(db.book, key) {
      AppendedIs(db.book, t, key);
    }
  }

  lemma LandsIsNotBlocked(b: Book, legs: seq<Leg>, a: Account)
    requires BooksSound(b) && FitsInt64(Delta(legs, a))
    ensures Lands(b, legs, a) <==> !Blocked(b, legs, a)
  {
    SoundBalance(b, a);
    assert Custody(a) ==> BalanceOf(b, a) >= 0;
    hide BooksSound, Delta, Wrapped, BalanceOf;
  }

  lemma AppendedIs(b: Book, t: Transfer, key: Key)
    requires t.key == Some(key) && forall a :: FitsInt64(Delta(t.legs, a))
    ensures forall k :: KeyUsed(Appended(b, t), k) <==> KeyUsed(b, k) || k == key
    ensures forall a :: BalanceOf(Appended(b, t), a) == BalanceOf(b, a) + Delta(t.legs, a)
  {
    var b' := Appended(b, t);
    forall k ensures KeyUsed(b', k) <==> KeyUsed(b, k) || k == key {
      assert b'.keys[|b.keys|] == Some(key);
    }
    forall a ensures BalanceOf(b', a) == BalanceOf(b, a) + Delta(t.legs, a) {
      NewBalanceOf(b, t, a);
    }
  }

  // What a successful move under a fresh key has done.
  ghost predicate MovedOnly(db: Db, db': Db, key: Key)
  {
    db' == db.(book := db'.book) && BooksSound(db'.book) &&
        (forall k :: KeyUsed(db'.book, k) <==> KeyUsed(db.book, k) || k == key)
  }

  function Shift(x: Account, y: Account, amount: int, a: Account): int
  {
    (if x == a then -amount else 0) + (if y == a then amount else 0)
  }

  lemma MoveMovesOnly(db: Db, key: Key, legs: seq<Leg>)
    requires BooksSound(db.book) && !KeyUsed(db.book, key) && legs != [] && Total(legs) == 0
    requires (forall a :: FitsInt64(Delta(legs, a))) && Move(db, key, legs).Some?
    ensures MovedOnly(db, Move(db, key, legs).value, key)
  {
    hide Total, Delta, Move, BooksSound, BalanceOf;
    MoveIs(db, key, legs);
  }

  lemma TwoLegShift(x: Account, y: Account, amount: int64)
    requires amount > -TWO_TO_THE_63
    ensures var legs := [Leg(x, Negated(amount)), Leg(y, amount)];
      Total(legs) == 0 && forall a :: Delta(legs, a) == Shift(x, y, amount, a)
  {
    var first, second := Leg(x, Negated(amount)), Leg(y, amount);
    hide Total, Delta;
    TwoLegs(first, second, x);
    forall a ensures Delta([first, second], a) == Shift(x, y, amount, a) {
      TwoLegs(first, second, a);
    }
  }

  lemma TwoLegMove(db: Db, key: Key, x: Account, y: Account, amount: int64)
    requires BooksSound(db.book) && !KeyUsed(db.book, key) && x != y && amount > -TWO_TO_THE_63
    ensures var r := Move(db, key, [Leg(x, Negated(amount)), Leg(y, amount)]);
      && (r.Some? <==> Room(db.book, x, 0 - amount) && Room(db.book, y, amount) &&
                       (Custody(x) ==> BalanceOf(db.book, x) >= amount) &&
                           (Custody(y) ==> BalanceOf(db.book, y) + amount >= 0))
      && (r.Some? ==>
            MovedOnly(db, r.value, key) &&
            forall a :: BalanceOf(r.value.book, a) == BalanceOf(db.book, a) + Shift(x, y, amount, a))
  {
    var legs := [Leg(x, Negated(amount)), Leg(y, amount)];
    hide Total, Delta, Negated, Move, BooksSound, KeyUsed, MovedOnly, BalanceOf, Lands, Room;
    TwoLegShift(x, y, amount);
    TwoLegLands(db.book, x, y, amount);
    MoveIs(db, key, legs);
    if Move(db, key, legs).Some? {
      MoveMovesOnly(db, key, legs);
    }
  }

  lemma TwoLegLands(b: Book, x: Account, y: Account, amount: int64)
    requires BooksSound(b) && x != y && amount > -TWO_TO_THE_63
    ensures (forall a :: Lands(b, [Leg(x, Negated(amount)), Leg(y, amount)], a)) <==>
            Room(b, x, 0 - amount) && Room(b, y, amount) && (Custody(x) ==> BalanceOf(b, x) >= amount) &&
                (Custody(y) ==> BalanceOf(b, y) + amount >= 0)
  {
    var legs := [Leg(x, Negated(amount)), Leg(y, amount)];
    hide Delta, Negated, BooksSound, BalanceOf;
    TwoLegShift(x, y, amount);
    assert Delta(legs, x) == 0 - amount && Delta(legs, y) == amount;
    assert Lands(b, legs, x) <==> Room(b, x, 0 - amount) && (Custody(x) ==> BalanceOf(b, x) >= amount);
    assert Lands(b, legs, y) <==> Room(b, y, amount) && (Custody(y) ==> BalanceOf(b, y) + amount >= 0);
    forall a | a != x && a != y ensures Lands(b, legs, a) {
      SoundBalance(b, a);
      if Custody(a) {
        CustodyNonNegative(b, a);
      }
    }
  }

  /* ----- withdrawals ----- */

  // Moving a withdrawal between states: the two legs carry exactly what the columns lose and gain.
  lemma IntentMoveExplained(db: Db, db': Db, n: Nonce, i: Intent, x: Account, y: Account, amount: int)
    requires ExternalExplained(db) && Backed(db)
    requires db'.intents == db.intents[n := i]
    requires db'.facts == db.facts && db'.positions == db.positions && db'.outside == db.outside
    requires forall a :: BalanceOf(db'.book, a) == BalanceOf(db.book, a) + Shift(x, y, amount, a)
    requires !x.Margin? && !y.Margin?
    requires Shift(x, y, amount, External) == Paid(i) - if n in db.intents then Paid(db.intents[n]) else 0
    requires forall user :: Shift(x, y, amount, Pending(user)) ==
                            ReservedFor(user)(i) - (if n in db.intents then ReservedFor(user)(db.intents[n]) else 0)
    ensures ExternalExplained(db') && Backed(db')
  {
    SumOfUpdate(db.intents, Paid, n, i);
    hide BalanceOf, ReservedFor;
    forall user ensures BackedFor(db', user) {
      assert BackedFor(db, user);
      SumOfUpdate(db.intents, ReservedFor(user), n, i);
    }
  }

  // Changing an intent row, and possibly using one more key, keeps the row and key invariants.
  lemma IntentRowChanged(db: Db, db': Db, n: Nonce)
    requires Keyed(db) && Rows(db)
    requires db' == db.(book := db'.book, intents := db'.intents, requests := db'.requests, outbox := db'.outbox)
    requires n in db'.intents && db'.intents == db.intents[n := db'.intents[n]]
    requires n in db'.outbox && db'.outbox == db.outbox[n := db'.outbox[n]]
    requires IntentRow(db', n)
    requires n in db.intents ==> db'.intents[n].kind == db.intents[n].kind &&
                                 (db'.intents[n].state == db.intents[n].state || InFlight(db.intents[n]))
    requires forall k | KeyUsed(db.book, k) :: KeyUsed(db'.book, k)
    requires forall k | KeyUsed(db'.book, k) :: KeyUsed(db.book, k) || Justified(db', k)
    ensures Keyed(db') && Rows(db')
  {
    hide KeyUsed, Keyed, Rows, Justified, IntentRow;
    IntentKeysKept(db, db', n);
    IntentRowsKept(db, db', n);
  }

  // A transition that was justified stays so while the intent only moves on.
  lemma IntentKeysKept(db: Db, db': Db, n: Nonce)
    requires Keyed(db) && db'.facts == db.facts && db'.positions == db.positions
    requires n in db'.intents && db'.intents == db.intents[n := db'.intents[n]]
    requires n in db.intents ==> db'.intents[n].kind == db.intents[n].kind &&
                                 (db'.intents[n].state == db.intents[n].state || InFlight(db.intents[n]))
    requires forall k | KeyUsed(db.book, k) :: KeyUsed(db'.book, k)
    requires forall k | KeyUsed(db'.book, k) :: KeyUsed(db.book, k) || Justified(db', k)
    ensures Keyed(db')
  {
    hide KeyUsed;
    forall k | KeyUsed(db'.book, k) ensures Justified(db', k) {
      if KeyUsed(db.book, k) {
        assert Justified(db, k);
      }
    }
  }

  lemma IntentRowsKept(db: Db, db': Db, n: Nonce)
    requires Rows(db) && db'.facts == db.facts && db'.positions == db.positions && db'.events == db.events &&
        db'.markets == db.markets
    requires n in db'.intents && db'.intents == db.intents[n := db'.intents[n]]
    requires n in db'.outbox && db'.outbox == db.outbox[n := db'.outbox[n]]
    requires IntentRow(db', n)
    ensures Rows(db')
  {
  }

  lemma RequestWithdrawOutcome(db: Db, id: Nonce, user: User, amount: int64, request: string, expiry: int64)
    requires DbInv(db) && id.IntentId? && id !in db.intents && expiry > 0
    ensures var r := RequestWithdraw(db, id, user, amount, request, expiry);
      (r.1 == Done <==>
          amount > 0 && (request == "" || request !in db.requests) && user !in db.frozen && "*" !in db.frozen
                        && BalanceOf(db.book, Available(user)) >= amount && Room(db.book, Pending(user), amount)) &&
      (r.1 != Done ==> r.0 == db)
  {
    hide DbInv, BooksSound, Keyed, Rows, Backed, ExternalExplained, KeyUsed, Move, MovedOnly;
    DbParts(db);
    SoundBalance(db.book, Available(user));
    CustodyNonNegative(db.book, Pending(user));
    UnusedKey(db, ReserveKey(id));
    if amount > 0 {
      TwoLegMove(db, ReserveKey(id), Available(user), Pending(user), amount);
    }
  }

  // A request that succeeds moves the amount to `pending` and writes the two rows.
  ghost predicate RequestStep(db: Db, db': Db, id: Nonce, user: User, amount: int64, expiry: int64)
  {
    && db' == db.(book := db'.book, intents := db.intents[id :=
        Intent(Withdraw, user, "", amount, StateReserved, expiry, 0, 0, |db.intents|)],
                  requests := db'.requests, outbox := db.outbox[id := Tx(id, Withdraw, user, amount, "", 0, 0, expiry)])
    && MovedOnly(db, db.(book := db'.book), ReserveKey(id))
    && forall a :: BalanceOf(db'.book, a) == BalanceOf(db.book, a) + Shift(Available(user), Pending(user), amount, a)
  }

  lemma RequestWithdrawShape(db: Db, id: Nonce, user: User, amount: int64, request: string, expiry: int64)
    requires BooksSound(db.book) && !KeyUsed(db.book, ReserveKey(id))
    requires RequestWithdraw(db, id, user, amount, request, expiry).1 == Done
    ensures amount > 0 && RequestStep(db, RequestWithdraw(db, id, user, amount, request, expiry).0, id, user, amount,
        expiry)
  {
    TwoLegMove(db, ReserveKey(id), Available(user), Pending(user), amount);
    hide Move, BooksSound;
  }

  lemma RequestStepKeeps(db: Db, db': Db, id: Nonce, user: User, amount: int64, expiry: int64)
    requires DbInv(db) && id.IntentId? && id !in db.intents && expiry > 0 && amount > 0
    requires RequestStep(db, db', id, user, amount, expiry)
    ensures DbInv(db')
  {
    IntentMoveExplained(db, db', id, db'.intents[id], Available(user), Pending(user), amount);
    IntentRowChanged(db, db', id);
  }

  lemma RequestWithdrawKeeps(db: Db, id: Nonce, user: User, amount: int64, request: string, expiry: int64)
    requires DbInv(db) && id.IntentId? && id !in db.intents && expiry > 0
    ensures DbInv(RequestWithdraw(db, id, user, amount, request, expiry).0)
  {
    RequestWithdrawOutcome(db, id, user, amount, request, expiry);
    var r := RequestWithdraw(db, id, user, amount, request, expiry);
    assert !Justified(db, ReserveKey(id));
    assert !KeyUsed(db.book, ReserveKey(id));
    assert BooksSound(db.book);
    hide DbInv, RequestWithdraw, RequestStep, KeyUsed, BooksSound;
    if r.1 == Done {
      RequestWithdrawShape(db, id, user, amount, request, expiry);
      RequestStepKeeps(db, r.0, id, user, amount, expiry);
    }
  }

  // A withdrawal in flight is covered by its user's reservation.
  lemma ReservationCovers(db: Db, n: Nonce)
    requires Backed(db) && Rows(db) && n in db.intents && InFlight(db.intents[n]) && db.intents[n].kind == Withdraw
    ensures BalanceOf(db.book, Pending(db.intents[n].user)) >= db.intents[n].amount > 0
  {
    var user := db.intents[n].user;
    assert BackedFor(db, user) && IntentRow(db, n);
    forall m | m in db.intents ensures ReservedFor(user)(db.intents[m]) >= 0 {
      assert IntentRow(db, m);
    }
    SumOfBounds(db.intents, ReservedFor(user), n);
  }

  // The reservation leaves `pending` under a fresh key, to `external` or back to `available`,
  // unless the balance there does not have room for it.
  lemma ResolvingMove(db: Db, n: Nonce, key: Key, y: Account)
    requires DbInv(db) && n in db.intents && InFlight(db.intents[n]) && db.intents[n].kind == Withdraw
    requires key == FinalKey(n) || key == RefundKey(n)
    requires y == External || y == Available(db.intents[n].user)
    ensures var i := db.intents[n];
      var r := Move(db, key, [Leg(Pending(i.user), Negated(i.amount)), Leg(y, i.amount)]);
      && (r.Some? <==> Room(db.book, y, i.amount)) && !KeyUsed(db.book, key)
      && (r.Some? ==>
            MovedOnly(db, r.value, key) &&
            forall a :: BalanceOf(r.value.book, a) == BalanceOf(db.book, a) + Shift(Pending(i.user), y, i.amount, a))
  {
    hide DbInv, BooksSound, Keyed, Rows, Backed, ExternalExplained, KeyUsed, BalanceOf, Move, MovedOnly;
    DbParts(db);
    ReservationCovers(db, n);
    UnusedKey(db, key);
    SoundBalance(db.book, Pending(db.intents[n].user));
    CustodyNonNegative(db.book, Available(db.intents[n].user));
    TwoLegMove(db, key, Pending(db.intents[n].user), y, db.intents[n].amount);
  }

  lemma UnusedKey(db: Db, key: Key)
    requires Keyed(db) && !Justified(db, key)
    ensures !KeyUsed(db.book, key)
  {
  }

  ghost predicate Resolved(db: Db, db': Db, n: Nonce, i': Intent, key: Key, y: Account)
    requires n in db.intents
  {
    && db' == db.(book := db'.book, intents := db.intents[n := i'])
    && MovedOnly(db, db'.(intents := db.intents), key)
    && forall a :: BalanceOf(db'.book, a) == BalanceOf(db.book, a) + Shift(Pending(i'.user), y, i'.amount, a)
  }

  lemma ResolvedKeeps(db: Db, db': Db, n: Nonce, i': Intent, key: Key, y: Account)
    requires DbInv(db) && n in db.intents && InFlight(db.intents[n]) && db.intents[n].kind == Withdraw
    requires i' == db.intents[n].(state := i'.state, height := i'.height, hash := i'.hash)
    requires (i'.state == StateConfirmed && key == FinalKey(n) && y == External)
          || (i'.state == StateExpired && key == RefundKey(n) && y == Available(i'.user))
    requires Resolved(db, db', n, i', key, y)
    ensures DbInv(db')
  {
    hide BooksSound, ExternalExplained, Backed, Rows, Keyed, Resolved;
    ResolvedExplained(db, db', n, i', key, y);
    ResolvedRows(db, db', n, i', key, y);
  }

  lemma ResolvedExplained(db: Db, db': Db, n: Nonce, i': Intent, key: Key, y: Account)
    requires ExternalExplained(db) && Backed(db) && n in db.intents && InFlight(db.intents[n]) &&
        db.intents[n].kind == Withdraw
    requires i' == db.intents[n].(state := i'.state, height := i'.height, hash := i'.hash)
    requires if y == External then i'.state == StateConfirmed else y == Available(i'.user) && i'.state == StateExpired
    requires Resolved(db, db', n, i', key, y)
    ensures ExternalExplained(db') && Backed(db') && BooksSound(db'.book)
  {
    hide BooksSound;
    IntentMoveExplained(db, db', n, i', Pending(i'.user), y, i'.amount);
  }

  lemma ResolvedRows(db: Db, db': Db, n: Nonce, i': Intent, key: Key, y: Account)
    requires Keyed(db) && Rows(db) && n in db.intents && InFlight(db.intents[n]) && db.intents[n].kind == Withdraw
    requires i' == db.intents[n].(state := i'.state, height := i'.height, hash := i'.hash)
    requires if i'.state == StateConfirmed then key == FinalKey(n) else i'.state == StateExpired && key == RefundKey(n)
    requires Resolved(db, db', n, i', key, y)
    ensures Keyed(db') && Rows(db')
  {
    assert IntentRow(db, n);
    hide BooksSound, Rows, Keyed, BalanceOf;
    assert Justified(db', key);
    assert db.outbox == db.outbox[n := db.outbox[n]];
    IntentRowChanged(db, db', n);
  }

  lemma ConfirmShape(db: Db, n: Nonce, height: int, hash: Hash)
    requires n in db.intents && InFlight(db.intents[n]) && db.intents[n].kind == Withdraw
    ensures var i := db.intents[n];
      var moved := Move(db, FinalKey(n), PayLegs(i.user, i.amount));
      moved.Some? && moved.value == db.(book := moved.value.book) ==>
        Confirm(db, n, height, hash) ==
        (db.(book := moved.value.book, intents := db.intents[n :=
            i.(state := StateConfirmed, height := height, hash := hash)]), Done)
    ensures Move(db, FinalKey(n), PayLegs(db.intents[n].user, db.intents[n].amount)).None? ==>
        Confirm(db, n, height, hash) == (db, Refused)
  {
    hide Move;
  }

  // A confirmation of a withdrawal in flight moves its reservation to `external`, and fails only
  // when the balance there has no room for it.
  lemma ConfirmWithdrawal(db: Db, n: Nonce, height: int, hash: Hash)
    requires DbInv(db) && n in db.intents && InFlight(db.intents[n]) && db.intents[n].kind == Withdraw
    ensures var r := Confirm(db, n, height, hash);
      if !Room(db.book, External, db.intents[n].amount) then r == (db, Refused)
      else
        var i' := db.intents[n].(state := StateConfirmed, height := height, hash := hash);
        && r.1 == Done && DbInv(r.0) && r.0 == db.(book := r.0.book, intents := db.intents[n := i'])
        && Resolved(db, r.0, n, i', FinalKey(n), External)
  {
    hide DbInv, Move, MovedOnly, BalanceOf, KeyUsed, Confirm, BooksSound;
    var r := Confirm(db, n, height, hash);
    var i' := db.intents[n].(state := StateConfirmed, height := height, hash := hash);
    MoveOnlyBook(db, FinalKey(n), PayLegs(i'.user, i'.amount));
    ResolvingMove(db, n, FinalKey(n), External);
    ConfirmShape(db, n, height, hash);
    if Room(db.book, External, i'.amount) {
      ResolvedKeeps(db, r.0, n, i', FinalKey(n), External);
    }
  }

  // A refund past the expiry height likewise.
  lemma ExpireWithdrawal(db: Db, n: Nonce, observed: int)
    requires DbInv(db) && n in db.intents && InFlight(db.intents[n]) && db.intents[n].kind == Withdraw
    ensures var r := Expire(db, n, observed);
      if observed <= db.intents[n].expiry then r == (db, Conflict)
      else if !Room(db.book, Available(db.intents[n].user), db.intents[n].amount) then r == (db, Refused)
      else
        var i' := db.intents[n].(state := StateExpired);
        && r.1 == Done && DbInv(r.0) && r.0 == db.(book := r.0.book, intents := db.intents[n := i'])
        && Resolved(db, r.0, n, i', RefundKey(n), Available(i'.user))
  {
    hide DbInv, Move, MovedOnly, BalanceOf, KeyUsed, BooksSound, Rows, Keyed, Backed, ExternalExplained;
    DbParts(db);
    IntentRowOf(db, n);
    if observed > db.intents[n].expiry {
      var r := Expire(db, n, observed);
      var i' := db.intents[n].(state := StateExpired);
      MoveOnlyBook(db, RefundKey(n), RefundLegs(i'.user, i'.amount));
      ResolvingMove(db, n, RefundKey(n), Available(i'.user));
      if Room(db.book, Available(i'.user), i'.amount) {
        assert r.0.(intents := db.intents) == Move(db, RefundKey(n), RefundLegs(i'.user, i'.amount)).value;
        ResolvedKeeps(db, r.0, n, i', RefundKey(n), Available(i'.user));
      }
    }
  }

  /* ----- intents that hold no funds ----- */

  // Rows that hold no funds may change state, and new ones may appear, without touching a balance.
  lemma FundlessIntent(db: Db, db': Db, n: Nonce)
    requires DbInv(db)
    requires db' == db.(intents := db'.intents, requests := db'.requests, outbox := db'.outbox)
    requires n in db'.intents && db'.intents == db.intents[n := db'.intents[n]]
    requires n in db'.outbox && db'.outbox == db.outbox[n := db'.outbox[n]]
    requires IntentRow(db', n)
    requires n in db.intents ==> db'.intents[n].kind == db.intents[n].kind &&
                                 (db'.intents[n].state == db.intents[n].state || InFlight(db.intents[n]))
    requires db'.intents[n].kind != Withdraw || (n in db.intents && InFlight(db'.intents[n]) &&
        InFlight(db.intents[n]) &&
                                                 db'.intents[n].user == db.intents[n].user &&
                                                     db'.intents[n].amount == db.intents[n].amount)
    ensures DbInv(db')
  {
    IntentMoveExplained(db, db', n, db'.intents[n], External, External, 0);
    IntentRowChanged(db, db', n);
  }

  lemma MarkSubmittedKeeps(db: Db, n: Nonce)
    requires DbInv(db)
    ensures DbInv(MarkSubmitted(db, n))
  {
    if n in db.intents && db.intents[n].state == StateReserved {
      assert IntentRow(db, n);
      assert db.outbox == db.outbox[n := db.outbox[n]];
      FundlessIntent(db, MarkSubmitted(db, n), n);
    }
  }

  lemma RequestEscrowSetKeeps(db: Db, id: Nonce, market: Market, target: int64, expiry: int64)
    requires DbInv(db) && id.IntentId? && id !in db.intents && expiry > 0 && target >= 0
    ensures DbInv(RequestEscrowSet(db, id, market, target, expiry))
  {
    if !EscrowInFlight(db, market) {
      FundlessIntent(db, RequestEscrowSet(db, id, market, target, expiry), id);
    }
  }

  predicate NotBehind(before: MarketRow, after: MarketRow)
  {
    && (before.state != MarketOpen ==> after.state != MarketOpen)
    && (before.state != MarketOpen ==> after.outcome == before.outcome)
  }

  // Replacing market rows with ones at least as far along keeps everything.
  lemma LiveMarketsOf(db: Db)
    requires Rows(db)
    ensures forall p | p in db.positions && db.positions[p].state == OpenPos ::
              db.positions[p].market in db.markets && db.markets[db.positions[p].market].state != MarketClosed
  {
    forall p | p in db.positions ensures PositionRow(db, p) {
      PositionRowOf(db, p);
    }
  }

  lemma MarketsAdvance(db: Db, markets: map<Market, MarketRow>)
    requires DbInv(db)
    requires forall m | m in db.markets :: m in markets && NotBehind(db.markets[m], markets[m])
    requires forall p | p in db.positions && db.positions[p].state == OpenPos ::
               db.positions[p].market in markets && markets[db.positions[p].market].state != MarketClosed
    ensures DbInv(db.(markets := markets))
  {
    var db' := db.(markets := markets);
    forall n | n in db'.intents ensures IntentRow(db', n) {
      assert IntentRow(db, n);
    }
    forall p | p in db'.positions ensures PositionRow(db', p) {
      assert PositionRow(db, p);
    }
    forall e | e in db'.facts ensures FactRowFits(db', e) {
      assert FactRowFits(db, e);
    }
    forall user ensures BackedFor(db', user) {
      assert BackedFor(db, user);
    }
    forall k | KeyUsed(db'.book, k) ensures Justified(db', k) {
      assert Justified(db, k);
    }
  }

  lemma RequestSettlementKeeps(db: Db, id: Nonce, market: Market, outcome: int64)
    requires DbInv(db) && id.IntentId? && id !in db.intents
    ensures DbInv(RequestSettlement(db, id, market, outcome).0)
  {
    hide DbInv, BooksSound, Keyed, Backed, ExternalExplained, Rows;
    var r := RequestSettlement(db, id, market, outcome);
    DbParts(db);
    LiveMarketsOf(db);
    if r.1 == Done {
      MarketsAdvance(db, r.0.markets);
      FundlessIntent(db.(markets := r.0.markets), r.0, id);
    }
  }

  lemma SeedMarketKeeps(db: Db, market: Market, mark: int64)
    requires DbInv(db)
    ensures DbInv(SeedMarket(db, market, mark))
  {
    hide DbInv, BooksSound, Keyed, Backed, ExternalExplained, Rows;
    DbParts(db);
    LiveMarketsOf(db);
    MarketsAdvance(db, SeedMarket(db, market, mark).markets);
  }

  lemma SetMarkKeeps(db: Db, market: Market, mark: int64)
    requires DbInv(db)
    ensures DbInv(SetMark(db, market, mark))
  {
    hide DbInv, BooksSound, Keyed, Backed, ExternalExplained, Rows;
    DbParts(db);
    LiveMarketsOf(db);
    MarketsAdvance(db, SetMark(db, market, mark).markets);
  }

  /* ----- positions ----- */

  lemma PositionMoveExplained(db: Db, db': Db, id: nat, p: Position, legs: seq<Leg>)
    requires ExternalExplained(db) && Backed(db)
    requires db'.positions == db.positions[id := p]
    requires db'.facts == db.facts && db'.intents == db.intents && db'.outside == db.outside
    requires forall a :: BalanceOf(db'.book, a) == BalanceOf(db.book, a) + Delta(legs, a)
    requires Delta(legs, External) == 0 && forall user :: Delta(legs, Pending(user)) == 0
    requires forall user :: Delta(legs, Margin(user)) ==
                            CollateralFor(user)(p) -
                                (if id in db.positions then CollateralFor(user)(db.positions[id]) else 0)
    ensures ExternalExplained(db') && Backed(db')
  {
    forall user ensures BackedFor(db', user) {
      assert BackedFor(db, user);
      SumOfUpdate(db.positions, CollateralFor(user), id, p);
    }
  }

  lemma PositionRowChanged(db: Db, db': Db, id: nat)
    requires Keyed(db) && Rows(db)
    requires db' == db.(book := db'.book, positions := db'.positions)
    requires id in db'.positions && db'.positions == db.positions[id := db'.positions[id]]
    requires PositionRow(db', id) && (id in db.positions && db.positions[id].state != OpenPos ==>
        db'.positions[id].state != OpenPos)
    requires forall k | KeyUsed(db.book, k) :: KeyUsed(db'.book, k)
    requires forall k | KeyUsed(db'.book, k) :: KeyUsed(db.book, k) || Justified(db', k)
    ensures Keyed(db') && Rows(db')
  {
    forall k | KeyUsed(db'.book, k) ensures Justified(db', k) {
      if KeyUsed(db.book, k) {
        assert Justified(db, k);
      }
    }
    forall p | p in db'.positions ensures PositionRow(db', p) {
      if p != id {
        assert PositionRow(db, p);
      }
    }
    forall n | n in db'.intents ensures IntentRow(db', n) {
      assert IntentRow(db, n);
    }
  }

  lemma OpenPositionShape(db: Db, id: nat, user: User, market: Market, side: Side, size: int64, request: string)
    requires DbInv(db) && id !in db.positions
    ensures var r := OpenPosition(db, id, user, market, side, size, request);
      && (r.1 != Done ==> r.0 == db)
      && (r.0 != db ==>
            && id in r.0.positions && market in db.markets && db.markets[market].state == MarketOpen
            && var p := r.0.positions[id];
              && p.state == OpenPos && p.user == user && p.market == market && p.size > 0 && p.collateral > 0
              && Move(db, OpenKey(id), OpenLegs(user, p.collateral)).Some?
              && r.0 == Move(db, OpenKey(id), OpenLegs(user, p.collateral)).value.(positions := db.positions[id := p]))
  {
    hide Move;
  }

  lemma OpenPositionKeeps(db: Db, id: nat, user: User, market: Market, side: Side, size: int64, request: string)
    requires DbInv(db) && id !in db.positions
    ensures var r := OpenPosition(db, id, user, market, side, size, request);
      DbInv(r.0) && (r.1 != Done ==> r.0 == db)
  {
    hide OpenPosition, DbInv, BooksSound, Keyed, Backed, ExternalExplained, Rows, BalanceOf, KeyUsed, Move;
    var r := OpenPosition(db, id, user, market, side, size, request);
    OpenPositionShape(db, id, user, market, side, size, request);
    DbParts(db);
    UnusedKey(db, OpenKey(id));
    if r.0 != db {
      var p := r.0.positions[id];
      TwoLegMove(db, OpenKey(id), Available(user), Margin(user), p.collateral);
      OpenedKeeps(db, r.0, id, p);
    }
  }

  lemma OpenedKeeps(db: Db, db': Db, id: nat, p: Position)
    requires DbInv(db) && id !in db.positions && p.state == OpenPos && p.size > 0 && p.collateral > 0
    requires p.market in db.markets && db.markets[p.market].state == MarketOpen
    requires db' == db.(book := db'.book, positions := db.positions[id := p])
    requires MovedOnly(db, db'.(positions := db.positions), OpenKey(id))
    requires forall a ::
        BalanceOf(db'.book, a) == BalanceOf(db.book, a) + Shift(Available(p.user), Margin(p.user), p.collateral, a)
    ensures DbInv(db')
  {
    var legs := OpenLegs(p.user, p.collateral);
    forall a ensures Delta(legs, a) == Shift(Available(p.user), Margin(p.user), p.collateral, a) {
      TwoLegs(Leg(Available(p.user), Negated(p.collateral)), Leg(Margin(p.user), p.collateral), a);
    }
    hide Delta, DbInv, BooksSound, Keyed, Backed, ExternalExplained, Rows, BalanceOf, KeyUsed;
    DbParts(db);
    PositionMoveExplained(db, db', id, p, legs);
    assert Justified(db', OpenKey(id));
    PositionRowChanged(db, db', id);
    DbWhole(db');
  }

  // An open position is covered by its user's margin account.
  lemma MarginCovers(db: Db, id: nat)
    requires Backed(db) && Rows(db) && id in db.positions && db.positions[id].state == OpenPos
    ensures BalanceOf(db.book, Margin(db.positions[id].user)) >= db.positions[id].collateral > 0
  {
    var user := db.positions[id].user;
    assert BackedFor(db, user) && PositionRow(db, id);
    forall p | p in db.positions ensures CollateralFor(user)(db.positions[p]) >= 0 {
      assert PositionRow(db, p);
    }
    SumOfBounds(db.positions, CollateralFor(user), id);
  }

  function CloseShift(p: Position, payout: int64, a: Account): int
  {
    (if Margin(p.user) == a then 0 - p.collateral else 0) + (if Available(p.user) == a then payout else 0) +
    (if Insurance == a then p.collateral - payout else 0)
  }

  // Every account has room for its part of a close.
  ghost predicate CloseFits(b: Book, p: Position, payout: int64)
  {
    forall a :: Room(b, a, CloseShift(p, payout, a))
  }

  lemma CloseDeltas(p: Position, payout: int64)
    requires p.collateral > 0 && payout >= 0
    ensures var legs := CloseLegs(p.user, p.collateral, payout);
        Total(legs) == 0 && forall a :: Delta(legs, a) == CloseShift(p, payout, a)
  {
    var legs := CloseLegs(p.user, p.collateral, payout);
    forall a ensures Total(legs) == 0 && Delta(legs, a) == CloseShift(p, payout, a) {
      ThreeLegs(legs[0], legs[1], legs[2], a);
    }
    assert Total(legs) == 0 by {
      ThreeLegs(legs[0], legs[1], legs[2], Insurance);
    }
  }

  lemma CloseMove(db: Db, id: nat, key: Key, payout: int64)
    requires DbInv(db) && id in db.positions && db.positions[id].state == OpenPos && payout >= 0
    requires key == CloseKey(id) || key == SettleKey(id)
    ensures var p := db.positions[id];
      var r := Move(db, key, CloseLegs(p.user, p.collateral, payout));
      && (r.Some? <==> CloseFits(db.book, p, payout))
      && (r.Some? ==>
            MovedOnly(db, r.value, key) &&
            forall a :: BalanceOf(r.value.book, a) == BalanceOf(db.book, a) + CloseShift(p, payout, a))
  {
    hide Total, Delta, DbInv, BooksSound, Keyed, Backed, ExternalExplained, Rows, BalanceOf, KeyUsed, Move;
    var p := db.positions[id];
    var legs := CloseLegs(p.user, p.collateral, payout);
    DbParts(db);
    UnusedKey(db, key);
    MarginCovers(db, id);
    CloseDeltas(p, payout);
    forall a ensures Lands(db.book, legs, a) <==> Room(db.book, a, CloseShift(p, payout, a)) {
      if Custody(a) {
        CustodyNonNegative(db.book, a);
      }
    }
    hide Lands, Room, CloseLegs;
    assert forall a :: FitsInt64(CloseShift(p, payout, a));
    hide CloseShift;
    MoveIs(db, key, legs);
  }

  // Closing an open position, by its user, by a liquidation or by a settlement, never fails for
  // lack of funds: it pays out exactly the posted collateral net of the insurance leg, unless one of
  // the balances has no room for its part.
  lemma CloseAsKeeps(db: Db, id: nat, key: Key, payout: int64, state: PositionState)
    requires DbInv(db) && id in db.positions && db.positions[id].state == OpenPos && payout >= 0 && state != OpenPos
    requires key == CloseKey(id) || key == SettleKey(id)
    ensures var p := db.positions[id];
      var r := CloseAs(db, id, key, payout, state);
      if !CloseFits(db.book, p, payout) then r == (db, Refused)
      else
        && r.1 == Done && DbInv(r.0)
        && r.0 == db.(book := r.0.book, positions := db.positions[id := p.(state := state)])
        && forall a :: BalanceOf(r.0.book, a) == BalanceOf(db.book, a) + CloseShift(p, payout, a)
  {
    var p := db.positions[id];
    var r := CloseAs(db, id, key, payout, state);
    CloseMove(db, id, key, payout);
    if CloseFits(db.book, p, payout) {
      assert r.1 == Done && r.0 == Move(db, key, CloseLegs(p.user, p.collateral, payout)).value.(positions :=
          db.positions[id := p.(state := state)]);
      hide CloseAs, Move;
      ClosedKeeps(db, r.0, id, key, payout, p.(state := state));
    }
  }

  lemma ClosedKeeps(db: Db, db': Db, id: nat, key: Key, payout: int64, p': Position)
    requires DbInv(db) && id in db.positions && db.positions[id].state == OpenPos && payout >= 0
    requires p'.state != OpenPos && p' == db.positions[id].(state := p'.state)
    requires key == CloseKey(id) || key == SettleKey(id)
    requires db' == db.(book := db'.book, positions := db.positions[id := p'])
    requires MovedOnly(db, db'.(positions := db.positions), key)
    requires forall a :: BalanceOf(db'.book, a) == BalanceOf(db.book, a) + CloseShift(db.positions[id], payout, a)
    ensures DbInv(db')
  {
    var legs := CloseLegs(p'.user, p'.collateral, payout);
    hide Delta, DbInv, BooksSound, Keyed, Backed, ExternalExplained, Rows, BalanceOf, KeyUsed;
    DbParts(db);
    PositionRowOf(db, id);
    CloseDeltas(p', payout);
    PositionMoveExplained(db, db', id, p', legs);
    assert Justified(db', key);
    PositionRowChanged(db, db', id);
    DbWhole(db');
  }

  // What a close of this position at this mark pays its user.
  function ClosePayout(p: Position, mark: int64, liquidation: bool): int64
  {
    Payout64(p.side, p.size, p.entry, p.collateral, mark, Penalty64(p.collateral, liquidation))
  }

  lemma ClosePositionKeeps(db: Db, id: nat, mark: int64, liquidation: bool)
    requires DbInv(db)
    ensures var r := ClosePosition(db, id, mark, liquidation);
      && DbInv(r.0) && (r.1 != Done ==> r.0 == db)
      && (r.1 == Done <==> id in db.positions && db.positions[id].state == OpenPos &&
                           CloseFits(db.book, db.positions[id], ClosePayout(db.positions[id], mark, liquidation)))
  {
    if id in db.positions && db.positions[id].state == OpenPos {
      CloseAsKeeps(db, id, CloseKey(id), ClosePayout(db.positions[id], mark, liquidation), if liquidation
          then LiquidatedPos else ClosedPos);
    }
    hide CloseAs, Payout64, Penalty64, CloseFits, DbInv;
  }

  // Whatever else is asked of a position changes nothing, and the answer says why.
  lemma CloseAnswers(db: Db, id: nat, mark: int64, liquidation: bool)
    requires DbInv(db)
    ensures var r := ClosePosition(db, id, mark, liquidation);
      && (r.1 == NotFound <==> id !in db.positions)
      && (r.1 == Conflict <==> id in db.positions && db.positions[id].state != OpenPos)
      && (r.1 == Refused <==> id in db.positions && db.positions[id].state == OpenPos &&
                              !CloseFits(db.book, db.positions[id], ClosePayout(db.positions[id], mark, liquidation)))
      && (r.1 != Done ==> r.0 == db)
  {
    hide DbInv, BalanceOf, CloseFits, ClosePayout;
    ClosePositionKeeps(db, id, mark, liquidation);
    hide CloseFits;
    ClosedTwice(db, id, mark, liquidation);
  }

  lemma ClosedTwice(db: Db, id: nat, mark: int64, liquidation: bool)
    ensures var r := ClosePosition(db, id, mark, liquidation);
      && (r.1 == NotFound <==> id !in db.positions)
      && (r.1 == Conflict <==> id in db.positions && db.positions[id].state != OpenPos)
      && (r.1 == Done || r.1 == NotFound || r.1 == Conflict || r.1 == Refused)
  {
    hide Move, Payout64, Penalty64, CloseLegs;
  }

  /* ----- settlement ----- */

  predicate Increasing(ids: seq<nat>)
  {
    forall j, k | 0 <= j < k < |ids| :: ids[j] < ids[k]
  }

  lemma IncreasingSnoc(ids: seq<nat>, top: nat)
    requires Increasing(ids) && forall i | i in ids :: i < top
    ensures Increasing(ids + [top])
  {
    forall j | 0 <= j < |ids| ensures ids[j] in ids {}
  }

  lemma NothingIncreases()
    ensures Increasing([])
  {
  }

  lemma {:induction false} AscendingEnumerates(ids: set<nat>)
    ensures forall i :: i in Ascending(ids) <==> i in ids
    ensures Increasing(Ascending(ids))
    decreases |ids|
  {
    hide Ascending, Increasing;
    AscendingUnfolds(ids);
    NothingIncreases();
    if ids != {} {
      var top := Greatest(ids);
      AscendingEnumerates(ids - {top});
      IncreasingSnoc(Ascending(ids - {top}), top);
    }
  }

  // What a market still owes its open positions, by receiving account.
  function OwedTo(a: Account, market: Market, outcome: int64): Position -> int
  {
    (p: Position) =>
      if p.state == OpenPos && p.market == market then
        CloseShift(p, SettlePayout(p, outcome), a)
      else 0
  }

  function SettlePayout(p: Position, outcome: int64): int64
  {
    Payout64(p.side, p.size, p.entry, p.collateral, outcome, 0)
  }

  // What paying out these positions adds to an account.
  function PaidOver(positions: map<nat, Position>, ids: seq<nat>, outcome: int64, a: Account): int
    requires forall id | id in ids :: id in positions
  {
    if ids == [] then 0
    else
      var p := positions[ids[|ids| - 1]];
      PaidOver(positions, ids[..|ids| - 1], outcome, a) + CloseShift(p, SettlePayout(p, outcome), a)
  }

  // After each of the payouts in turn, every account has had room for what it was paid so far.
  ghost predicate SettlementFits(b: Book, positions: map<nat, Position>, ids: seq<nat>, outcome: int64)
    requires forall id | id in ids :: id in positions
  {
    ids == [] ||
    (SettlementFits(b, positions, ids[..|ids| - 1], outcome) && forall a ::
        Room(b, a, PaidOver(positions, ids, outcome, a)))
  }

  // The payouts of a settlement, in id order, all find room.
  ghost predicate MarketFits(db: Db, market: Market, outcome: int64)
  {
    var ids := Ascending(OpenIn(db, market));
    (forall id | id in ids :: id in db.positions) && SettlementFits(db.book, db.positions, ids, outcome)
  }

  ghost predicate SettledRows(db: Db, db': Db, ids: seq<nat>)
  {
    && db' == db.(book := db'.book, positions := db'.positions)
    && db'.positions.Keys == db.positions.Keys
    && forall p | p in db.positions :: db'.positions[p] == if p in ids then db.positions[p].(state := ClosedPos)
        else db.positions[p]
  }

  // What is held and owed together has not changed, account by account.
  ghost predicate HeldOrOwed(db: Db, db': Db, market: Market, outcome: int64)
  {
    forall a :: BalanceOf(db'.book, a) + SumOf(db'.positions, OwedTo(a, market, outcome))
                == BalanceOf(db.book, a) + SumOf(db.positions, OwedTo(a, market, outcome))
  }

  lemma HeldOrOwedChain(a: Db, b: Db, c: Db, market: Market, outcome: int64)
    requires HeldOrOwed(a, b, market, outcome) && HeldOrOwed(b, c, market, outcome)
    ensures HeldOrOwed(a, c, market, outcome)
  {
    hide BalanceOf, SumOf, OwedTo;
  }

  // Each payout moves from what is owed to what is held.
  lemma SettleOneKeeps(db: Db, id: nat, market: Market, outcome: int64)
    requires DbInv(db) && id in OpenIn(db, market)
    ensures var r := SettleOne(db, id, outcome);
      var p := db.positions[id];
      if !CloseFits(db.book, p, SettlePayout(p, outcome)) then r == (db, Refused)
      else
        && r.1 == Done && DbInv(r.0) && r.0 == db.(book := r.0.book, positions :=
            db.positions[id := p.(state := ClosedPos)])
        && (forall a :: BalanceOf(r.0.book, a) == BalanceOf(db.book, a) + CloseShift(p, SettlePayout(p, outcome), a))
        && HeldOrOwed(db, r.0, market, outcome)
  {
    var p := db.positions[id];
    var r := SettleOne(db, id, outcome);
    CloseAsKeeps(db, id, SettleKey(id), SettlePayout(p, outcome), ClosedPos);
    hide DbInv, Payout64, SettleOne, CloseFits;
    if CloseFits(db.book, p, SettlePayout(p, outcome)) {
      forall a ensures BalanceOf(r.0.book, a) + SumOf(r.0.positions, OwedTo(a, market, outcome))
                       == BalanceOf(db.book, a) + SumOf(db.positions, OwedTo(a, market, outcome)) {
        SumOfUpdate(db.positions, OwedTo(a, market, outcome), id, p.(state := ClosedPos));
      }
    }
  }

  // Some of a market's open positions settled: what is held and owed together has not changed.
  ghost predicate PartlySettled(db: Db, db': Db, ids: seq<nat>, market: Market, outcome: int64)
    requires forall id | id in ids :: id in db.positions
  {
    && DbInv(db') && SettledRows(db, db', ids)
    && (forall a :: BalanceOf(db'.book, a) == BalanceOf(db.book, a) + PaidOver(db.positions, ids, outcome, a))
    && HeldOrOwed(db, db', market, outcome)
  }

  lemma {:induction false} SettleAllKeeps(db: Db, ids: seq<nat>, market: Market, outcome: int64)
    requires DbInv(db) && (forall p | p in ids :: p in db.positions && p in OpenIn(db, market))
    requires Increasing(ids)
    ensures var r := SettleAll(db, ids, outcome);
      && (r.1 == Done <==> SettlementFits(db.book, db.positions, ids, outcome))
      && (if r.1 == Done then PartlySettled(db, r.0, ids, market, outcome) else r.1 == Refused)
    decreases |ids|
  {
    hide DbInv, SettleOne, PartlySettled, Room, PaidOver;
    if ids == [] {
      NothingSettled(db, market, outcome);
    } else {
      var rest, id := ids[..|ids| - 1], ids[|ids| - 1];
      assert ids == rest + [id];
      SettleAllKeeps(db, rest, market, outcome);
      if SettleAll(db, rest, outcome).1 == Done {
        assert id !in rest && id in ids && id in OpenIn(db, market);
        SettleOneMore(db, SettleAll(db, rest, outcome).0, rest, id, market, outcome);
        assert SettleAll(db, ids, outcome).1 == Done <==> forall a ::
            Room(db.book, a, PaidOver(db.positions, ids, outcome, a));
      } else {
        assert !SettlementFits(db.book, db.positions, ids, outcome);
      }
    }
  }

  lemma NothingSettled(db: Db, market: Market, outcome: int64)
    requires DbInv(db)
    ensures PartlySettled(db, db, [], market, outcome)
  {
    hide DbInv, OwedTo;
  }

  lemma SettleOneMore(db: Db, before: Db, rest: seq<nat>, id: nat, market: Market, outcome: int64)
    requires (forall p | p in rest :: p in db.positions) && PartlySettled(db, before, rest, market, outcome)
    requires id !in rest && id in db.positions && id in OpenIn(db, market)
    ensures var r := SettleOne(before, id, outcome);
      && (r.1 == Done <==> forall a :: Room(db.book, a, PaidOver(db.positions, rest + [id], outcome, a)))
      && (if r.1 == Done then PartlySettled(db, r.0, rest + [id], market, outcome) else r.1 == Refused)
  {
    var p := db.positions[id];
    SameRow(db, before, rest, id);
    hide DbInv, SettleOne, HeldOrOwed, CloseShift, SettlePayout, BalanceOf, SettledRows, OpenIn, PaidOver, CloseFits,
         Room;
    SettleOneKeeps(before, id, market, outcome);
    PaidSnoc(db.positions, rest, id, outcome);
    FitsOneMore(db, before, rest, id, outcome);
    if SettleOne(before, id, outcome).1 == Done {
      RowsSnoc(db, before, SettleOne(before, id, outcome).0, rest, id);
      HeldOrOwedChain(db, before, SettleOne(before, id, outcome).0, market, outcome);
    }
  }

  lemma FitsOneMore(db: Db, before: Db, rest: seq<nat>, id: nat, outcome: int64)
    requires id in db.positions && forall p | p in rest :: p in db.positions
    requires forall a :: BalanceOf(before.book, a) == BalanceOf(db.book, a) + PaidOver(db.positions, rest, outcome, a)
    ensures CloseFits(before.book, db.positions[id], SettlePayout(db.positions[id], outcome)) <==>
            forall a :: Room(db.book, a, PaidOver(db.positions, rest + [id], outcome, a))
  {
    hide PaidOver, BalanceOf, CloseShift, SettlePayout, Room;
    var p := db.positions[id];
    forall a ensures Room(before.book, a, CloseShift(p, SettlePayout(p, outcome), a)) <==>
                     Room(db.book, a, PaidOver(db.positions, rest + [id], outcome, a)) {
      RoomOneMore(db, before, rest, id, outcome, a);
    }
    if CloseFits(before.book, p, SettlePayout(p, outcome)) {
      forall a ensures Room(db.book, a, PaidOver(db.positions, rest + [id], outcome, a)) {
        assert Room(before.book, a, CloseShift(p, SettlePayout(p, outcome), a));
      }
    } else {
      var a :| !Room(before.book, a, CloseShift(p, SettlePayout(p, outcome), a));
      assert !Room(db.book, a, PaidOver(db.positions, rest + [id], outcome, a));
    }
  }

  lemma RoomOneMore(db: Db, before: Db, rest: seq<nat>, id: nat, outcome: int64, a: Account)
    requires id in db.positions && forall p | p in rest :: p in db.positions
    requires BalanceOf(before.book, a) == BalanceOf(db.book, a) + PaidOver(db.positions, rest, outcome, a)
    ensures Room(before.book, a, CloseShift(db.positions[id], SettlePayout(db.positions[id], outcome), a)) <==>
            Room(db.book, a, PaidOver(db.positions, rest + [id], outcome, a))
  {
    hide BalanceOf, CloseShift, SettlePayout;
    assert (rest + [id])[..|rest|] == rest;
  }

  lemma SameRow(db: Db, before: Db, rest: seq<nat>, id: nat)
    requires SettledRows(db, before, rest) && id !in rest && id in db.positions
    ensures id in before.positions && before.positions[id] == db.positions[id]
    ensures forall market | id in OpenIn(db, market) :: id in OpenIn(before, market)
  {
  }

  lemma PaidSnoc(positions: map<nat, Position>, rest: seq<nat>, id: nat, outcome: int64)
    requires id in positions && forall p | p in rest :: p in positions
    ensures forall a :: PaidOver(positions, rest + [id], outcome, a) ==
                        PaidOver(positions, rest, outcome, a) +
                            CloseShift(positions[id], SettlePayout(positions[id], outcome), a)
  {
    hide CloseShift, SettlePayout;
    assert (rest + [id])[..|rest|] == rest;
  }

  lemma RowsSnoc(db: Db, before: Db, after: Db, rest: seq<nat>, id: nat)
    requires SettledRows(db, before, rest) && id in db.positions && id !in rest
    requires after == before.(book := after.book, positions :=
        before.positions[id := db.positions[id].(state := ClosedPos)])
    ensures SettledRows(db, after, rest + [id])
  {
  }

  // The open positions of the market are closed, and every other row is as it was.
  ghost predicate ClosedIn(db: Db, db': Db, market: Market)
  {
    && db'.positions.Keys == db.positions.Keys
    && forall p | p in db.positions ::
        db'.positions[p] == if db.positions[p].state == OpenPos && db.positions[p].market == market
                            then db.positions[p].(state := ClosedPos) else db.positions[p]
  }

  // Settling a market closes all its open positions and pays each side exactly what it is owed,
  // and leaves nothing owed; it fails as a whole exactly when some balance along the way has no
  // room for a payout.
  lemma SettleMarketKeeps(db: Db, market: Market, outcome: int64)
    requires DbInv(db) && market in db.markets && db.markets[market].state != MarketOpen
    ensures var r := SettleMarketRows(db, market, outcome);
      if !MarketFits(db, market, outcome) then r == (db, Refused)
      else
        && r.1 == Done && DbInv(r.0) && OpenIn(r.0, market) == {}
        && r.0 == db.(book := r.0.book, positions := r.0.positions, markets :=
            db.markets[market := db.markets[market].(state := MarketClosed)])
        && ClosedIn(db, r.0, market)
        && (forall a ::
            BalanceOf(r.0.book, a) == BalanceOf(db.book, a) + SumOf(db.positions, OwedTo(a, market, outcome)))
  {
    hide DbInv, BooksSound, Keyed, Backed, ExternalExplained, Rows, SettleAll, Ascending, BalanceOf, SettlementFits;
    var ids := Ascending(OpenIn(db, market));
    AscendingEnumerates(OpenIn(db, market));
    SettleAllKeeps(db, ids, market, outcome);
    if SettlementFits(db.book, db.positions, ids, outcome) {
      AllPaid(db, market, outcome, ids, SettleAll(db, ids, outcome).0);
    }
  }

  // Once every open position is paid, closing the market leaves nothing owed.
  lemma AllPaid(db: Db, market: Market, outcome: int64, ids: seq<nat>, paid: Db)
    requires (forall p :: p in ids <==> p in OpenIn(db, market)) && PartlySettled(db, paid, ids, market, outcome)
    requires market in db.markets
    ensures var db' := paid.(markets := paid.markets[market := db.markets[market].(state := MarketClosed)]);
      && DbInv(db') && OpenIn(db', market) == {} && ClosedIn(db, db', market)
      && db' == db.(book := db'.book, positions := db'.positions, markets :=
          db.markets[market := db.markets[market].(state := MarketClosed)])
      && (forall a :: BalanceOf(db'.book, a) == BalanceOf(db.book, a) + SumOf(db.positions, OwedTo(a, market, outcome)))
  {
    hide DbInv, BooksSound, Keyed, Backed, ExternalExplained, Rows, BalanceOf, OwedTo, PaidOver;
    var markets := paid.markets[market := db.markets[market].(state := MarketClosed)];
    forall p | p in paid.positions ensures !(paid.positions[p].market == market && paid.positions[p].state == OpenPos) {
      assert p in OpenIn(db, market) ==> p in ids;
    }
    DbParts(paid);
    LiveMarketsOf(paid);
    MarketsAdvance(paid, markets);
    forall a ensures SumOf(paid.positions, OwedTo(a, market, outcome)) == 0 {
      NothingOwed(paid.positions, a, market, outcome);
    }
  }

  lemma NothingOwed(positions: map<nat, Position>, a: Account, market: Market, outcome: int64)
    requires forall p | p in positions :: positions[p].market != market || positions[p].state != OpenPos
    ensures SumOf(positions, OwedTo(a, market, outcome)) == 0
  {
    SumOfSame(positions, OwedTo(a, market, outcome), (p: Position) => 0);
    SumOfZero(positions);
  }

  lemma {:induction false} SumOfZero(positions: map<nat, Position>)
    ensures SumOf(positions, (p: Position) => 0) == 0
    decreases |positions|
  {
    var zero := (p: Position) => 0;
    if positions == map[] {
      SumOfNothing(positions, zero);
    } else {
      var k :| k in positions;
      var rest := positions - {k};
      SumOfZero(rest);
      assert positions == rest[k := positions[k]];
      SumOfUpdate(rest, zero, k, positions[k]);
    }
  }

  /* ----- confirming and expiring, whatever the kind ----- */

  // The confirmation of an intent finds room for what it moves.
  ghost predicate ConfirmFits(db: Db, n: Nonce)
    requires n in db.intents
  {
    var i := db.intents[n];
    match i.kind
    case Withdraw => Room(db.book, External, i.amount)
    case SettleMarket =>
      i.market in db.markets && db.markets[i.market].outcome.Some? &&
          MarketFits(db, i.market, db.markets[i.market].outcome.value)
    case _ => true
  }

  // Only one state field of one intent row changes; nothing but that and the payouts moves.
  ghost predicate IntentStep(db: Db, db': Db, n: Nonce)
  {
    && n in db.intents && db'.intents.Keys == db.intents.Keys
    && (forall m | m in db.intents && m != n :: db'.intents[m] == db.intents[m])
    && db'.intents[n] == db.intents[n].(state := db'.intents[n].state, height := db'.intents[n].height, hash :=
        db'.intents[n].hash)
    && db'.outbox == db.outbox && db'.events == db.events && db'.facts == db.facts && db'.outside == db.outside
    && db'.cursor == db.cursor && db'.requests == db.requests && db'.frozen == db.frozen
    && db'.markets.Keys == db.markets.Keys
  }

  // A confirmation: the intent's row, and the market's when it settles one, and payouts.
  ghost predicate ConfirmedStep(db: Db, db': Db, n: Nonce, height: int, hash: Hash)
  {
    && IntentStep(db, db', n)
    && var i := db.intents[n];
      db'.intents[n] == i.(state := StateConfirmed, height := height, hash := hash) &&
      if i.kind != SettleMarket || i.market !in db.markets then db'.markets == db.markets
      else
        db'.markets == db.markets[i.market := db.markets[i.market].(state := MarketClosed)] &&
        OpenIn(db', i.market) == {}
  }

  // A pass of the expiry branch: settlements are only re-armed.
  ghost predicate ExpiredStep(db: Db, db': Db, n: Nonce, done: bool)
  {
    && IntentStep(db, db', n) && db'.markets == db.markets
    && db'.intents[n] == if done && db.intents[n].kind != SettleMarket then db.intents[n].(state := StateExpired)
        else db.intents[n]
  }

  lemma SettlementShape(db: Db, n: Nonce, height: int, hash: Hash)
    requires DbInv(db) && n in db.intents && InFlight(db.intents[n]) && db.intents[n].kind == SettleMarket
    ensures var i := db.intents[n];
      && i.market in db.markets && db.markets[i.market].state != MarketOpen && db.markets[i.market].outcome.Some?
      && var settled := SettleMarketRows(db, i.market, db.markets[i.market].outcome.value);
        Confirm(db, n, height, hash) ==
        if settled.1 == Done then
          (settled.0.(intents := settled.0.intents[n := i.(state := StateConfirmed, height := height, hash := hash)]),
              Done)
        else (db, settled.1)
  {
    assert IntentRow(db, n);
    hide SettleMarketRows;
  }

  lemma ConfirmSettlement(db: Db, n: Nonce, height: int, hash: Hash)
    requires DbInv(db) && n in db.intents && InFlight(db.intents[n]) && db.intents[n].kind == SettleMarket
    ensures var r := Confirm(db, n, height, hash);
      if ConfirmFits(db, n) then r.1 == Done && DbInv(r.0) && ConfirmedStep(db, r.0, n, height, hash)
      else r == (db, Refused)
  {
    var i := db.intents[n];
    SettlementShape(db, n, height, hash);
    var outcome := db.markets[i.market].outcome.value;
    SettleMarketKeeps(db, i.market, outcome);
    hide Confirm, SettleMarketRows, BalanceOf, MarketFits;
    if MarketFits(db, i.market, outcome) {
      SettledKeeps(db, SettleMarketRows(db, i.market, outcome).0, n,
          i.(state := StateConfirmed, height := height, hash := hash));
    }
  }

  lemma SettledKeeps(db: Db, settled: Db, n: Nonce, i: Intent)
    requires n in db.intents && InFlight(db.intents[n]) &&
        i == db.intents[n].(state := StateConfirmed, height := i.height, hash := i.hash)
    requires i.kind == SettleMarket && i.market in db.markets && DbInv(settled) && OpenIn(settled, i.market) == {}
    requires settled == db.(book := settled.book, positions := settled.positions,
                            markets := db.markets[i.market := db.markets[i.market].(state := MarketClosed)])
    ensures var db' := settled.(intents := db.intents[n := i]);
      DbInv(db') && ConfirmedStep(db, db', n, i.height, i.hash)
  {
    hide DbInv, BooksSound, Keyed, Backed, ExternalExplained, Rows;
    DbParts(settled);
    IntentRowOf(settled, n);
    assert settled.outbox == settled.outbox[n := settled.outbox[n]];
    FundlessIntent(settled, settled.(intents := db.intents[n := i]), n);
  }

  lemma EscrowStateChanged(db: Db, n: Nonce, i: Intent)
    requires DbInv(db) && n in db.intents && InFlight(db.intents[n]) && db.intents[n].kind == EscrowSet
    requires i == db.intents[n].(state := i.state, height := i.height, hash := i.hash)
    ensures DbInv(db.(intents := db.intents[n := i]))
  {
    assert IntentRow(db, n);
    assert db.outbox == db.outbox[n := db.outbox[n]];
    FundlessIntent(db, db.(intents := db.intents[n := i]), n);
  }

  lemma ConfirmEscrow(db: Db, n: Nonce, height: int, hash: Hash)
    requires DbInv(db) && n in db.intents && InFlight(db.intents[n]) && db.intents[n].kind == EscrowSet
    ensures var i' := db.intents[n].(state := StateConfirmed, height := height, hash := hash);
      Confirm(db, n, height, hash) == (db.(intents := db.intents[n := i']), Done) &&
          DbInv(db.(intents := db.intents[n := i']))
    ensures ConfirmFits(db, n)
  {
    EscrowStateChanged(db, n, db.intents[n].(state := StateConfirmed, height := height, hash := hash));
  }

  lemma ExpireEscrow(db: Db, n: Nonce, observed: int)
    requires DbInv(db) && n in db.intents && InFlight(db.intents[n]) && db.intents[n].kind == EscrowSet
    ensures var i' := db.intents[n].(state := StateExpired);
      Expire(db, n, observed) == (db.(intents := db.intents[n := i']), Done) &&
          DbInv(db.(intents := db.intents[n := i']))
  {
    EscrowStateChanged(db, n, db.intents[n].(state := StateExpired));
  }

  lemma RowChangeIsStep(db: Db, db': Db, n: Nonce, i: Intent)
    requires n in db.intents && i == db.intents[n].(state := i.state, height := i.height, hash := i.hash)
    requires db' == db.(book := db'.book, intents := db.intents[n := i])
    ensures IntentStep(db, db', n) && db'.markets == db.markets && db'.intents[n] == i
  {
  }

  lemma ConfirmedFunds(db: Db, n: Nonce, height: int, hash: Hash)
    requires DbInv(db) && n in db.intents && InFlight(db.intents[n]) && db.intents[n].kind in {Withdraw, EscrowSet}
    ensures var r := Confirm(db, n, height, hash);
      if ConfirmFits(db, n) then r.1 == Done && DbInv(r.0) && ConfirmedStep(db, r.0, n, height, hash)
      else r == (db, Refused)
  {
    hide DbInv, Confirm, BalanceOf, Resolved, IntentStep, MarketFits;
    var i := db.intents[n].(state := StateConfirmed, height := height, hash := hash);
    if i.kind == Withdraw {
      ConfirmWithdrawal(db, n, height, hash);
    } else {
      ConfirmEscrow(db, n, height, hash);
    }
    if ConfirmFits(db, n) {
      RowChangeIsStep(db, Confirm(db, n, height, hash).0, n, i);
    }
  }

  // Confirming an intent in flight fails only when what it moves does not fit, and as a whole.
  lemma ConfirmKeeps(db: Db, n: Nonce, height: int, hash: Hash)
    requires DbInv(db) && n in db.intents && InFlight(db.intents[n])
    ensures var r := Confirm(db, n, height, hash);
      && DbInv(r.0) && IntentStep(db, r.0, n)
      && if ConfirmFits(db, n) then r.1 == Done && ConfirmedStep(db, r.0, n, height, hash) else r == (db, Refused)
  {
    assert IntentRow(db, n);
    NoStep(db, n);
    hide DbInv, Confirm, ConfirmFits;
    if db.intents[n].kind == SettleMarket {
      ConfirmSettlement(db, n, height, hash);
    } else {
      ConfirmedFunds(db, n, height, hash);
    }
    hide IntentStep;
  }

  // An intent that has ended, or never was, is left alone, and the answer says which.
  lemma TerminalAnswers(db: Db, n: Nonce, height: int, hash: Hash, observed: int)
    requires n in db.intents ==> !InFlight(db.intents[n])
    ensures n !in db.intents ==>
              Confirm(db, n, height, hash) == (db, NotFound) && Expire(db, n, observed) == (db, NotFound)
    ensures n in db.intents && db.intents[n].state == StateConfirmed ==>
              Confirm(db, n, height, hash) == (db, Done) && Expire(db, n, observed) == (db, Conflict)
    ensures n in db.intents && db.intents[n].state == StateExpired ==>
              Confirm(db, n, height, hash) == (db, Conflict) && Expire(db, n, observed) == (db, Done)
  {
    hide Move, ConfirmEffect;
  }

  lemma NoStep(db: Db, n: Nonce)
    requires n in db.intents
    ensures IntentStep(db, db, n)
  {
  }

  // The refund of a withdrawal finds room.
  predicate RefundFits(db: Db, n: Nonce)
    requires n in db.intents
  {
    Room(db.book, Available(db.intents[n].user), db.intents[n].amount)
  }

  lemma ExpiredFunds(db: Db, n: Nonce, observed: int)
    requires DbInv(db) && n in db.intents && InFlight(db.intents[n]) && db.intents[n].kind in {Withdraw, EscrowSet}
    requires db.intents[n].kind == Withdraw ==> observed > db.intents[n].expiry
    ensures var r := Expire(db, n, observed);
      if db.intents[n].kind == Withdraw && !RefundFits(db, n) then r == (db, Refused)
      else r.1 == Done && DbInv(r.0) && ExpiredStep(db, r.0, n, true)
  {
    hide DbInv, Expire, BalanceOf, Resolved, IntentStep;
    var i := db.intents[n].(state := StateExpired);
    if i.kind == Withdraw {
      ExpireWithdrawal(db, n, observed);
    } else {
      ExpireEscrow(db, n, observed);
    }
    if i.kind != Withdraw || RefundFits(db, n) {
      RowChangeIsStep(db, Expire(db, n, observed).0, n, i);
    }
  }

  lemma ExpireNothing(db: Db, n: Nonce, observed: int)
    requires DbInv(db) && n in db.intents && InFlight(db.intents[n])
    requires db.intents[n].kind == SettleMarket || (db.intents[n].kind == Withdraw && observed <= db.intents[n].expiry)
    ensures Expire(db, n, observed) == (db, if db.intents[n].kind == Withdraw then Conflict else Done)
    ensures ExpiredStep(db, db, n, db.intents[n].kind != Withdraw)
  {
  }

  // Expiring an intent in flight fails only for a withdrawal: observed too early, or with no room for
  // its refund.
  lemma ExpireKeeps(db: Db, n: Nonce, observed: int)
    requires DbInv(db) && n in db.intents && InFlight(db.intents[n])
    ensures var r := Expire(db, n, observed);
      && DbInv(r.0) && ExpiredStep(db, r.0, n, r.1 == Done)
      && r.1 == if db.intents[n].kind != Withdraw then Done
                else if observed <= db.intents[n].expiry then Conflict
                else if !RefundFits(db, n) then Refused else Done
  {
    assert IntentRow(db, n);
    NoStep(db, n);
    hide DbInv, Expire, RefundFits, IntentStep;
    if db.intents[n].kind == SettleMarket || (db.intents[n].kind == Withdraw && observed <= db.intents[n].expiry) {
      ExpireNothing(db, n, observed);
    } else {
      ExpiredFunds(db, n, observed);
    }
  }

  /* ----- credits and their compensation ----- */

  lemma FactMoveExplained(db: Db, db': Db, e: EventId, f: FactRow, credited: int)
    requires ExternalExplained(db) && Backed(db)
    requires db'.facts == db.facts[e := f]
    requires db'.intents == db.intents && db'.positions == db.positions && db'.outside == db.outside
    requires credited == Credit(f) - if e in db.facts then Credit(db.facts[e]) else 0
    requires BalanceOf(db'.book, External) == BalanceOf(db.book, External) - credited
    requires forall user :: BalanceOf(db'.book, Pending(user)) == BalanceOf(db.book, Pending(user)) &&
                            BalanceOf(db'.book, Margin(user)) == BalanceOf(db.book, Margin(user))
    ensures ExternalExplained(db') && Backed(db')
  {
    SumOfUpdate(db.facts, Credit, e, f);
    forall user ensures BackedFor(db', user) {
      assert BackedFor(db, user);
    }
  }

  // Adding or changing a fact row, event statuses, and at most one key.
  lemma FactRowChanged(db: Db, db': Db, e: EventId)
    requires Keyed(db) && Rows(db)
    requires db' == db.(book := db'.book, events := db'.events, facts := db'.facts, frozen := db'.frozen, cursor :=
        db'.cursor)
    requires e in db'.facts && db'.facts == db.facts[e := db'.facts[e]]
    requires forall x | x in db.events ::
        x in db'.events && db'.events[x] == db.events[x].(status := db'.events[x].status)
    requires FactRowFits(db', e) && (e in db.facts && db.facts[e].reverted ==> db'.facts[e].reverted)
    requires forall k | KeyUsed(db.book, k) :: KeyUsed(db'.book, k)
    requires forall k | KeyUsed(db'.book, k) :: KeyUsed(db.book, k) || Justified(db', k)
    requires KeyUsed(db'.book, CreditKey(e))
    ensures Keyed(db') && Rows(db')
  {
    forall k | KeyUsed(db'.book, k) ensures Justified(db', k) {
      if KeyUsed(db.book, k) {
        assert Justified(db, k);
      }
    }
    forall x | x in db'.facts ensures FactRowFits(db', x) && KeyUsed(db'.book, CreditKey(x)) {
      if x != e {
        assert FactRowFits(db, x);
      }
    }
    forall n | n in db'.intents ensures IntentRow(db', n) {
      assert IntentRow(db, n);
    }
    forall p | p in db'.positions ensures PositionRow(db', p) {
      assert PositionRow(db, p);
    }
  }

  ghost predicate CreditedTo(db: Db, db': Db, user: User, amount: int)
  {
    forall a :: BalanceOf(db'.book, a) == BalanceOf(db.book, a) + Shift(External, Available(user), amount, a)
  }

  // Both sides of a credit have room for it.
  predicate CreditFits(b: Book, user: User, amount: int64)
  {
    Room(b, External, 0 - amount) && Room(b, Available(user), amount)
  }

  // Crediting a deposit event: the first time it credits, ever after it does nothing but mark the
  // event applied. It fails only when a first credit does not fit.
  lemma ApplyDepositKeeps(db: Db, e: EventId)
    requires DbInv(db) && e in db.events && db.events[e].kind == Deposit && db.events[e].amount > 0
    ensures var r := ApplyDeposit(db, e);
      if e !in db.facts && !CreditFits(db.book, db.events[e].user, db.events[e].amount) then r == (db, Refused)
      else
        && r.1 == Done && DbInv(r.0) && e in r.0.facts
        && r.0 == db.(book := r.0.book, facts := r.0.facts, events := db.events[e := db.events[e].(status := Applied)])
        && r.0.facts == (if e in db.facts then db.facts
                         else db.facts[e := FactRow(db.events[e].amount, db.events[e].height, false, false)])
        && (e in db.facts ==> r.0.book == db.book)
        && (e !in db.facts ==> CreditedTo(db, r.0, db.events[e].user, db.events[e].amount))
  {
    if e in db.facts {
      CreditReplays(db, e);
    } else {
      CreditFresh(db, e);
      hide ApplyDeposit;
      if CreditFits(db.book, db.events[e].user, db.events[e].amount) {
        CreditedKeeps(db, ApplyDeposit(db, e).0, e);
      }
    }
  }

  // The one and only credit of an event.
  ghost predicate CreditStep(db: Db, db': Db, e: EventId)
    requires e in db.events
  {
    var row := db.events[e];
    && db' == db.(book := db'.book, facts := db.facts[e := FactRow(row.amount, row.height, false, false)],
                  events := db.events[e := row.(status := Applied)])
    && MovedOnly(db, db.(book := db'.book), CreditKey(e))
    && CreditedTo(db, db', row.user, row.amount)
  }

  lemma CreditFresh(db: Db, e: EventId)
    requires DbInv(db) && e in db.events && e !in db.facts && db.events[e].amount > 0
    ensures if CreditFits(db.book, db.events[e].user, db.events[e].amount)
            then ApplyDeposit(db, e).1 == Done && CreditStep(db, ApplyDeposit(db, e).0, e)
            else ApplyDeposit(db, e) == (db, Refused)
  {
    hide DbInv, BooksSound, Keyed, Backed, ExternalExplained, Rows, BalanceOf, KeyUsed, Move;
    var row := db.events[e];
    DbParts(db);
    UnusedKey(db, CreditKey(e));
    CustodyNonNegative(db.book, Available(row.user));
    TwoLegMove(db, CreditKey(e), External, Available(row.user), row.amount);
  }

  lemma CreditedKeeps(db: Db, db': Db, e: EventId)
    requires DbInv(db) && e in db.events && e !in db.facts && db.events[e].kind == Deposit
    requires CreditStep(db, db', e)
    ensures DbInv(db')
  {
    FactMoveExplained(db, db', e, db'.facts[e], db.events[e].amount);
    assert Justified(db', CreditKey(e));
    FactRowChanged(db, db', e);
  }

  lemma CreditReplays(db: Db, e: EventId)
    requires DbInv(db) && e in db.facts && e in db.events && db.events[e].amount > 0
    ensures ApplyDeposit(db, e) == (db.(events := db.events[e := db.events[e].(status := Applied)]), Done)
    ensures DbInv(ApplyDeposit(db, e).0)
  {
    assert FactRowFits(db, e);
    var row := db.events[e];
    var legs := CreditLegs(row.user, row.amount);
    forall a ensures Total(legs) == 0 && FitsInt64(Delta(legs, a)) {
      TwoLegs(legs[0], legs[1], a);
    }
    assert Total(legs) == 0 by {
      TwoLegs(legs[0], legs[1], External);
    }
    hide Total, Delta;
    MoveIs(db, CreditKey(e), legs);
    EventsGrow(db, ApplyDeposit(db, e).0);
  }

  lemma MarkFactFinalizedKeeps(db: Db, e: EventId)
    requires DbInv(db)
    ensures DbInv(MarkFactFinalized(db, e))
  {
    if e in db.facts && !db.facts[e].reverted {
      var db' := MarkFactFinalized(db, e);
      assert FactRowFits(db, e);
      FactMoveExplained(db, db', e, db'.facts[e], 0);
      FactRowChanged(db, db', e);
    }
  }

  function ClawbackShift(user: User, clawback: int64, amount: int64, a: Account): int
  {
    (if Available(user) == a then 0 - clawback else 0) + (if Insurance == a then clawback - amount else 0) +
    (if External == a then amount else 0)
  }

  // Every account has room for its part of a compensation.
  ghost predicate ClawbackFits(db: Db, user: User, amount: int64)
  {
    forall a :: Room(db.book, a, ClawbackShift(user, Clawback(db, user, amount), amount, a))
  }

  lemma ClawbackMove(db: Db, e: EventId)
    requires DbInv(db) && e in db.facts && e in db.events && !db.facts[e].reverted && db.facts[e].amount > 0
    ensures var user, amount := db.events[e].user, db.facts[e].amount;
      var clawback := Clawback(db, user, amount);
      var r := Move(db, ClawbackKey(e), ClawbackLegs(user, clawback, amount));
      && 0 <= clawback <= amount && clawback <= BalanceOf(db.book, Available(user))
      && (r.Some? <==> ClawbackFits(db, user, amount))
      && (r.Some? ==>
            MovedOnly(db, r.value, ClawbackKey(e)) &&
            forall a :: BalanceOf(r.value.book, a) == BalanceOf(db.book, a) + ClawbackShift(user, clawback, amount, a))
  {
    var user, amount := db.events[e].user, db.facts[e].amount;
    hide DbInv, BooksSound, Keyed, Rows, Backed, ExternalExplained, KeyUsed, Move, MovedOnly, ClawbackShift;
    DbParts(db);
    UnusedKey(db, ClawbackKey(e));
    CustodyNonNegative(db.book, Available(user));
    ClawbackLegsMove(db, e, user, Clawback(db, user, amount), amount);
  }

  lemma ClawbackDeltas(user: User, clawback: int64, amount: int64)
    requires 0 <= clawback <= amount
    ensures var legs := ClawbackLegs(user, clawback, amount);
      Total(legs) == 0 && forall a :: Delta(legs, a) == ClawbackShift(user, clawback, amount, a)
  {
    var legs := ClawbackLegs(user, clawback, amount);
    forall a ensures Total(legs) == 0 && Delta(legs, a) == ClawbackShift(user, clawback, amount, a) {
      ThreeLegs(legs[0], legs[1], legs[2], a);
    }
    assert Total(legs) == 0 by {
      ThreeLegs(legs[0], legs[1], legs[2], External);
    }
  }

  lemma ClawbackLegsMove(db: Db, e: EventId, user: User, clawback: int64, amount: int64)
    requires BooksSound(db.book) && !KeyUsed(db.book, ClawbackKey(e))
    requires 0 <= clawback <= amount && clawback <= BalanceOf(db.book, Available(user))
    ensures var r := Move(db, ClawbackKey(e), ClawbackLegs(user, clawback, amount));
      && (r.Some? <==> forall a :: Room(db.book, a, ClawbackShift(user, clawback, amount, a)))
      && (r.Some? ==>
            MovedOnly(db, r.value, ClawbackKey(e)) &&
            forall a :: BalanceOf(r.value.book, a) == BalanceOf(db.book, a) + ClawbackShift(user, clawback, amount, a))
  {
    hide Total, Delta, BooksSound, KeyUsed, BalanceOf;
    var legs := ClawbackLegs(user, clawback, amount);
    ClawbackDeltas(user, clawback, amount);
    forall a ensures Lands(db.book, legs, a) <==> Room(db.book, a, ClawbackShift(user, clawback, amount, a)) {
      if Custody(a) {
        CustodyNonNegative(db.book, a);
      }
    }
    hide Lands, Room, ClawbackLegs;
    assert forall a :: FitsInt64(ClawbackShift(user, clawback, amount, a));
    hide ClawbackShift;
    MoveIs(db, ClawbackKey(e), legs);
  }

  // Compensating a credit never drives the user negative: what the user no longer holds is charged
  // to the insurance fund, and the user is frozen exactly when that happens. It fails only when a
  // balance has no room for its part.
  lemma RevertFactKeeps(db: Db, e: EventId)
    requires DbInv(db) && e in db.facts && !db.facts[e].reverted && db.facts[e].amount > 0
    ensures e in db.events
    ensures var user, amount := db.events[e].user, db.facts[e].amount;
      var clawback := Clawback(db, user, amount);
      var r := RevertFact(db, e);
      if !ClawbackFits(db, user, amount) then r == (db, Refused)
      else
        && r.1 == Done && DbInv(r.0)
        && r.0 == db.(book := r.0.book, facts := db.facts[e := db.facts[e].(reverted := true)], frozen := r.0.frozen,
                      events := db.events[e := db.events[e].(status := OrphanedEvent)])
        && (forall a :: BalanceOf(r.0.book, a) == BalanceOf(db.book, a) + ClawbackShift(user, clawback, amount, a))
        && BalanceOf(r.0.book, Available(user)) >= 0
        && r.0.frozen == if clawback < amount then db.frozen + {user} else db.frozen
  {
    var r := RevertFact(db, e);
    assert FactRowFits(db, e);
    var user, amount := db.events[e].user, db.facts[e].amount;
    ClawbackMove(db, e);
    RevertShape(db, e);
    hide RevertFact, Move, ClawbackFits;
    if ClawbackFits(db, user, amount) {
      RevertedKeeps(db, r.0, e, Clawback(db, user, amount));
    }
  }

  // In plain numbers: the user pays what the user has, up to the amount, the insurance fund pays the
  // rest, and the user is frozen if and only if there was a rest.
  lemma CompensationIsExact(db: Db, e: EventId)
    requires DbInv(db) && e in db.facts && !db.facts[e].reverted && db.facts[e].amount > 0
    requires e in db.events && RevertFact(db, e).1 == Done
    ensures var user, amount, db' := db.events[e].user, db.facts[e].amount, RevertFact(db, e).0;
      var had := BalanceOf(db.book, Available(user));
      && BalanceOf(db'.book, Available(user)) == (if had < amount then 0 else had - amount)
      && BalanceOf(db'.book, Insurance) == BalanceOf(db.book, Insurance) - (if had < amount then amount - had else 0)
      && BalanceOf(db'.book, External) == BalanceOf(db.book, External) + amount
      && db'.frozen == (if had < amount then db.frozen + {user} else db.frozen)
      && db'.facts[e].reverted && db'.events[e].status == OrphanedEvent
  {
    hide DbInv, BooksSound, Keyed, Backed, ExternalExplained, Rows, RevertFact, BalanceOf, ClawbackFits, Clawback;
    var user, amount := db.events[e].user, db.facts[e].amount;
    RevertFactKeeps(db, e);
    DbParts(db);
    CustodyNonNegative(db.book, Available(user));
    ClawbackIs(db, user, amount);
  }

  lemma ClawbackIs(db: Db, user: User, amount: int64)
    requires amount > 0 && BalanceOf(db.book, Available(user)) >= 0
    ensures var had := BalanceOf(db.book, Available(user));
      Clawback(db, user, amount) == if had < amount then had else amount
  {
  }

  lemma RevertShape(db: Db, e: EventId)
    requires e in db.facts && e in db.events && !db.facts[e].reverted
    ensures var user, amount := db.events[e].user, db.facts[e].amount;
      var clawback := Clawback(db, user, amount);
      var moved := Move(db, ClawbackKey(e), ClawbackLegs(user, clawback, amount));
      var r := RevertFact(db, e);
      moved.Some? && moved.value == db.(book := moved.value.book) ==>
        r == (db.(book := moved.value.book, facts := db.facts[e := db.facts[e].(reverted := true)],
                  frozen := if clawback < amount then db.frozen + {user} else db.frozen,
                  events := db.events[e := db.events[e].(status := OrphanedEvent)]), Done)
    ensures var user, amount := db.events[e].user, db.facts[e].amount;
      Move(db, ClawbackKey(e), ClawbackLegs(user, Clawback(db, user, amount), amount)).None? ==>
          RevertFact(db, e) == (db, Refused)
  {
    hide Move;
  }

  lemma RevertedKeeps(db: Db, db': Db, e: EventId, clawback: int64)
    requires DbInv(db) && e in db.facts && e in db.events && !db.facts[e].reverted && db.facts[e].amount > 0
    requires db' == db.(book := db'.book, facts := db.facts[e := db.facts[e].(reverted := true)], frozen := db'.frozen,
                        events := db.events[e := db.events[e].(status := OrphanedEvent)])
    requires MovedOnly(db, db.(book := db'.book), ClawbackKey(e))
    requires forall a :: BalanceOf(db'.book, a) ==
                         BalanceOf(db.book, a) + ClawbackShift(db.events[e].user, clawback, db.facts[e].amount, a)
    ensures DbInv(db') && BalanceOf(db'.book, Available(db.events[e].user)) >= 0
  {
    hide DbInv, BooksSound, Keyed, Backed, ExternalExplained, Rows, BalanceOf, KeyUsed;
    DbParts(db);
    FactRowOf(db, e);
    FactMoveExplained(db, db', e, db'.facts[e], -db.facts[e].amount as int);
    assert Justified(db', ClawbackKey(e));
    CreditKeyOf(db, e);
    FactRowChanged(db, db', e);
    assert DbInv(db') by {
      DbWhole(db');
    }
    CustodyNonNegative(db'.book, Available(db.events[e].user));
  }

  // Rows that did not change, up to event statuses, still fit.
  lemma RowsFrame(db: Db, db': Db)
    requires Rows(db)
    requires db' == db.(book := db'.book, events := db'.events, frozen := db'.frozen, cursor := db'.cursor, outside :=
        db'.outside)
    requires forall x | x in db.events ::
        x in db'.events && db'.events[x] == db.events[x].(status := db'.events[x].status)
    ensures Rows(db')
  {
    forall e | e in db'.facts ensures FactRowFits(db', e) {
      assert FactRowFits(db, e);
    }
    forall n | n in db'.intents ensures IntentRow(db', n) {
      assert IntentRow(db, n);
    }
    forall p | p in db'.positions ensures PositionRow(db', p) {
      assert PositionRow(db, p);
    }
  }

  lemma KeyedFrame(db: Db, db': Db)
    requires Keyed(db)
    requires db'.intents == db.intents && db'.facts == db.facts && db'.positions == db.positions
    requires forall k | KeyUsed(db.book, k) :: KeyUsed(db'.book, k)
    requires forall k | KeyUsed(db'.book, k) :: KeyUsed(db.book, k) || k.OutsideKey?
    ensures Keyed(db')
  {
    forall k | KeyUsed(db'.book, k) ensures Justified(db', k) {
      if KeyUsed(db.book, k) {
        assert Justified(db, k);
      }
    }
  }

  // Steps that touch only events, the cursor or the freezes.
  lemma EventsGrow(db: Db, db': Db)
    requires DbInv(db)
    requires db' == db.(events := db'.events, frozen := db'.frozen, cursor := db'.cursor)
    requires forall x | x in db.events ::
        x in db'.events && db'.events[x] == db.events[x].(status := db'.events[x].status)
    ensures DbInv(db')
  {
    RowsFrame(db, db');
    KeyedFrame(db, db');
    forall user ensures BackedFor(db', user) {
      assert BackedFor(db, user);
    }
  }

  lemma SameEventsKeep(db: Db, db': Db)
    requires DbInv(db) && db' == db.(frozen := db'.frozen, cursor := db'.cursor)
    ensures DbInv(db')
  {
    hide DbInv;
    EventsGrow(db, db');
  }

  lemma PostOutsideKeeps(db: Db, text: string, user: User, amount: int64)
    requires DbInv(db) && amount != -TWO_TO_THE_63
    ensures DbInv(PostOutside(db, text, user, amount))
  {
    OutsideShape(db, text, user, amount);
    hide PostOutside;
    if PostOutside(db, text, user, amount) != db {
      OutsideStepKeeps(db, PostOutside(db, text, user, amount), text, user, amount);
    }
  }

  ghost predicate OutsideStep(db: Db, db': Db, text: string, user: User, amount: int64)
  {
    && db' == db.(book := db'.book, outside := db.outside + amount)
    && MovedOnly(db, db.(book := db'.book), OutsideKey(text))
    && CreditedTo(db, db', user, amount)
  }

  lemma OutsideShape(db: Db, text: string, user: User, amount: int64)
    requires BooksSound(db.book) && amount != -TWO_TO_THE_63
    ensures var db' := PostOutside(db, text, user, amount);
      db' == db || OutsideStep(db, db', text, user, amount)
  {
    var legs := CreditLegs(user, amount);
    forall a ensures Total(legs) == 0 && Delta(legs, a) == Shift(External, Available(user), amount, a) {
      TwoLegs(legs[0], legs[1], a);
    }
    assert Total(legs) == 0 by {
      TwoLegs(legs[0], legs[1], External);
    }
    hide Total, Delta;
    MoveIs(db, OutsideKey(text), legs);
  }

  lemma OutsideStepKeeps(db: Db, db': Db, text: string, user: User, amount: int64)
    requires DbInv(db) && OutsideStep(db, db', text, user, amount)
    ensures DbInv(db')
  {
    RowsFrame(db, db');
    KeyedFrame(db, db');
    forall u ensures BackedFor(db', u) {
      assert BackedFor(db, u);
    }
  }
}
