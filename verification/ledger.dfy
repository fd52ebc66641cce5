/** The double-entry ledger: an append-only log of entries with a cached balance per account and
    one transfer per idempotency key. `Posting` says what a transfer does; the class does it with
    the loops the store runs inside one database transaction. */
module Ledger {
  import opened Integers
  import opened Sums
  import opened GoVault
  import opened Accounts
  import opened ChainModel

  datatype Option<T> = None | Some(value: T)

  // A chain event is named by its fact and the block that carried it.
  datatype EventId = EventId(fact: Nonce, hash: Hash)

  // The idempotency keys the workers derive, and any key an outside caller may pass.
  datatype Key =
    | ReserveKey(intent: Nonce)
    | FinalKey(intent: Nonce)
    | RefundKey(intent: Nonce)
    | CreditKey(event: EventId)
    | ClawbackKey(event: EventId)
    | OpenKey(position: nat)
    | CloseKey(position: nat)
    | SettleKey(position: nat)
    | OutsideKey(text: string)

  datatype Leg = Leg(account: Account, amount: int64)

  datatype Transfer = Transfer(key: Option<Key>, legs: seq<Leg>)

  datatype Entry = Entry(transfer: nat, account: Account, amount: int)

  // A transfer's id is its position in `keys`.
  datatype Book = Book(keys: seq<Option<Key>>, entries: seq<Entry>, balances: map<Account, int>)

  const OPENING := Book([], [], map[External := 0, Insurance := 0, Fees := 0])

  datatype Outcome = Posted(id: nat) | Replayed(id: nat) | NoLegs | Unbalanced | InsufficientFunds | OutOfRange

  function BalanceOf(b: Book, a: Account): int
  {
    if a in b.balances then b.balances[a] else 0
  }

  /* ----- what a transfer does ----- */

  function Total(legs: seq<Leg>): int
  {
    if legs == [] then 0 else Total(legs[..|legs| - 1]) + legs[|legs| - 1].amount
  }

  // The sum of the legs as the 64-bit loop computes it.
  function RunningSum(legs: seq<Leg>): int
  {
    if legs == [] then 0 else Wrapped(RunningSum(legs[..|legs| - 1]) + legs[|legs| - 1].amount)
  }

  function Delta(legs: seq<Leg>, a: Account): int
  {
    if legs == [] then 0
    else
      var last := legs[|legs| - 1];
      Delta(legs[..|legs| - 1], a) + if last.account == a then last.amount else 0
  }

  // The net change of an account as the 64-bit map holds it.
  function Net(legs: seq<Leg>, a: Account): int64
  {
    Wrapped(Delta(legs, a))
  }

  // The true total, and the true net change of every account, are small enough for 64 bits.
  ghost predicate SumsFit(legs: seq<Leg>)
  {
    -TWO_TO_THE_64 < Total(legs) < TWO_TO_THE_64 && forall a :: FitsInt64(Delta(legs, a))
  }

  function Touched(legs: seq<Leg>): set<Account>
  {
    set i | 0 <= i < |legs| :: legs[i].account
  }

  function EntriesOf(id: nat, legs: seq<Leg>): seq<Entry>
  {
    if legs == [] then []
    else
      var last := legs[|legs| - 1];
      EntriesOf(id, legs[..|legs| - 1]) + if last.amount == 0 then [] else [Entry(id, last.account, last.amount)]
  }

  // The balance column cannot hold the account's new balance.
  predicate Overflows(b: Book, legs: seq<Leg>, a: Account)
  {
    Net(legs, a) != 0 && !FitsInt64(BalanceOf(b, a) + Net(legs, a))
  }

  predicate Overdrawn(b: Book, legs: seq<Leg>, a: Account)
  {
    Net(legs, a) != 0 && Custody(a) && -TWO_TO_THE_63 <= BalanceOf(b, a) + Net(legs, a) < 0
  }

  predicate Blocked(b: Book, legs: seq<Leg>, a: Account)
  {
    Overflows(b, legs, a) || Overdrawn(b, legs, a)
  }

  // The accounts are updated in lock order, so the first one blocked decides the error.
  ghost predicate FirstBlocked(b: Book, legs: seq<Leg>, a: Account)
  {
    Blocked(b, legs, a) && forall c | Blocked(b, legs, c) :: c == a || Before(a, c)
  }

  function NewBalances(b: Book, legs: seq<Leg>): map<Account, int>
  {
    map a | a in b.balances.Keys + Touched(legs) :: BalanceOf(b, a) + Net(legs, a)
  }

  predicate KeyUsed(b: Book, key: Key)
  {
    Some(key) in b.keys
  }

  function FirstUse(keys: seq<Option<Key>>, key: Key): (id: nat)
    requires Some(key) in keys
    ensures id < |keys| && keys[id] == Some(key) && forall i | 0 <= i < id :: keys[i] != Some(key)
  {
    if keys[0] == Some(key) then 0 else 1 + FirstUse(keys[1..], key)
  }

  function Appended(b: Book, t: Transfer): Book
  {
    Book(b.keys + [t.key], b.entries + EntriesOf(|b.keys|, t.legs), NewBalances(b, t.legs))
  }

  ghost function Posting(b: Book, t: Transfer): (Book, Outcome)
  {
    if t.legs == [] then (b, NoLegs)
    else if RunningSum(t.legs) != 0 then (b, Unbalanced)
    else if t.key.Some? && KeyUsed(b, t.key.value) then (b, Replayed(FirstUse(b.keys, t.key.value)))
    else if exists a :: Blocked(b, t.legs, a) then
      (b, if exists a :: FirstBlocked(b, t.legs, a) && Overdrawn(b, t.legs, a) then InsufficientFunds else OutOfRange)
    else (Appended(b, t), Posted(|b.keys|))
  }

  /* ----- the invariants ----- */

  function EntrySum(entries: seq<Entry>, a: Account): int
  {
    if entries == [] then 0
    else
      var last := entries[|entries| - 1];
      EntrySum(entries[..|entries| - 1], a) + if last.account == a then last.amount else 0
  }

  function TransferSum(entries: seq<Entry>, id: nat): int
  {
    if entries == [] then 0
    else
      var last := entries[|entries| - 1];
      TransferSum(entries[..|entries| - 1], id) + if last.transfer == id then last.amount else 0
  }

  // The ledger's share of the invariants I0, I1, I3 and I5.
  ghost predicate BooksSound(b: Book)
  {
    && (forall a :: BalanceOf(b, a) == EntrySum(b.entries, a))
    && (forall id: nat :: TransferSum(b.entries, id) == 0)
    && (forall i | 0 <= i < |b.entries| :: b.entries[i].transfer < |b.keys|)
    && (forall a :: FitsInt64(BalanceOf(b, a)) && (Custody(a) ==> BalanceOf(b, a) >= 0))
    && (forall i, j | 0 <= i < j < |b.keys| :: b.keys[i].Some? ==> b.keys[i] != b.keys[j])
    && Sum(b.balances) == 0
  }

  // Everything except the external counterparty: the number that must match the vault.
  ghost function Internal(b: Book): int
  {
    Sum(b.balances - {External})
  }

  lemma InternalIsMinusExternal(b: Book)
    requires Sum(b.balances) == 0
    ensures Internal(b) == -BalanceOf(b, External)
  {
    if External in b.balances {
      SumRemove(b.balances, External);
    } else {
      assert b.balances - {External} == b.balances;
    }
  }

  /* ----- the balance check in 64 bits ----- */

  lemma {:induction false} RunningSumWraps(legs: seq<Leg>)
    ensures RunningSum(legs) == Wrapped(Total(legs))
    decreases |legs|
  {
    if legs != [] {
      var rest := legs[..|legs| - 1];
      RunningSumWraps(rest);
      WrapsOnce(Total(rest), legs[|legs| - 1].amount);
    }
  }

  // The check in 64 bits accepts exactly the transfers whose true total is a multiple of 2^64.
  lemma BalanceCheckIsExact(legs: seq<Leg>)
    ensures RunningSum(legs) == 0 <==> Total(legs) % TWO_TO_THE_64 == 0
    ensures -TWO_TO_THE_64 < Total(legs) < TWO_TO_THE_64 ==> (RunningSum(legs) == 0 <==> Total(legs) == 0)
  {
    RunningSumWraps(legs);
    WrapsToZero(Total(legs));
    hide RunningSum, Total, Wrapped;
  }

  /* ----- posting keeps them ----- */

  lemma OneEntry(entries: seq<Entry>, e: Entry, a: Account, other: nat)
    ensures EntrySum(entries + [e], a) == EntrySum(entries, a) + (if e.account == a then e.amount else 0)
    ensures TransferSum(entries + [e], other) == TransferSum(entries, other) +
        (if e.transfer == other then e.amount else 0)
  {
    assert (entries + [e])[..|entries|] == entries;
  }

  lemma {:induction false} EntriesAppend(entries: seq<Entry>, id: nat, legs: seq<Leg>, a: Account, other: nat)
    ensures var all := entries + EntriesOf(id, legs);
      EntrySum(all, a) == EntrySum(entries, a) + Delta(legs, a) &&
      TransferSum(all, other) == TransferSum(entries, other) + (if other == id then Total(legs) else 0)
    decreases |legs|
  {
    hide EntrySum, TransferSum;
    if legs == [] {
      assert entries + EntriesOf(id, legs) == entries;
    } else {
      var rest, last := legs[..|legs| - 1], legs[|legs| - 1];
      EntriesAppend(entries, id, rest, a, other);
      var all, e := entries + EntriesOf(id, rest), Entry(id, last.account, last.amount);
      if last.amount == 0 {
        assert EntriesOf(id, legs) == EntriesOf(id, rest);
      } else {
        assert EntriesOf(id, legs) == EntriesOf(id, rest) + [e];
        assert entries + EntriesOf(id, legs) == all + [e];
        OneEntry(all, e, a, other);
      }
    }
  }

  // Of two accounts, one that pays and is locked first decides the error: too little money there is
  // reported as such, whatever the other account has room for.
  lemma PayerDecides(b: Book, t: Transfer, payer: Account, payee: Account, amount: int64)
    requires BooksSound(b) && Custody(payer) && Before(payer, payee) && payer != payee && 0 < amount
    requires t.legs == [Leg(payer, Negated(amount)), Leg(payee, amount)] && (t.key.Some? ==> !KeyUsed(b, t.key.value))
    ensures Posting(b, t).1 ==
            if BalanceOf(b, payer) < amount then InsufficientFunds
            else if BalanceOf(b, payee) + amount > MAX_INT64 then OutOfRange else Posted(|b.keys|)
  {
    var first, second := Leg(payer, Negated(amount)), Leg(payee, amount);
    forall a ensures Net(t.legs, a) == if a == payer then 0 - amount else if a == payee then amount else 0 {
      TwoLegs(first, second, a);
    }
    TwoLegs(first, second, payer);
    BalanceCheckIsExact(t.legs);
    SoundBalance(b, payer);
    SoundBalance(b, payee);
    hide Total, Delta, Net, RunningSum, BooksSound, Before;
    if BalanceOf(b, payer) < amount {
      assert FirstBlocked(b, t.legs, payer) && Overdrawn(b, t.legs, payer);
    } else if BalanceOf(b, payee) + amount > MAX_INT64 {
      assert Blocked(b, t.legs, payee);
      assert forall a :: Overdrawn(b, t.legs, a) ==> a == payer;
    }
  }

  // The entries of a transfer are its legs, less the empty ones.
  lemma {:induction false} EntriesAreTheLegs(id: nat, legs: seq<Leg>, e: Entry)
    ensures e in EntriesOf(id, legs) <==>
            e.transfer == id && e.amount != 0 && FitsInt64(e.amount) && Leg(e.account, e.amount) in legs
    decreases |legs|
  {
    if legs != [] {
      var rest, last := legs[..|legs| - 1], legs[|legs| - 1];
      EntriesAreTheLegs(id, rest, e);
      assert legs == rest + [last];
      assert FitsInt64(e.amount) ==> (Leg(e.account, e.amount) in legs <==>
          Leg(e.account, e.amount) in rest || Leg(e.account, e.amount) == last);
    }
  }

  lemma {:induction false} EntriesBelongTo(id: nat, legs: seq<Leg>, i: nat)
    requires i < |EntriesOf(id, legs)|
    ensures EntriesOf(id, legs)[i].transfer == id
    decreases |legs|
  {
    if i < |EntriesOf(id, legs[..|legs| - 1])| {
      EntriesBelongTo(id, legs[..|legs| - 1], i);
    }
  }

  lemma {:induction false} NoEntriesYet(entries: seq<Entry>, id: nat)
    requires forall i | 0 <= i < |entries| :: entries[i].transfer < id
    ensures TransferSum(entries, id) == 0
    decreases |entries|
  {
    if entries != [] {
      NoEntriesYet(entries[..|entries| - 1], id);
    }
  }

  lemma {:induction false} UntouchedDelta(legs: seq<Leg>, a: Account)
    requires a !in Touched(legs)
    ensures Delta(legs, a) == 0
    decreases |legs|
  {
    if legs != [] {
      var last := |legs| - 1;
      assert legs[last].account in Touched(legs);
      forall i | 0 <= i < last ensures legs[..last][i].account in Touched(legs) {
        assert legs[i].account in Touched(legs);
      }
      UntouchedDelta(legs[..last], a);
    }
  }

  lemma NewBalanceOf(b: Book, t: Transfer, a: Account)
    ensures BalanceOf(Appended(b, t), a) == BalanceOf(b, a) + Net(t.legs, a)
  {
    if a !in Touched(t.legs) {
      UntouchedDelta(t.legs, a);
    }
  }

  lemma TouchedSnoc(legs: seq<Leg>)
    requires legs != []
    ensures Touched(legs) == Touched(legs[..|legs| - 1]) + {legs[|legs| - 1].account}
  {
    var rest := legs[..|legs| - 1];
    forall i | 0 <= i < |rest| ensures rest[i] == legs[i] {}
  }

  // The balances as they would be if every net change were held exactly.
  function TrueBalances(b: Book, legs: seq<Leg>): map<Account, int>
  {
    map a | a in b.balances.Keys + Touched(legs) :: BalanceOf(b, a) + Delta(legs, a)
  }

  lemma TrueBalancesSnoc(b: Book, legs: seq<Leg>)
    requires legs != []
    ensures var rest, last := legs[..|legs| - 1], legs[|legs| - 1];
      var before := TrueBalances(b, rest);
      TrueBalances(b, legs) ==
      before[last.account := (if last.account in before then before[last.account] else 0) + last.amount]
  {
    var rest, last := legs[..|legs| - 1], legs[|legs| - 1];
    TouchedSnoc(legs);
    if last.account !in Touched(rest) {
      UntouchedDelta(rest, last.account);
    }
  }

  lemma TrueBalancesOfNothing(b: Book)
    ensures TrueBalances(b, []) == b.balances
  {
    assert Touched([]) == {};
  }

  lemma {:induction false} TrueBalancesSum(b: Book, legs: seq<Leg>)
    ensures Sum(TrueBalances(b, legs)) == Sum(b.balances) + Total(legs)
    decreases |legs|
  {
    hide TrueBalances, Sum;
    if legs == [] {
      TrueBalancesOfNothing(b);
    } else {
      var rest, last := legs[..|legs| - 1], legs[|legs| - 1];
      TrueBalancesSum(b, rest);
      TrueBalancesSnoc(b, legs);
      var before := TrueBalances(b, rest);
      SumUpdate(before, last.account, (if last.account in before then before[last.account] else 0) + last.amount);
    }
  }

  lemma FittingBalances(b: Book, legs: seq<Leg>)
    requires forall a :: FitsInt64(Delta(legs, a))
    ensures NewBalances(b, legs) == TrueBalances(b, legs)
  {
    hide Delta, Touched, Wrapped, BalanceOf;
  }

  lemma AppendedSound(b: Book, t: Transfer)
    requires BooksSound(b) && Total(t.legs) == 0 && (t.key.Some? ==> !KeyUsed(b, t.key.value))
    requires forall a :: FitsInt64(Delta(t.legs, a)) && !Blocked(b, t.legs, a)
    ensures BooksSound(Appended(b, t))
  {
    var b' := Appended(b, t);
    var id := |b.keys|;
    TrueBalancesSum(b, t.legs);
    FittingBalances(b, t.legs);
    NoEntriesYet(b.entries, id);
    hide Total, Delta, Net, Blocked, EntriesOf, EntrySum, TransferSum, Sum, TrueBalances, NewBalances, BalanceOf;
    forall a ensures BalanceOf(b', a) == EntrySum(b'.entries, a) && FitsInt64(BalanceOf(b', a)) &&
        (Custody(a) ==> BalanceOf(b', a) >= 0) {
      BalanceAfter(b, t, a);
    }
    forall other: nat ensures TransferSum(b'.entries, other) == 0 {
      EntriesAppend(b.entries, id, t.legs, External, other);
    }
    forall i | 0 <= i < |b'.entries| ensures b'.entries[i].transfer < |b'.keys| {
      if i >= |b.entries| {
        EntriesBelongTo(id, t.legs, i - |b.entries|);
      }
    }
  }

  lemma BalanceAfter(b: Book, t: Transfer, a: Account)
    requires BooksSound(b) && FitsInt64(Delta(t.legs, a)) && !Blocked(b, t.legs, a)
    ensures var b' := Appended(b, t);
      && BalanceOf(b', a) == EntrySum(b'.entries, a) && FitsInt64(BalanceOf(b', a))
      && (Custody(a) ==> BalanceOf(b', a) >= 0)
  {
    SoundBalance(b, a);
    assert Custody(a) ==> BalanceOf(b, a) >= 0;
    hide BooksSound, Delta, Wrapped;
    NewBalanceOf(b, t, a);
    EntriesAppend(b.entries, |b.keys|, t.legs, a, 0);
  }

  lemma TotalIsTransferSum(b: Book, t: Transfer)
    requires BooksSound(b)
    ensures TransferSum(Appended(b, t).entries, |b.keys|) == Total(t.legs)
  {
    NoEntriesYet(b.entries, |b.keys|);
    EntriesAppend(b.entries, |b.keys|, t.legs, External, |b.keys|);
  }

  // A net change that 64 bits cannot hold leaves a balance that is not the sum of its entries.
  lemma WrappedNetIsUnsound(b: Book, t: Transfer, a: Account)
    requires BooksSound(b) && !FitsInt64(Delta(t.legs, a))
    ensures BalanceOf(Appended(b, t), a) != EntrySum(Appended(b, t).entries, a)
  {
    NewBalanceOf(b, t, a);
    EntriesAppend(b.entries, |b.keys|, t.legs, a, 0);
    assert BalanceOf(b, a) == EntrySum(b.entries, a);
  }

  // Whatever is posted, balanced or not, fresh or replayed, funded or not, the books stay sound if
  // and only if what is posted has sums that 64 bits can hold; and a call that does not post
  // changes nothing.
  lemma PostKeepsSound(b: Book, t: Transfer)
    requires BooksSound(b)
    ensures BooksSound(Posting(b, t).0) <==> (Posting(b, t).1.Posted? ==> SumsFit(t.legs))
    ensures !Posting(b, t).1.Posted? ==> Posting(b, t).0 == b
  {
    hide Delta, Total, RunningSum, BooksSound, Appended;
    if Posting(b, t).1.Posted? {
      BalanceCheckIsExact(t.legs);
      if SumsFit(t.legs) {
        AppendedSound(b, t);
      } else if a :| !FitsInt64(Delta(t.legs, a)) {
        WrappedNetIsUnsound(b, t, a);
        SoundBalance(Appended(b, t), a);
      } else {
        TotalIsTransferSum(b, t);
        SoundTransfer(Appended(b, t), |b.keys|);
      }
    }
  }

  lemma SoundBalance(b: Book, a: Account)
    ensures BooksSound(b) ==> BalanceOf(b, a) == EntrySum(b.entries, a) && FitsInt64(BalanceOf(b, a))
  {
  }

  lemma SoundTransfer(b: Book, id: nat)
    ensures BooksSound(b) ==> TransferSum(b.entries, id) == 0
  {
  }

  // Any sequence of posts.
  ghost function PostAll(b: Book, ts: seq<Transfer>): Book
  {
    if ts == [] then b else Posting(PostAll(b, ts[..|ts| - 1]), ts[|ts| - 1]).0
  }

  // The log is append-only: what is there stays there, whatever is posted.
  lemma {:induction false} LogOnlyGrows(b: Book, ts: seq<Transfer>)
    ensures b.keys <= PostAll(b, ts).keys && b.entries <= PostAll(b, ts).entries
    decreases |ts|
  {
    if ts != [] {
      LogOnlyGrows(b, ts[..|ts| - 1]);
    }
  }

  lemma {:induction false} PostsKeepSound(b: Book, ts: seq<Transfer>)
    requires BooksSound(b) && forall t | t in ts :: SumsFit(t.legs)
    ensures BooksSound(PostAll(b, ts))
    decreases |ts|
  {
    hide BooksSound, SumsFit, Posting;
    if ts != [] {
      PostsKeepSound(b, ts[..|ts| - 1]);
      PostKeepsSound(PostAll(b, ts[..|ts| - 1]), ts[|ts| - 1]);
    }
  }

  // A key that was posted once answers with the same transfer for ever, and moves nothing: the
  // retry may come after any number of posts of any kind, and may even carry different legs.
  lemma ReplayIsNoOp(b: Book, t: Transfer, between: seq<Transfer>, again: Transfer)
    requires t.key.Some? && Posting(b, t).1.Posted?
    requires again.key == t.key && again.legs != [] && RunningSum(again.legs) == 0
    ensures var b' := PostAll(Posting(b, t).0, between);
      Posting(b', again) == (b', Replayed(Posting(b, t).1.id))
  {
    var b1 := Posting(b, t).0;
    LogOnlyGrows(b1, between);
    var b' := PostAll(b1, between);
    var id := |b.keys|;
    assert b1.keys[id] == t.key && b'.keys[id] == t.key;
  }

  lemma OpeningSound()
    ensures BooksSound(OPENING)
  {
    var m := map[External := 0, Insurance := 0, Fees := 0];
    SumUpdate(map[], External, 0);
    SumUpdate(map[External := 0], Insurance, 0);
    SumUpdate(map[External := 0, Insurance := 0], Fees, 0);
    assert m == map[External := 0][Insurance := 0][Fees := 0];
    assert map[][External := 0] == map[External := 0];
  }

  /* ----- the transfers that slip through ----- */

  lemma LegSnoc(legs: seq<Leg>, leg: Leg, a: Account)
    ensures Total(legs + [leg]) == Total(legs) + leg.amount
    ensures Delta(legs + [leg], a) == Delta(legs, a) + if leg.account == a then leg.amount else 0
  {
    assert (legs + [leg])[..|legs|] == legs;
  }

  function Part(leg: Leg, a: Account): int
  {
    if leg.account == a then leg.amount else 0
  }

  lemma TwoLegs(first: Leg, second: Leg, a: Account)
    ensures var legs := [first, second];
      && Total(legs) == first.amount + second.amount
      && Delta(legs, a) == Part(first, a) + Part(second, a)
  {
    LegSnoc([], first, a);
    LegSnoc([first], second, a);
    assert [] + [first] == [first];
    assert [first] + [second] == [first, second];
  }

  lemma ThreeLegs(first: Leg, second: Leg, third: Leg, a: Account)
    ensures var legs := [first, second, third];
      && Total(legs) == first.amount + second.amount + third.amount
      && Delta(legs, a) == Part(first, a) + Part(second, a) + Part(third, a)
  {
    TwoLegs(first, second, a);
    LegSnoc([first, second], third, a);
    assert [first, second] + [third] == [first, second, third];
  }

  lemma FourLegs(first: Leg, second: Leg, third: Leg, fourth: Leg, a: Account)
    ensures var legs := [first, second, third, fourth];
      && Total(legs) == first.amount + second.amount + third.amount + fourth.amount
      && Delta(legs, a) == Part(first, a) + Part(second, a) + Part(third, a) + Part(fourth, a)
  {
    ThreeLegs(first, second, third, a);
    LegSnoc([first, second, third], fourth, a);
    assert [first, second, third] + [fourth] == [first, second, third, fourth];
  }

  lemma FirstBalances(b: Book, t: Transfer)
    requires b == OPENING
    ensures forall a :: BalanceOf(b, a) == 0
    ensures forall a :: BalanceOf(Appended(b, t), a) == Net(t.legs, a)
    ensures forall a :: EntrySum(Appended(b, t).entries, a) == Delta(t.legs, a)
  {
    hide Delta, Wrapped;
    forall a ensures BalanceOf(Appended(b, t), a) == Net(t.legs, a) {
      NewBalanceOf(b, t, a);
    }
    forall a ensures EntrySum(Appended(b, t).entries, a) == Delta(t.legs, a) {
      EntriesAppend(b.entries, 0, t.legs, a, 0);
    }
  }

  // A transfer between accounts that hold nothing, whose sums do not fit although its totals wrap
  // to what the store checks.
  lemma SlipsThrough(b: Book, t: Transfer)
    requires b == OPENING && t.key.None? && t.legs != [] && Total(t.legs) % TWO_TO_THE_64 == 0
    requires !SumsFit(t.legs) && forall a :: Custody(a) ==> Net(t.legs, a) >= 0
    ensures var r := Posting(b, t);
      && r == (Appended(b, t), Posted(0)) && !BooksSound(r.0) && TransferSum(r.0.entries, 0) == Total(t.legs)
      && forall a :: BalanceOf(r.0, a) == Net(t.legs, a) && EntrySum(r.0.entries, a) == Delta(t.legs, a)
  {
    OpeningSound();
    BalanceCheckIsExact(t.legs);
    TotalIsTransferSum(b, t);
    FirstBalances(b, t);
    hide BooksSound, Total, Delta, Net, SumsFit, RunningSum, Appended, EntrySum, TransferSum, BalanceOf;
    assert forall a :: !Blocked(b, t.legs, a);
    PostKeepsSound(b, t);
  }

  // A total that wraps: two legs of the smallest 64-bit number on the accounts that may be
  // overdrawn go through on the opening books, and leave them unsound.
  lemma UnbalancedSlipsThrough(b: Book)
    requires b == OPENING
    ensures var t := Transfer(None, [Leg(External, -TWO_TO_THE_63), Leg(Insurance, -TWO_TO_THE_63)]);
      var r := Posting(b, t);
      && r == (Appended(b, t), Posted(0)) && !BooksSound(r.0)
      && TransferSum(r.0.entries, 0) == -TWO_TO_THE_64
      && BalanceOf(r.0, External) == BalanceOf(r.0, Insurance) == -TWO_TO_THE_63
  {
    var first, second := Leg(External, -TWO_TO_THE_63), Leg(Insurance, -TWO_TO_THE_63);
    var t := Transfer(None, [first, second]);
    forall a ensures Delta(t.legs, a) == if a == External || a == Insurance then -TWO_TO_THE_63 else 0 {
      TwoLegs(first, second, a);
    }
    assert Total(t.legs) == -TWO_TO_THE_64 by {
      TwoLegs(first, second, External);
    }
    hide Total, Delta, Posting, Appended, BooksSound;
    SlipsThrough(b, t);
  }

  // Net changes that wrap, in a transfer whose total is truly zero: a user who holds nothing pays
  // nearly 2^64, and ends up with a balance of two.
  lemma RepeatedLegsSlipThrough(b: Book, user: User)
    requires b == OPENING
    ensures var debit, credit := Leg(Available(user), -MAX_INT64), Leg(External, MAX_INT64);
      var t := Transfer(None, [debit, debit, credit, credit]);
      var r := Posting(b, t);
      && r == (Appended(b, t), Posted(0)) && !BooksSound(r.0)
      && Total(t.legs) == TransferSum(r.0.entries, 0) == 0
      && EntrySum(r.0.entries, Available(user)) == -2 * MAX_INT64 && BalanceOf(r.0, Available(user)) == 2
  {
    var debit, credit := Leg(Available(user), -MAX_INT64), Leg(External, MAX_INT64);
    var t := Transfer(None, [debit, debit, credit, credit]);
    var net := 2 * MAX_INT64;
    forall a ensures Delta(t.legs, a) == if a == External then net else if a == Available(user) then -net else 0 {
      FourLegs(debit, debit, credit, credit, a);
    }
    assert Total(t.legs) == 0 by {
      FourLegs(debit, debit, credit, credit, External);
    }
    assert Wrapped(net) == -2 && Wrapped(-net) == 2;
    hide Total, Delta, Posting, Appended, BooksSound;
    assert !FitsInt64(Delta(t.legs, External));
    SlipsThrough(b, t);
  }

  /** The store's ledger tables. */
  class Tables {
    var keys: seq<Option<Key>>
    var entries: seq<Entry>
    var balances: map<Account, int>

    ghost function View(): Book
      reads this
    {
      Book(keys, entries, balances)
    }

    constructor ()
      ensures View() == OPENING
    {
      keys, entries, balances := [], [], map[External := 0, Insurance := 0, Fees := 0];
    }

    method FindKey(key: Key) returns (id: nat)
      requires Some(key) in keys
      ensures id == FirstUse(keys, key)
    {
      id := 0;
      while keys[id] != Some(key)
        invariant id < |keys| && forall i | 0 <= i < id :: keys[i] != Some(key)
        decreases |keys| - id
      {
        id := id + 1;
      }
    }

    // Each account once, in lock order.
    method LockList(legs: seq<Leg>) returns (codes: seq<Account>)
      ensures InLockOrder(codes) && forall a :: a in codes <==> a in Touched(legs)
    {
      codes := [];
      var seen: set<Account> := {};
      var i := 0;
      while i < |legs|
        invariant 0 <= i <= |legs| && seen == Touched(legs[..i])
        invariant forall a :: a in codes <==> a in seen
        invariant forall j, k | 0 <= j < k < |codes| :: codes[j] != codes[k]
      {
        if legs[i].account !in seen {
          seen := seen + {legs[i].account};
          codes := codes + [legs[i].account];
        }
        assert legs[..i + 1][..i] == legs[..i];
        TouchedSnoc(legs[..i + 1]);
        i := i + 1;
      }
      assert legs[..i] == legs;
      codes := Sort(codes);
    }

    method EnsureAccounts(codes: seq<Account>)
      modifies this`balances
      ensures balances.Keys == old(balances).Keys + set a | a in codes
      ensures forall a | a in balances :: balances[a] == if a in old(balances) then old(balances)[a] else 0
    {
      var i := 0;
      while i < |codes|
        invariant 0 <= i <= |codes|
        invariant balances.Keys == old(balances).Keys + set a | a in codes[..i]
        invariant forall a | a in balances :: balances[a] == if a in old(balances) then old(balances)[a] else 0
      {
        if codes[i] !in balances {
          balances := balances[codes[i] := 0];
        }
        assert codes[..i + 1] == codes[..i] + [codes[i]];
        i := i + 1;
      }
      assert codes[..i] == codes;
    }

    // Writes the non-zero legs and totals them by account.
    method WriteEntries(id: nat, legs: seq<Leg>) returns (delta: map<Account, int64>)
      modifies this`entries
      ensures entries == old(entries) + EntriesOf(id, legs)
      ensures forall a :: Held(delta, a) == Net(legs, a)
    {
      delta := map[];
      var i := 0;
      while i < |legs|
        invariant 0 <= i <= |legs|
        invariant entries == old(entries) + EntriesOf(id, legs[..i])
        invariant forall a :: Held(delta, a) == Net(legs[..i], a)
      {
        var leg := legs[i];
        assert legs[..i + 1][..i] == legs[..i];
        NetSnoc(legs[..i + 1]);
        if leg.amount != 0 {
          entries := entries + [Entry(id, leg.account, leg.amount)];
          delta := delta[leg.account := Wrapped((if leg.account in delta then delta[leg.account] else 0) + leg.amount)];
        }
        i := i + 1;
      }
      assert legs[..i] == legs;
    }

    // Updates the cached balances in order, stopping at the first account whose new balance the
    // column cannot hold or that custody forbids.
    method UpdateBalances(codes: seq<Account>, delta: map<Account, int64>) returns (failure: Option<Outcome>)
      requires forall a | a in codes :: a in balances
      requires forall i, j | 0 <= i < j < |codes| :: codes[i] != codes[j]
      modifies this`balances
      ensures failure == FirstFailure(codes, old(balances), delta)
      ensures failure.None? ==> balances.Keys == old(balances).Keys
      ensures failure.None? ==> forall a | a in balances :: balances[a] == old(balances)[a] + if a in codes
          then Held(delta, a) else 0
    {
      var i := 0;
      while i < |codes|
        invariant 0 <= i <= |codes| && balances.Keys == old(balances).Keys
        invariant forall a | a in balances :: balances[a] == old(balances)[a] + if a in codes[..i] then Held(delta, a)
            else 0
        invariant FirstFailure(codes, old(balances), delta) == FirstFailure(codes[i..], old(balances), delta)
      {
        var a := codes[i];
        var d := if a in delta then delta[a] else 0;
        assert a !in codes[..i];
        assert codes[..i + 1] == codes[..i] + [a];
        assert codes[i..][1..] == codes[i + 1..];
        if d != 0 {
          var nb := balances[a] + d;
          if !FitsInt64(nb) {
            return Some(OutOfRange);
          }
          balances := balances[a := nb];
          if nb < 0 && Custody(a) {
            return Some(InsufficientFunds);
          }
        }
        i := i + 1;
      }
      assert codes[..i] == codes;
      return None;
    }

    // The body of the database transaction. When it fails the caller rolls back, so nothing is
    // promised about the tables it leaves behind.
    method PostTx(t: Transfer) returns (out: Outcome)
      modifies this
      ensures out == Posting(old(View()), t).1
      ensures out.Posted? || out.Replayed? ==> View() == Posting(old(View()), t).0
    {
      hide Blocked, FirstBlocked, NewBalances, Touched, Net, EntriesOf, FirstFailure;
      if t.legs == [] {
        return NoLegs;
      }
      var sum := 0;
      var i := 0;
      while i < |t.legs|
        invariant 0 <= i <= |t.legs| && sum == RunningSum(t.legs[..i])
      {
        assert t.legs[..i + 1][..i] == t.legs[..i];
        sum := Wrapped(sum + t.legs[i].amount);
        i := i + 1;
      }
      assert t.legs[..i] == t.legs;
      if sum != 0 {
        return Unbalanced;
      }
      var id := |keys|;
      if t.key.Some? && t.key in keys {
        var existing := FindKey(t.key.value);
        return Replayed(existing);
      }
      keys := keys + [t.key];
      var codes := LockList(t.legs);
      EnsureAccounts(codes);
      var delta := WriteEntries(id, t.legs);
      ghost var before := balances;
      DistinctCodes(codes);
      var failure := UpdateBalances(codes, delta);
      BalancesAgree(old(View()), t.legs, codes, before, delta, failure, balances);
      if failure.Some? {
        return failure.value;
      }
      return Posted(id);
    }

    // `Post` in a transaction of its own: an error rolls everything back.
    method Post(t: Transfer) returns (out: Outcome)
      modifies this
      ensures (View(), out) == Posting(old(View()), t)
    {
      var savedKeys, savedEntries, savedBalances := keys, entries, balances;
      out := PostTx(t);
      if !out.Posted? && !out.Replayed? {
        keys, entries, balances := savedKeys, savedEntries, savedBalances;
      }
    }

    method InternalTotal() returns (total: int)
      ensures total == Internal(View())
    {
      total := 0;
      var rest := balances - {External};
      while rest != map[]
        invariant total + Sum(rest) == Sum(balances - {External})
        decreases |rest|
      {
        var a :| a in rest;
        SumRemove(rest, a);
        total := total + rest[a];
        rest := rest - {a};
      }
    }
  }

  lemma DistinctCodes(codes: seq<Account>)
    requires InLockOrder(codes)
    ensures forall i, j | 0 <= i < j < |codes| :: codes[i] != codes[j]
  {
    forall i, j | 0 <= i < j < |codes| ensures codes[i] != codes[j] {
      BelowIsTotal(Code(codes[i]), Code(codes[j]));
    }
  }

  lemma NetSnoc(legs: seq<Leg>)
    requires legs != []
    ensures var rest, last := legs[..|legs| - 1], legs[|legs| - 1];
      forall a :: Net(legs, a) == if a == last.account then Wrapped(Net(rest, a) + last.amount) else Net(rest, a)
  {
    var rest, last := legs[..|legs| - 1], legs[|legs| - 1];
    WrapsOnce(Delta(rest, last.account), last.amount);
  }

  function Held(delta: map<Account, int64>, a: Account): int64
  {
    if a in delta then delta[a] else 0
  }

  // The first account, in this order, whose update fails, and how.
  function FirstFailure(codes: seq<Account>, balances: map<Account, int>, delta: map<Account, int64>): Option<Outcome>
    requires forall a | a in codes :: a in balances
  {
    if codes == [] then None
    else
      var a, nb := codes[0], balances[codes[0]] + Held(delta, codes[0]);
      if Held(delta, a) != 0 && !FitsInt64(nb) then Some(OutOfRange)
      else if Held(delta, a) != 0 && Custody(a) && nb < 0 then Some(InsufficientFunds)
      else FirstFailure(codes[1..], balances, delta)
  }

  // The first failure in lock order is the one the transfer is refused for.
  lemma {:induction false} FirstFailureIs(b: Book, legs: seq<Leg>, codes: seq<Account>, before: map<Account, int>,
                                          delta: map<Account, int64>)
    requires InLockOrder(codes) && forall a | a in codes :: a in before && before[a] == BalanceOf(b, a)
    requires forall a :: Held(delta, a) == Net(legs, a)
    ensures var failure := FirstFailure(codes, before, delta);
      match failure
      case None => forall a | a in codes :: !Blocked(b, legs, a)
      case Some(out) =>
        exists i | 0 <= i < |codes| ::
          Blocked(b, legs, codes[i]) && (forall k | 0 <= k < i :: !Blocked(b, legs, codes[k])) &&
          out == if Overdrawn(b, legs, codes[i]) then InsufficientFunds else OutOfRange
    decreases |codes|
  {
    hide Net, BalanceOf;
    if codes != [] && !Blocked(b, legs, codes[0]) {
      FirstFailureIs(b, legs, codes[1..], before, delta);
      if FirstFailure(codes, before, delta).Some? {
        var i :| 0 <= i < |codes[1..]| && Blocked(b, legs, codes[1..][i]) &&
            (forall k | 0 <= k < i :: !Blocked(b, legs, codes[1..][k])) &&
          FirstFailure(codes, before, delta).value == if Overdrawn(b, legs, codes[1..][i]) then InsufficientFunds
              else OutOfRange;
        assert codes[i + 1] == codes[1..][i];
        forall k | 0 <= k < i + 1 ensures !Blocked(b, legs, codes[k]) {
          assert k > 0 ==> codes[k] == codes[1..][k - 1];
        }
      }
    }
  }

  // Updating account by account computes the same balances as applying the legs, and fails as the
  // transfer does.
  lemma BalancesAgree(b: Book, legs: seq<Leg>, codes: seq<Account>, before: map<Account, int>,
                      delta: map<Account, int64>, failure: Option<Outcome>, balances: map<Account, int>)
    requires InLockOrder(codes) && forall a :: a in codes <==> a in Touched(legs)
    requires before.Keys == b.balances.Keys + set a | a in codes
    requires forall a | a in before :: before[a] == BalanceOf(b, a)
    requires forall a :: Held(delta, a) == Net(legs, a)
    requires failure == FirstFailure(codes, before, delta)
    requires failure.None? ==> balances.Keys == before.Keys
    requires failure.None? ==> forall a | a in balances :: balances[a] == before[a] + if a in codes then Held(delta, a)
        else 0
    ensures failure.None? <==> forall a :: !Blocked(b, legs, a)
    ensures failure.Some? ==>
              failure.value == if exists a :: FirstBlocked(b, legs, a) && Overdrawn(b, legs, a) then InsufficientFunds
                  else OutOfRange
    ensures failure.None? ==> balances == NewBalances(b, legs)
  {
    hide Net, FirstFailure;
    NothingElsewhere(legs, codes);
    FirstFailureIs(b, legs, codes, before, delta);
    if failure.None? {
      SameBalances(b, legs, codes, before, balances);
    } else {
      var i :| 0 <= i < |codes| && Blocked(b, legs, codes[i]) &&
          (forall k | 0 <= k < i :: !Blocked(b, legs, codes[k])) &&
        failure.value == if Overdrawn(b, legs, codes[i]) then InsufficientFunds else OutOfRange;
      FirstIsFirst(b, legs, codes, i);
    }
  }

  lemma FirstIsFirst(b: Book, legs: seq<Leg>, codes: seq<Account>, i: nat)
    requires InLockOrder(codes) && forall a | Blocked(b, legs, a) :: a in codes
    requires i < |codes| && Blocked(b, legs, codes[i]) && forall k | 0 <= k < i :: !Blocked(b, legs, codes[k])
    ensures forall a :: FirstBlocked(b, legs, a) <==> a == codes[i]
  {
    hide Blocked;
    forall c | Blocked(b, legs, c) ensures c == codes[i] || Before(codes[i], c) {
      var k :| 0 <= k < |codes| && codes[k] == c;
      assert k >= i;
    }
    forall a | FirstBlocked(b, legs, a) ensures a == codes[i] {
      if a != codes[i] {
        BelowIsTotal(Code(a), Code(codes[i]));
      }
    }
  }

  lemma NothingElsewhere(legs: seq<Leg>, codes: seq<Account>)
    requires forall a :: a in codes <==> a in Touched(legs)
    ensures forall a | a !in codes :: Net(legs, a) == 0
  {
    forall a | a !in codes ensures Net(legs, a) == 0 {
      UntouchedDelta(legs, a);
    }
  }

  lemma SameBalances(b: Book, legs: seq<Leg>, codes: seq<Account>, before: map<Account, int>, balances: map<Account,
      int>)
    requires (set a | a in codes) == Touched(legs) && forall a | a !in codes :: Net(legs, a) == 0
    requires before.Keys == b.balances.Keys + (set a | a in codes) && balances.Keys == before.Keys
    requires forall a | a in before :: before[a] == BalanceOf(b, a)
    requires forall a | a in balances :: balances[a] == before[a] + if a in codes then Net(legs, a) else 0
    ensures balances == NewBalances(b, legs)
  {
    hide Net, Touched, BalanceOf;
  }
}
