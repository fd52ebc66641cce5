/** The vault contract as the Go simulator executes it: its storage, the one function that
    changes it, and what every sequence of calls keeps. */
module GoVault {
  import opened Integers
  import opened Sums

  type User = string
  type Market = string

  // Deposit ids are numbered by the chain; intent ids are random and never collide with them.
  datatype Nonce = DepositId(number: nat) | IntentId(id: nat)

  datatype Kind = Deposit | Withdraw | EscrowSet | SettleMarket | Cancel | Unknown

  datatype Tx = Tx(nonce: Nonce, kind: Kind, user: User, amount: int64, market: Market,
                   target: int64, outcome: int64, expiry: int64)

  // The empty reason stands for a transient refusal, after which the nonce may be retried.
  datatype Reason = NoReason | AlreadyProcessed | Expired | ZeroAmount | MarketSettled | NotYetExpired | UnknownCall

  datatype Vault = Vault(balance: int64, escrow: map<Market, int>, settled: set<Market>,
                         processed: set<Nonce>, cancelled: set<Nonce>)

  const EMPTY := Vault(0, map[], {}, {}, {})

  datatype Verdict = Verdict(vault: Vault, reason: Reason, ok: bool)

  // Custody less what is earmarked, as 64-bit arithmetic has it.
  ghost function Free(v: Vault): int64
  {
    Wrapped(v.balance - Wrapped(Sum(v.escrow)))
  }

  function EscrowOf(v: Vault, market: Market): int
  {
    if market in v.escrow then v.escrow[market] else 0
  }

  function Refuse(v: Vault, reason: Reason): Verdict
  {
    Verdict(v, reason, false)
  }

  function Accept(v: Vault, nonce: Nonce): Verdict
  {
    Verdict(v.(processed := v.processed + {nonce}), NoReason, true)
  }

  // Dedupe comes before expiry: a retry of a call that landed must never read as expired.
  ghost function Apply(v: Vault, tx: Tx, height: int): Verdict
  {
    if tx.nonce in v.processed then Refuse(v, AlreadyProcessed)
    else if tx.nonce in v.cancelled then Refuse(v, Expired)
    else if tx.kind != Cancel && tx.expiry > 0 && height > tx.expiry then Refuse(v, Expired)
    else
      match tx.kind
      case Deposit =>
        if tx.amount <= 0 then Refuse(v, ZeroAmount)
        else Accept(v.(balance := Wrapped(v.balance + tx.amount)), tx.nonce)
      case Withdraw =>
        if tx.amount <= 0 then Refuse(v, ZeroAmount)
        else if Free(v) < tx.amount then Refuse(v, NoReason)
        else Accept(v.(balance := Wrapped(v.balance - tx.amount)), tx.nonce)
      case EscrowSet =>
        if tx.market in v.settled then Refuse(v, MarketSettled)
        else if tx.target > EscrowOf(v, tx.market) && Free(v) < Wrapped(tx.target - EscrowOf(v, tx.market)) then
          Refuse(v, NoReason)
        else if tx.target == 0 then Accept(v.(escrow := v.escrow - {tx.market}), tx.nonce)
        else Accept(v.(escrow := v.escrow[tx.market := tx.target]), tx.nonce)
      case SettleMarket =>
        if tx.market in v.settled then Refuse(v, MarketSettled)
        else Accept(v.(escrow := v.escrow - {tx.market}, settled := v.settled + {tx.market}), tx.nonce)
      case Cancel =>
        if tx.expiry == 0 || height <= tx.expiry then Refuse(v, NotYetExpired)
        else Verdict(v.(cancelled := v.cancelled + {tx.nonce}), NoReason, true)
      case Unknown => Refuse(v, UnknownCall)
  }

  /* ----- sequences of calls ----- */

  datatype Call = Call(tx: Tx, height: int)

  ghost function Run(v: Vault, calls: seq<Call>): Vault
  {
    if calls == [] then v
    else
      var last := |calls| - 1;
      Apply(Run(v, calls[..last]), calls[last].tx, calls[last].height).vault
  }

  // Every call of the sequence is accepted when its turn comes.
  ghost predicate Accepted(v: Vault, calls: seq<Call>)
  {
    calls == [] ||
    var last := |calls| - 1;
    Accepted(v, calls[..last]) && Apply(Run(v, calls[..last]), calls[last].tx, calls[last].height).ok
  }

  lemma RunSnoc(v: Vault, calls: seq<Call>, c: Call)
    ensures Run(v, calls + [c]) == Apply(Run(v, calls), c.tx, c.height).vault
    ensures Accepted(v, calls + [c]) <==> Accepted(v, calls) && Apply(Run(v, calls), c.tx, c.height).ok
  {
    assert (calls + [c])[..|calls|] == calls;
  }

  lemma {:induction false} RunConcat(v: Vault, a: seq<Call>, b: seq<Call>)
    ensures Run(v, a + b) == Run(Run(v, a), b)
    ensures Accepted(v, a + b) <==> Accepted(v, a) && Accepted(Run(v, a), b)
    decreases |b|
  {
    if b == [] {
      assert a + b == a;
    } else {
      var last := |b| - 1;
      RunConcat(v, a, b[..last]);
      assert a + b == a + b[..last] + [b[last]];
      RunSnoc(v, a + b[..last], b[last]);
    }
  }

  // A non-cancel call for the nonce occurs in the sequence.
  ghost predicate Landed(calls: seq<Call>, n: Nonce)
  {
    exists i | 0 <= i < |calls| :: calls[i].tx.nonce == n && calls[i].tx.kind != Cancel
  }

  ghost predicate Refused(calls: seq<Call>, n: Nonce)
  {
    exists i | 0 <= i < |calls| :: calls[i].tx.nonce == n && calls[i].tx.kind == Cancel
  }

  lemma SplitLast(calls: seq<Call>, n: Nonce)
    requires calls != []
    ensures var last := calls[|calls| - 1].tx;
      (Landed(calls, n) <==> Landed(calls[..|calls| - 1], n) || (last.nonce == n && last.kind != Cancel)) &&
      (Refused(calls, n) <==> Refused(calls[..|calls| - 1], n) || (last.nonce == n && last.kind == Cancel))
  {
    var k := |calls| - 1;
    if Landed(calls[..k], n) {
      var i :| 0 <= i < k && calls[..k][i].tx.nonce == n && calls[..k][i].tx.kind != Cancel;
      assert calls[i].tx.nonce == n;
    }
    if Refused(calls[..k], n) {
      var i :| 0 <= i < k && calls[..k][i].tx.nonce == n && calls[..k][i].tx.kind == Cancel;
      assert calls[i].tx.nonce == n;
    }
    forall i | 0 <= i < k ensures calls[..k][i] == calls[i] {}
  }

  // What an accepted history says about the storage it leaves behind: a nonce is processed
  // exactly when it landed, cancelled exactly when it was cancelled, and never both.
  lemma {:induction false} HistoryDecides(calls: seq<Call>, n: Nonce)
    requires Accepted(EMPTY, calls)
    ensures n in Run(EMPTY, calls).processed <==> Landed(calls, n)
    ensures n in Run(EMPTY, calls).cancelled <==> Refused(calls, n)
    ensures !(Landed(calls, n) && Refused(calls, n))
    decreases |calls|
  {
    hide Free, EscrowOf, Wrapped;
    if calls != [] {
      HistoryDecides(calls[..|calls| - 1], n);
      SplitLast(calls, n);
    }
  }

  // Each nonce takes effect at most once: two accepted calls never share a nonce.
  lemma {:induction false} OncePerNonce(calls: seq<Call>, i: nat, j: nat)
    requires Accepted(EMPTY, calls) && i < j < |calls|
    ensures calls[i].tx.nonce != calls[j].tx.nonce
    decreases |calls|
  {
    var last := |calls| - 1;
    var before := calls[..last];
    if j < last {
      OncePerNonce(before, i, j);
    } else {
      var n := calls[i].tx.nonce;
      HistoryDecides(before, n);
      assert before[i] == calls[i];
      assert Landed(before, n) || Refused(before, n);
    }
  }

  // A call touches no nonce but its own, and only by adding it.
  lemma ApplyNonces(v: Vault, tx: Tx, height: int)
    ensures var r := Apply(v, tx, height);
      if r.ok then
        && tx.nonce !in v.processed && tx.nonce !in v.cancelled
        && r.vault.processed == v.processed + (if tx.kind == Cancel then {} else {tx.nonce})
        && r.vault.cancelled == v.cancelled + (if tx.kind == Cancel then {tx.nonce} else {})
      else r.vault == v
  {
  }

  lemma {:induction false} RunGrows(v: Vault, calls: seq<Call>)
    ensures v.processed <= Run(v, calls).processed && v.cancelled <= Run(v, calls).cancelled
    decreases |calls|
  {
    if calls != [] {
      RunGrows(v, calls[..|calls| - 1]);
    }
  }

  // Repeating an executed call anywhere later, at any height, changes nothing.
  lemma RepeatIsNoOp(v: Vault, before: seq<Call>, c: Call, between: seq<Call>, again: int, after: seq<Call>)
    requires Apply(Run(v, before), c.tx, c.height).ok
    ensures Run(v, before + [c] + between + [Call(c.tx, again)] + after) == Run(v, before + [c] + between + after)
  {
    hide Run, Apply;
    var done := before + [c] + between;
    var v' := Run(v, done);
    RunSnoc(v, before, c);
    RunConcat(v, before + [c], between);
    RunGrows(Run(v, before + [c]), between);
    ApplyNonces(Run(v, before), c.tx, c.height);
    assert c.tx.nonce in v'.processed || c.tx.nonce in v'.cancelled;
    ApplyNonces(v', c.tx, again);
    RunSnoc(v, done, Call(c.tx, again));
    RunConcat(v, done + [Call(c.tx, again)], after);
    RunConcat(v, done, after);
  }

  /* ----- the contract's own invariants ----- */

  // What the calls have truly paid in, less what they have truly paid out.
  ghost function CustodyOver(v: Vault, calls: seq<Call>): int
  {
    if calls == [] then 0
    else
      var rest, last := calls[..|calls| - 1], calls[|calls| - 1];
      CustodyOver(v, rest) + CustodyOf(Run(v, rest), last)
  }

  ghost function CustodyOf(v: Vault, c: Call): int
  {
    if !Apply(v, c.tx, c.height).ok then 0
    else if c.tx.kind == Deposit then c.tx.amount
    else if c.tx.kind == Withdraw then -(c.tx.amount as int)
    else 0
  }

  ghost function TrueCustody(calls: seq<Call>): int
  {
    CustodyOver(EMPTY, calls)
  }

  lemma CustodySnoc(calls: seq<Call>, c: Call)
    ensures TrueCustody(calls + [c]) == TrueCustody(calls) + CustodyOf(Run(EMPTY, calls), c)
  {
    hide CustodyOf, Run;
    assert (calls + [c])[..|calls|] == calls;
  }

  // The storage agrees with a custody of this much: the balance as far as 64 bits go, and the escrow
  // within it.
  ghost predicate Sound(v: Vault, custody: int)
  {
    && v.balance == Wrapped(custody) && Sum(v.escrow) <= custody
    && (forall m | m in v.escrow :: v.escrow[m] > 0 && m !in v.settled)
    && v.processed !! v.cancelled
  }

  lemma FreeIsWithinCustody(v: Vault, custody: int)
    requires Sound(v, custody)
    ensures 0 <= Sum(v.escrow) && Free(v) <= custody - Sum(v.escrow)
    ensures custody <= MAX_INT64 ==> Free(v) == custody - Sum(v.escrow)
  {
    SumNonNegative(v.escrow);
    hide Sum;
    WrapsDown(custody - Sum(v.escrow));
    WrapsApart(custody, Sum(v.escrow));
  }

  lemma EscrowWithin(v: Vault, custody: int, market: Market)
    requires Sound(v, custody)
    ensures 0 <= EscrowOf(v, market) <= Sum(v.escrow)
  {
    SumNonNegative(v.escrow);
  }

  lemma MoneyKeepsSound(v: Vault, custody: int, c: Call)
    requires Sound(v, custody) && (c.tx.kind == Deposit || c.tx.kind == Withdraw)
    ensures Sound(Apply(v, c.tx, c.height).vault, custody + CustodyOf(v, c))
  {
    FreeIsWithinCustody(v, custody);
    hide Sum, Wrapped, Free;
    WrapsOnce(custody, c.tx.amount);
    WrapsOnce(custody, 0 - c.tx.amount);
  }

  lemma EscrowKeepsSound(v: Vault, custody: int, c: Call)
    requires Sound(v, custody) && c.tx.target >= 0 && c.tx.kind != Deposit && c.tx.kind != Withdraw
    ensures Sound(Apply(v, c.tx, c.height).vault, custody + CustodyOf(v, c))
  {
    var tx := c.tx;
    FreeIsWithinCustody(v, custody);
    EscrowWithin(v, custody, tx.market);
    hide Sum, Wrapped, Free;
    assert EscrowOf(v, tx.market) < tx.target ==>
        Wrapped(tx.target - EscrowOf(v, tx.market)) == tx.target - EscrowOf(v, tx.market);
    SumUpdate(v.escrow, tx.market, tx.target);
    if tx.market in v.escrow {
      SumRemove(v.escrow, tx.market);
    } else {
      assert v.escrow - {tx.market} == v.escrow;
    }
  }

  // Every call, accepted or not, keeps that, whatever the balance has wrapped to.
  lemma ApplyKeepsSound(v: Vault, custody: int, c: Call)
    requires Sound(v, custody) && c.tx.target >= 0
    ensures Sound(Apply(v, c.tx, c.height).vault, custody + CustodyOf(v, c))
  {
    hide Sound, Apply, CustodyOf;
    if c.tx.kind == Deposit || c.tx.kind == Withdraw {
      MoneyKeepsSound(v, custody, c);
    } else {
      EscrowKeepsSound(v, custody, c);
    }
  }

  ghost predicate NonNegativeTargets(calls: seq<Call>)
  {
    forall i | 0 <= i < |calls| :: calls[i].tx.target >= 0
  }

  lemma {:induction false} RunKeepsSound(calls: seq<Call>)
    requires NonNegativeTargets(calls)
    ensures Sound(Run(EMPTY, calls), TrueCustody(calls))
    decreases |calls|
  {
    hide Apply, Sum;
    if calls == [] {
      NothingIsSound();
    } else {
      var last := |calls| - 1;
      RunKeepsSound(calls[..last]);
      ApplyKeepsSound(Run(EMPTY, calls[..last]), TrueCustody(calls[..last]), calls[last]);
    }
  }

  lemma NothingIsSound()
    ensures Sound(EMPTY, 0)
  {
  }

  // A call comes in time: its nonce is unused and its expiry height not passed.
  predicate Timely(v: Vault, tx: Tx, height: int)
  {
    tx.nonce !in v.processed && tx.nonce !in v.cancelled && (tx.kind == Cancel || tx.expiry <= 0 || height <= tx.expiry)
  }

  // The custody covers what the call would pay out, or the escrow there would be.
  ghost predicate Covers(v: Vault, custody: int, tx: Tx)
  {
    match tx.kind
    case Withdraw => Sum(v.escrow) <= custody - tx.amount
    case EscrowSet => tx.target <= EscrowOf(v, tx.market) ||
        Sum(v.escrow) - EscrowOf(v, tx.market) + tx.target <= custody
    case _ => true
  }

  // What the contract lets happen, as long as custody fits 64 bits: a call that is in time, makes sense
  // and is covered. It refuses for now exactly what would be right but is not covered, and for good all
  // the rest.
  lemma TakenIffCovered(v: Vault, custody: int, tx: Tx, height: int)
    requires Sound(v, custody) && custody <= MAX_INT64 && tx.target >= 0
    ensures var r := Apply(v, tx, height);
      var right := Timely(v, tx, height) &&
          match tx.kind
          case Deposit => tx.amount > 0
          case Withdraw => tx.amount > 0
          case EscrowSet => tx.market !in v.settled
          case SettleMarket => tx.market !in v.settled
          case Cancel => tx.expiry != 0 && height > tx.expiry
          case Unknown => false;
      && (r.ok <==> right && Covers(v, custody, tx))
      && (!r.ok ==> r.vault == v && (r.reason == NoReason <==> right && !Covers(v, custody, tx)))
  {
    FreeIsWithinCustody(v, custody);
    EscrowWithin(v, custody, tx.market);
    assert EscrowOf(v, tx.market) < tx.target ==>
        Wrapped(tx.target - EscrowOf(v, tx.market)) == tx.target - EscrowOf(v, tx.market);
    hide Sum, Wrapped, Free;
  }

  // Escrow stays within the balance of the contract as long as custody fits 64 bits.
  lemma EscrowWithinBalance(calls: seq<Call>)
    requires NonNegativeTargets(calls) && TrueCustody(calls) <= MAX_INT64
    ensures 0 <= Sum(Run(EMPTY, calls).escrow) <= Run(EMPTY, calls).balance == TrueCustody(calls)
  {
    hide Run, TrueCustody;
    RunKeepsSound(calls);
    SumNonNegative(Run(EMPTY, calls).escrow);
  }

  // The amounts moved by the calls of one kind, one row per nonce.
  ghost function Moved(calls: seq<Call>, kind: Kind): map<Nonce, int>
  {
    if calls == [] then map[]
    else
      var last := calls[|calls| - 1].tx;
      var rest := Moved(calls[..|calls| - 1], kind);
      if last.kind == kind then rest[last.nonce := last.amount] else rest
  }

  lemma {:induction false} MovedKeys(calls: seq<Call>, kind: Kind, n: Nonce)
    ensures n in Moved(calls, kind) <==>
            exists i | 0 <= i < |calls| :: calls[i].tx.nonce == n && calls[i].tx.kind == kind
    decreases |calls|
  {
    if calls != [] {
      var last := |calls| - 1;
      var rest := calls[..last];
      MovedKeys(rest, kind, n);
      if n in Moved(rest, kind) {
        var i :| 0 <= i < last && rest[i].tx.nonce == n && rest[i].tx.kind == kind;
        assert calls[i].tx.nonce == n && calls[i].tx.kind == kind;
      }
      forall i | 0 <= i < last ensures rest[i] == calls[i] {}
    }
  }

  lemma {:induction false} MovedValue(calls: seq<Call>, kind: Kind, i: nat)
    requires Accepted(EMPTY, calls) && i < |calls| && calls[i].tx.kind == kind
    ensures calls[i].tx.nonce in Moved(calls, kind) && Moved(calls, kind)[calls[i].tx.nonce] == calls[i].tx.amount
    decreases |calls|
  {
    var last := |calls| - 1;
    if i < last {
      assert calls[..last][i] == calls[i];
      MovedValue(calls[..last], kind, i);
      OncePerNonce(calls, i, last);
    }
  }

  lemma BalanceAfter(v: Vault, c: Call)
    ensures Apply(v, c.tx, c.height).vault.balance == Wrapped(v.balance + CustodyOf(v, c))
  {
    hide Wrapped, Free;
  }

  // The balance is what 64 bits hold of the custody, whatever was called.
  lemma {:induction false} BalanceIsCustody(calls: seq<Call>)
    ensures Run(EMPTY, calls).balance == Wrapped(TrueCustody(calls))
    decreases |calls|
  {
    hide Apply, CustodyOf, Wrapped;
    if calls == [] {
      assert Wrapped(0) == 0;
    } else {
      var last := |calls| - 1;
      var v := Run(EMPTY, calls[..last]);
      BalanceIsCustody(calls[..last]);
      BalanceAfter(v, calls[last]);
      WrapsOnce(TrueCustody(calls[..last]), CustodyOf(v, calls[last]));
    }
  }

  // Custody is exactly what was paid in less what was paid out, and the balance is what 64 bits hold
  // of it.
  lemma {:induction false} BalanceIsDepositsMinusPayouts(calls: seq<Call>)
    requires Accepted(EMPTY, calls)
    ensures TrueCustody(calls) == Sum(Moved(calls, Deposit)) - Sum(Moved(calls, Withdraw))
    ensures Run(EMPTY, calls).balance == Wrapped(TrueCustody(calls))
    decreases |calls|
  {
    hide Sum, Wrapped, Apply, Run;
    BalanceIsCustody(calls);
    if calls == [] {
      NothingMoved();
    } else {
      var last := |calls| - 1;
      var rest, tx := calls[..last], calls[last].tx;
      BalanceIsDepositsMinusPayouts(rest);
      HistoryDecides(rest, tx.nonce);
      ApplyNonces(Run(EMPTY, rest), tx, calls[last].height);
      MovedKeys(rest, tx.kind, tx.nonce);
      assert !Landed(rest, tx.nonce);
      SumUpdate(Moved(rest, tx.kind), tx.nonce, tx.amount);
    }
  }

  lemma NothingMoved()
    ensures Sum(Moved([], Deposit)) == 0 && Sum(Moved([], Withdraw)) == 0 && Wrapped(0) == 0
  {
  }

  /** The storage itself, updated in place. */
  class Contract {
    var balance: int64
    var escrow: map<Market, int>
    var settled: set<Market>
    var processed: set<Nonce>
    var cancelled: set<Nonce>

    ghost function View(): Vault
      reads this
    {
      Vault(balance, escrow, settled, processed, cancelled)
    }

    constructor ()
      ensures View() == EMPTY
    {
      balance, escrow, settled, processed, cancelled := 0, map[], {}, {}, {};
    }

    method Clone() returns (c: Contract)
      ensures fresh(c) && c.View() == View()
    {
      c := new Contract();
      c.balance, c.escrow, c.settled, c.processed, c.cancelled := balance, escrow, settled, processed, cancelled;
    }

    method EscrowTotal() returns (total: int64)
      ensures total == Wrapped(Sum(escrow))
    {
      hide Sum, Wrapped;
      assert Wrapped(0) == 0;
      total := 0;
      var rest := escrow;
      while rest != map[]
        invariant total == Wrapped(Sum(escrow) - Sum(rest))
        decreases |rest|
      {
        var m :| m in rest;
        SumRemove(rest, m);
        WrapsOnce(Sum(escrow) - Sum(rest), rest[m]);
        total := Wrapped(total + rest[m]);
        rest := rest - {m};
      }
      assert Sum(rest) == 0 by {
        SumOfNoRows(rest);
      }
    }

    method FreeFunds() returns (free: int64)
      ensures free == Free(View())
    {
      var total := EscrowTotal();
      free := Wrapped(balance - total);
    }

    method ApplyTx(tx: Tx, height: int) returns (reason: Reason, ok: bool)
      modifies this
      ensures Verdict(View(), reason, ok) == Apply(old(View()), tx, height)
    {
      if tx.nonce in processed {
        return AlreadyProcessed, false;
      }
      if tx.nonce in cancelled {
        return Expired, false;
      }
      if tx.kind != Cancel && tx.expiry > 0 && height > tx.expiry {
        return Expired, false;
      }
      match tx.kind {
        case Deposit =>
          if tx.amount <= 0 {
            return ZeroAmount, false;
          }
          balance := Wrapped(balance + tx.amount);
        case Withdraw =>
          if tx.amount <= 0 {
            return ZeroAmount, false;
          }
          var free := FreeFunds();
          if free < tx.amount {
            return NoReason, false;
          }
          balance := Wrapped(balance - tx.amount);
        case EscrowSet =>
          if tx.market in settled {
            return MarketSettled, false;
          }
          var current := if tx.market in escrow then escrow[tx.market] else 0;
          if tx.target > current {
            var free := FreeFunds();
            if free < Wrapped(tx.target - current) {
              return NoReason, false;
            }
          }
          if tx.target == 0 {
            escrow := escrow - {tx.market};
          } else {
            escrow := escrow[tx.market := tx.target];
          }
        case SettleMarket =>
          if tx.market in settled {
            return MarketSettled, false;
          }
          escrow := escrow - {tx.market};
          settled := settled + {tx.market};
        case Cancel =>
          if tx.expiry == 0 || height <= tx.expiry {
            return NotYetExpired, false;
          }
          cancelled := cancelled + {tx.nonce};
          return NoReason, true;
        case Unknown =>
          return UnknownCall, false;
      }
      processed := processed + {tx.nonce};
      return NoReason, true;
    }
  }
}
