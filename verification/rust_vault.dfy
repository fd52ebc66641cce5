/** The vault contract as the Rust crate implements it, and the replay tool that runs an
    exported history through it. */
module RustVault {
  import opened Sums
  import Go = GoVault

  type Micro = nat
  type Height = nat

  datatype Call =
    | Deposit(factId: Go.Nonce, user: string, amount: Micro)
    | Withdraw(id: Go.Nonce, user: string, amount: Micro, expiryHeight: Height)
    | EscrowSet(id: Go.Nonce, market: string, target: Micro, expiryHeight: Height)
    | SettleMarket(id: Go.Nonce, market: string, outcome: bool, expiryHeight: Height)
    | Cancel(id: Go.Nonce, expiryHeight: Height)
  {
    function Nonce(): Go.Nonce
    {
      if Deposit? then factId else id
    }

    function Expiry(): Height
    {
      if Deposit? then 0 else expiryHeight
    }
  }

  datatype Option<T> = None | Some(value: T)

  datatype Error = AlreadyProcessed | Expired | InsufficientFree | EscrowExceedsCustody
                 | MarketSettled | NotYetExpired | ZeroAmount

  datatype Receipt = Receipt(height: Height, freeAfter: int, escrowTotalAfter: int, paidOut: Micro)

  datatype Result = Ok(receipt: Receipt) | Err(error: Error)

  datatype State = State(height: Height, balance: Micro, escrow: map<string, int>, settled: map<string, bool>,
                         processed: map<Go.Nonce, Receipt>, cancelled: set<Go.Nonce>, deposited: map<string, Micro>)

  const NEW := State(0, 0, map[], map[], map[], {}, map[])

  // `check`: escrow within custody, no empty entries, none for a settled market.
  ghost predicate Check(v: State)
  {
    && Sum(v.escrow) <= v.balance
    && (forall m | m in v.escrow :: v.escrow[m] > 0)
    && (forall m | m in v.escrow :: m !in v.settled)
  }

  // What every run keeps: the checked invariants, and no nonce both processed and cancelled.
  ghost predicate Sound(v: State)
  {
    Check(v) && v.processed.Keys !! v.cancelled
  }

  ghost function Free(v: State): int
  {
    v.balance - Sum(v.escrow)
  }

  function EscrowOf(v: State, market: string): int
  {
    if market in v.escrow then v.escrow[market] else 0
  }

  // What a call does before its receipt is filed: new storage and the amount that left it.
  datatype Attempt = Done(state: State, paidOut: Micro) | Refused(error: Error)

  datatype Outcome = Outcome(state: State, result: Result)

  ghost function Perform(v: State, call: Call): Attempt
    requires Check(v)
  {
    if call.Nonce() in v.processed then Refused(AlreadyProcessed)
    else if call.Nonce() in v.cancelled then Refused(Expired)
    else if call.Expiry() > 0 && v.height > call.Expiry() && !call.Cancel? then Refused(Expired)
    else
      match call
      case Deposit(_, user, amount) =>
        if amount == 0 then Refused(ZeroAmount)
        else
          var had := if user in v.deposited then v.deposited[user] else 0;
          Done(v.(balance := v.balance + amount, deposited := v.deposited[user := had + amount]), 0)
      case Withdraw(_, _, amount, _) =>
        if amount == 0 then Refused(ZeroAmount)
        else if Free(v) < amount then Refused(InsufficientFree)
        else EscrowNonNegative(v); Done(v.(balance := v.balance - amount), amount)
      case EscrowSet(_, market, target, _) =>
        if market in v.settled then Refused(MarketSettled)
        else if target > EscrowOf(v, market) && Free(v) < target - EscrowOf(v, market)
            then Refused(EscrowExceedsCustody)
        else if target == 0 then Done(v.(escrow := v.escrow - {market}), 0)
        else Done(v.(escrow := v.escrow[market := target]), 0)
      case SettleMarket(_, market, outcome, _) =>
        if market in v.settled then Refused(MarketSettled)
        else Done(v.(escrow := v.escrow - {market}, settled := v.settled[market := outcome]), 0)
      case Cancel(id, expiryHeight) =>
        if expiryHeight == 0 || v.height <= expiryHeight then Refused(NotYetExpired)
        else Done(v.(cancelled := v.cancelled + {id}), 0)
  }

  ghost function File(v: State, call: Call, paidOut: Micro): Outcome
  {
    var receipt := Receipt(v.height, Free(v), Sum(v.escrow), paidOut);
    Outcome(if call.Cancel? then v else v.(processed := v.processed[call.Nonce() := receipt]), Ok(receipt))
  }

  ghost function Exec(v: State, call: Call): Outcome
    requires Check(v)
  {
    match Perform(v, call)
    case Refused(error) => Outcome(v, Err(error))
    case Done(v', paidOut) => File(v', call, paidOut)
  }

  lemma EscrowNonNegative(v: State)
    requires Check(v)
    ensures Sum(v.escrow) >= 0
  {
    SumNonNegative(v.escrow);
  }

  lemma PerformKeepsCheck(v: State, call: Call)
    requires Check(v) && Perform(v, call).Done?
    ensures Check(Perform(v, call).state)
  {
    match call {
      case EscrowSet(_, market, target, _) =>
        SumUpdate(v.escrow, market, target);
        DropMarket(v.escrow, market);
      case SettleMarket(_, market, _, _) =>
        DropMarket(v.escrow, market);
      case _ =>
        EscrowNonNegative(v);
    }
  }

  lemma DropMarket(escrow: map<string, int>, market: string)
    ensures Sum(escrow - {market}) == Sum(escrow) - (if market in escrow then escrow[market] else 0)
  {
    if market in escrow {
      SumRemove(escrow, market);
    } else {
      assert escrow - {market} == escrow;
    }
  }

  lemma ExecKeepsSound(v: State, call: Call)
    requires Sound(v)
    ensures Sound(Exec(v, call).state)
  {
    if Perform(v, call).Done? {
      PerformKeepsCheck(v, call);
      var v' := Perform(v, call).state;
      assert v'.processed == v.processed;
      assert v'.cancelled == if call.Cancel? then v.cancelled + {call.Nonce()} else v.cancelled;
    }
  }

  // An accepted call consumes its nonce, and nothing else about the two nonce tables changes.
  lemma ExecRecords(v: State, call: Call)
    requires Check(v)
    ensures var r := Exec(v, call);
      (r.result.Err? ==> r.state == v) &&
      (r.result.Ok? ==>
         call.Nonce() !in v.processed && call.Nonce() !in v.cancelled &&
         r.state.processed.Keys == v.processed.Keys + (if call.Cancel? then {} else {call.Nonce()}) &&
         r.state.cancelled == v.cancelled + (if call.Cancel? then {call.Nonce()} else {}))
  {
    if Perform(v, call).Done? {
      var v' := Perform(v, call).state;
      assert v'.processed == v.processed;
    }
  }

  // A call comes in time.
  predicate Timely(v: State, call: Call)
  {
    call.Nonce() !in v.processed && call.Nonce() !in v.cancelled &&
        (call.Cancel? || call.Expiry() == 0 || v.height <= call.Expiry())
  }

  // Custody covers what the call would pay out, or the escrow there would be.
  ghost predicate Covers(v: State, call: Call)
  {
    match call
    case Withdraw(_, _, amount, _) => Sum(v.escrow) + amount <= v.balance
    case EscrowSet(_, market, target, _) =>
      target <= EscrowOf(v, market) || Sum(v.escrow) - EscrowOf(v, market) + target <= v.balance
    case _ => true
  }

  // A call is accepted if and only if it is timely, makes sense and is covered; a refusal names the
  // first of these that fails.
  lemma TakenIffCovered(v: State, call: Call)
    requires Sound(v)
    ensures var r := Exec(v, call).result;
      var sense :=
        match call
        case Deposit(_, _, amount) => amount > 0
        case Withdraw(_, _, amount, _) => amount > 0
        case EscrowSet(_, market, _, _) => market !in v.settled
        case SettleMarket(_, market, _, _) => market !in v.settled
        case Cancel(_, expiry) => 0 < expiry < v.height;
      && (r.Ok? <==> Timely(v, call) && sense && Covers(v, call))
      && (r.Err? ==>
            && (r.error == AlreadyProcessed <==> call.Nonce() in v.processed)
            && (r.error == Expired <==> call.Nonce() !in v.processed && !Timely(v, call))
            && (r.error == InsufficientFree <==> Timely(v, call) && sense && call.Withdraw?)
            && (r.error == EscrowExceedsCustody <==> Timely(v, call) && sense && call.EscrowSet?)
            && (r.error == MarketSettled <==> Timely(v, call) && !sense && (call.EscrowSet? || call.SettleMarket?))
            && (r.error == NotYetExpired <==> Timely(v, call) && !sense && call.Cancel?)
            && (r.error == ZeroAmount <==> Timely(v, call) && !sense && (call.Deposit? || call.Withdraw?)))
  {
    hide Sum;
  }

  function DepositedBy(v: State, user: string): Micro
  {
    if user in v.deposited then v.deposited[user] else 0
  }

  // The receipt of an accepted call says when it was executed, what it paid out, and how custody then
  // divides into what is free and what is earmarked; it is filed unless the call was a cancellation.
  lemma ReceiptTells(v: State, call: Call)
    requires Sound(v) && Exec(v, call).result.Ok?
    ensures var r, v' := Exec(v, call).result.receipt, Exec(v, call).state;
      && r.height == v.height == v'.height
      && v'.balance == v.balance + (if call.Deposit? then call.amount else 0) - r.paidOut
      && (r.paidOut > 0 <==> call.Withdraw?) && (call.Withdraw? ==> r.paidOut == call.amount)
      && r.freeAfter + r.escrowTotalAfter == v'.balance && r.escrowTotalAfter == Sum(v'.escrow)
      && r.freeAfter >= 0 && r.escrowTotalAfter >= 0
      && (!call.Cancel? ==> call.Nonce() in v'.processed && v'.processed[call.Nonce()] == r)
      && forall u :: DepositedBy(v', u) == DepositedBy(v, u) + if call.Deposit? && call.user == u then call.amount
          else 0
  {
    PerformKeepsCheck(v, call);
    EscrowNonNegative(Perform(v, call).state);
    hide Sum;
  }

  /* ----- whole runs: blocks advance, calls execute ----- */

  datatype Op = AdvanceBlock | Do(call: Call)

  ghost function Step(v: State, op: Op): (r: State)
    requires Sound(v)
    ensures Sound(r)
  {
    match op
    case AdvanceBlock => v.(height := v.height + 1)
    case Do(call) => ExecKeepsSound(v, call); Exec(v, call).state
  }

  ghost function RunAll(v: State, ops: seq<Op>): (r: State)
    requires Sound(v)
    ensures Sound(r)
    decreases |ops|
  {
    if ops == [] then v else RunAll(Step(v, ops[0]), ops[1..])
  }

  lemma {:induction false} RunAllConcat(v: State, a: seq<Op>, b: seq<Op>)
    requires Sound(v)
    ensures RunAll(v, a + b) == RunAll(RunAll(v, a), b)
    decreases |a|
  {
    if a == [] {
      assert a + b == b;
    } else {
      assert (a + b)[1..] == a[1..] + b;
      RunAllConcat(Step(v, a[0]), a[1..], b);
    }
  }

  lemma {:induction false} RunAllGrows(v: State, ops: seq<Op>)
    requires Sound(v)
    ensures v.processed.Keys <= RunAll(v, ops).processed.Keys && v.cancelled <= RunAll(v, ops).cancelled
    decreases |ops|
  {
    if ops != [] {
      if ops[0].Do? {
        ExecRecords(v, ops[0].call);
      }
      RunAllGrows(Step(v, ops[0]), ops[1..]);
    }
  }

  // An executed call repeated anywhere later leaves the end state unchanged.
  lemma RepeatIsNoOp(v: State, before: seq<Op>, call: Call, between: seq<Op>, after: seq<Op>)
    requires Sound(v)
    requires Exec(RunAll(v, before), call).result.Ok?
    ensures RunAll(v, before + [Do(call)] + between + [Do(call)] + after)
            == RunAll(v, before + [Do(call)] + between + after)
  {
    var first := before + [Do(call)];
    var v1 := RunAll(v, first);
    RunAllConcat(v, before, [Do(call)]);
    assert [Do(call)][1..] == [];
    assert v1 == Exec(RunAll(v, before), call).state;
    ExecRecords(RunAll(v, before), call);
    RunAllConcat(v, first, between);
    RunAllGrows(v1, between);
    var v2 := RunAll(v, first + between);
    assert Exec(v2, call).state == v2;
    RunAllConcat(v, first + between, [Do(call)]);
    RunAllConcat(v, first + between + [Do(call)], after);
    RunAllConcat(v, first + between, after);
  }

  /* ----- what a run did ----- */

  // The call at this position of a run is accepted when its turn comes.
  ghost predicate Executes(v: State, ops: seq<Op>, i: int)
    requires Sound(v)
  {
    0 <= i < |ops| && ops[i].Do? && Exec(RunAll(v, ops[..i]), ops[i].call).result.Ok?
  }

  // Some accepted call of a run was for this nonce: its cancellation, or its own call.
  ghost predicate Took(v: State, ops: seq<Op>, n: Go.Nonce, cancel: bool)
    requires Sound(v)
  {
    exists i :: Executes(v, ops, i) && ops[i].call.Nonce() == n && ops[i].call.Cancel? == cancel
  }

  lemma RunAllSnoc(v: State, ops: seq<Op>, op: Op)
    requires Sound(v)
    ensures RunAll(v, ops + [op]) == Step(RunAll(v, ops), op)
  {
    RunAllConcat(v, ops, [op]);
    assert [op][1..] == [];
  }

  // What the earlier calls of a run did does not depend on the later ones.
  lemma ExecutesPrefix(v: State, ops: seq<Op>, op: Op, i: int)
    requires Sound(v)
    ensures i < |ops| ==> (Executes(v, ops + [op], i) <==> Executes(v, ops, i))
    ensures Executes(v, ops + [op], |ops|) <==> op.Do? && Exec(RunAll(v, ops), op.call).result.Ok?
  {
    assert (ops + [op])[..|ops|] == ops;
    if 0 <= i < |ops| {
      assert (ops + [op])[..i] == ops[..i];
    }
  }

  lemma TookSnoc(v: State, ops: seq<Op>, op: Op, n: Go.Nonce, cancel: bool)
    requires Sound(v)
    ensures Took(v, ops + [op], n, cancel) <==>
            Took(v, ops, n, cancel) ||
            (op.Do? && Exec(RunAll(v, ops), op.call).result.Ok? && op.call.Nonce() == n && op.call.Cancel? == cancel)
  {
    hide Exec, RunAll;
    var all := ops + [op];
    ExecutesPrefix(v, ops, op, |ops|);
    if Took(v, ops, n, cancel) {
      var i :| Executes(v, ops, i) && ops[i].call.Nonce() == n && ops[i].call.Cancel? == cancel;
      ExecutesPrefix(v, ops, op, i);
      assert all[i] == ops[i];
    }
    if Took(v, all, n, cancel) {
      var i :| Executes(v, all, i) && all[i].call.Nonce() == n && all[i].call.Cancel? == cancel;
      ExecutesPrefix(v, ops, op, i);
    }
    assert all[|ops|] == op;
  }

  // A run decides the nonce tables: a nonce is processed exactly when a call for it was accepted,
  // cancelled exactly when its cancellation was, and never both.
  lemma {:induction false} HistoryDecides(ops: seq<Op>, n: Go.Nonce)
    ensures n in RunAll(NEW, ops).processed <==> Took(NEW, ops, n, false)
    ensures n in RunAll(NEW, ops).cancelled <==> Took(NEW, ops, n, true)
    ensures !(Took(NEW, ops, n, false) && Took(NEW, ops, n, true))
    decreases |ops|
  {
    if ops != [] {
      var before, op := ops[..|ops| - 1], ops[|ops| - 1];
      assert ops == before + [op];
      HistoryDecides(before, n);
      RunAllSnoc(NEW, before, op);
      TookSnoc(NEW, before, op, n, false);
      TookSnoc(NEW, before, op, n, true);
      if op.Do? {
        ExecRecords(RunAll(NEW, before), op.call);
      }
    }
  }

  // Each nonce takes effect at most once, whatever lies between: two accepted calls of a run
  // never share one.
  lemma {:induction false} OncePerNonce(v: State, ops: seq<Op>, i: nat, j: nat)
    requires Sound(v) && i < j && Executes(v, ops, i) && Executes(v, ops, j)
    ensures ops[i].call.Nonce() != ops[j].call.Nonce()
  {
    hide Exec;
    var at := RunAll(v, ops[..i]);
    var between := ops[i + 1..j];
    ExecRecords(at, ops[i].call);
    assert ops[..i + 1] == ops[..i] + [ops[i]];
    RunAllSnoc(v, ops[..i], ops[i]);
    assert ops[..j] == ops[..i + 1] + between;
    RunAllConcat(v, ops[..i + 1], between);
    RunAllGrows(RunAll(v, ops[..i + 1]), between);
    ExecRecords(RunAll(v, ops[..j]), ops[j].call);
  }

  predicate IsPart(op: Op, deposits: bool)
  {
    op.Do? && if deposits then op.call.Deposit? else op.call.Withdraw?
  }

  function AmountOf(op: Op): int
  {
    if op.Do? && (op.call.Deposit? || op.call.Withdraw?) then op.call.amount else 0
  }

  // The amounts that the accepted deposits of a run paid in, or that its accepted withdrawals paid
  // out, one row per position.
  ghost function Paid(ops: seq<Op>, deposits: bool): map<int, int>
  {
    map i | 0 <= i < |ops| && Executes(NEW, ops, i) && IsPart(ops[i], deposits) :: AmountOf(ops[i])
  }

  lemma PaidAt(ops: seq<Op>, op: Op, deposits: bool, i: int)
    ensures var before, after := Paid(ops, deposits), Paid(ops + [op], deposits);
      && |ops| !in before
      && (i in after <==>
          i in before || (i == |ops| && IsPart(op, deposits) && Exec(RunAll(NEW, ops), op.call).result.Ok?))
      && (i in after ==> after[i] == if i == |ops| then AmountOf(op) else before[i])
  {
    ExecutesPrefix(NEW, ops, op, i);
    ExecutesPrefix(NEW, ops, op, |ops|);
    hide Executes, Exec, RunAll, AmountOf;
  }

  lemma AddedRow(before: map<int, int>, after: map<int, int>, at: int, amount: int, added: bool)
    requires at !in before
    requires forall i :: i in after <==> i in before || (i == at && added)
    requires forall i | i in after :: after[i] == if i == at then amount else before[i]
    ensures added ==> after == before[at := amount]
    ensures !added ==> after == before
  {
    if added {
      forall i ensures i in after <==> i in before[at := amount] {}
      forall i | i in after ensures after[i] == before[at := amount][i] {}
      assert after == before[at := amount];
    } else {
      forall i ensures i in after <==> i in before {}
      forall i | i in after ensures after[i] == before[i] {}
      assert after == before;
    }
  }

  lemma PaidSnoc(ops: seq<Op>, op: Op, deposits: bool)
    ensures |ops| !in Paid(ops, deposits)
    ensures if IsPart(op, deposits) && Exec(RunAll(NEW, ops), op.call).result.Ok?
            then Paid(ops + [op], deposits) == Paid(ops, deposits)[|ops| := AmountOf(op)]
            else Paid(ops + [op], deposits) == Paid(ops, deposits)
  {
    hide Paid, Exec, RunAll, AmountOf;
    var before, after := Paid(ops, deposits), Paid(ops + [op], deposits);
    var done := IsPart(op, deposits) && Exec(RunAll(NEW, ops), op.call).result.Ok?;
    PaidAt(ops, op, deposits, |ops|);
    forall i
      ensures i in after <==> i in before || (i == |ops| && done)
      ensures i in after ==> after[i] == if i == |ops| then AmountOf(op) else before[i]
    {
      PaidAt(ops, op, deposits, i);
    }
    AddedRow(before, after, |ops|, AmountOf(op), done);
  }

  function Payout(r: Receipt): int
  {
    r.paidOut
  }

  // What the storage itself records of the money that came and went.
  ghost predicate Accounted(v: State, paidIn: int, paidOut: int)
  {
    Sum(v.deposited) == paidIn && SumOf(v.processed, Payout) == paidOut && v.balance == paidIn - paidOut
  }

  lemma ExecAccounts(v: State, call: Call, paidIn: int, paidOut: int)
    requires Check(v) && Accounted(v, paidIn, paidOut)
    ensures var r := Exec(v, call);
      Accounted(r.state, if r.result.Ok? && call.Deposit? then paidIn + call.amount else paidIn,
                if r.result.Ok? && call.Withdraw? then paidOut + call.amount else paidOut)
  {
    if Perform(v, call).Done? {
      PerformAccounts(v, call);
      hide Perform, Check;
      var done := Perform(v, call);
      if !call.Cancel? {
        SumOfUpdate(v.processed, Payout, call.Nonce(), Exec(v, call).state.processed[call.Nonce()]);
      }
    }
  }

  // Before its receipt is filed an accepted call moves custody and the deposits by user together.
  lemma PerformAccounts(v: State, call: Call)
    requires Check(v) && Perform(v, call).Done?
    ensures var done := Perform(v, call);
      && done.state.processed == v.processed && (call.Nonce() in v.processed ==> call.Cancel?)
      && done.paidOut == (if call.Withdraw? then call.amount else 0)
      && done.state.balance == v.balance + (if call.Deposit? then call.amount else 0) - done.paidOut
      && Sum(done.state.deposited) == Sum(v.deposited) + if call.Deposit? then call.amount else 0
  {
    if call.Deposit? {
      SumUpdate(v.deposited, call.user, Perform(v, call).state.deposited[call.user]);
    }
  }

  // Custody is exactly what the accepted deposits of a run paid in less what its accepted
  // withdrawals paid out, and so say the deposits by user and the receipts.
  lemma {:induction false} BalanceIsDepositsMinusPayouts(ops: seq<Op>)
    ensures Accounted(RunAll(NEW, ops), Sum(Paid(ops, true)), Sum(Paid(ops, false)))
    decreases |ops|
  {
    hide Accounted;
    if ops == [] {
      NothingAccounted();
      assert Paid([], true) == map[] && Paid([], false) == map[];
    } else {
      var before, op := ops[..|ops| - 1], ops[|ops| - 1];
      assert ops == before + [op];
      BalanceIsDepositsMinusPayouts(before);
      RunAllSnoc(NEW, before, op);
      StepAccounts(before, op);
    }
  }

  lemma StepAccounts(ops: seq<Op>, op: Op)
    requires Accounted(RunAll(NEW, ops), Sum(Paid(ops, true)), Sum(Paid(ops, false)))
    ensures Accounted(Step(RunAll(NEW, ops), op), Sum(Paid(ops + [op], true)), Sum(Paid(ops + [op], false)))
  {
    PaidSnoc(ops, op, true);
    PaidSnoc(ops, op, false);
    hide Accounted, Paid, Exec, RunAll;
    if op.Do? {
      ExecAccounts(RunAll(NEW, ops), op.call, Sum(Paid(ops, true)), Sum(Paid(ops, false)));
      SumUpdate(Paid(ops, true), |ops|, AmountOf(op));
      SumUpdate(Paid(ops, false), |ops|, AmountOf(op));
    } else {
      AdvanceAccounts(RunAll(NEW, ops), Sum(Paid(ops, true)), Sum(Paid(ops, false)));
    }
  }

  lemma NothingAccounted()
    ensures Accounted(NEW, 0, 0)
  {
    SumOfNothing(NEW.processed, Payout);
  }

  lemma AdvanceAccounts(v: State, paidIn: int, paidOut: int)
    requires Accounted(v, paidIn, paidOut)
    ensures Accounted(v.(height := v.height + 1), paidIn, paidOut)
  {
  }

  /** The contract object of the crate. */
  class Vault {
    var height: Height
    var balance: Micro
    var escrow: map<string, int>
    var settled: map<string, bool>
    var processed: map<Go.Nonce, Receipt>
    var cancelled: set<Go.Nonce>
    var deposited: map<string, Micro>

    ghost function View(): State
      reads this
    {
      State(height, balance, escrow, settled, processed, cancelled, deposited)
    }

    constructor ()
      ensures View() == NEW
    {
      height, balance, escrow, settled := 0, 0, map[], map[];
      processed, cancelled, deposited := map[], {}, map[];
    }

    method EscrowTotal() returns (total: int)
      ensures total == Sum(escrow)
    {
      total := 0;
      var rest := escrow;
      while rest != map[]
        invariant total + Sum(rest) == Sum(escrow)
        decreases |rest|
      {
        var m :| m in rest;
        SumRemove(rest, m);
        total := total + rest[m];
        rest := rest - {m};
      }
    }

    method Advance()
      modifies this`height
      ensures height == old(height) + 1
    {
      height := height + 1;
    }

    method CheckInvariants() returns (sound: bool)
      ensures sound <==> Check(View())
    {
      var total := EscrowTotal();
      sound := total <= balance
               && (forall m | m in escrow :: escrow[m] > 0)
               && (forall m | m in escrow :: m !in settled);
    }

    // The effect of a call on everything but the receipts; `None` when it is accepted.
    method Effect(call: Call) returns (refusal: Option<Error>, paidOut: Micro)
      requires Check(View())
      modifies this
      ensures match Perform(old(View()), call)
              case Refused(error) => refusal == Some(error) && View() == old(View())
              case Done(v, paid) => refusal == None && View() == v && paidOut == paid
    {
      paidOut := 0;
      if call.Nonce() in processed {
        return Some(AlreadyProcessed), 0;
      }
      if call.Nonce() in cancelled {
        return Some(Expired), 0;
      }
      if call.Expiry() > 0 && height > call.Expiry() && !call.Cancel? {
        return Some(Expired), 0;
      }
      var total := EscrowTotal();
      match call {
        case Deposit(_, user, amount) =>
          if amount == 0 {
            return Some(ZeroAmount), 0;
          }
          balance := balance + amount;
          deposited := deposited[user := (if user in deposited then deposited[user] else 0) + amount];
        case Withdraw(_, _, amount, _) =>
          if amount == 0 {
            return Some(ZeroAmount), 0;
          }
          if balance - total < amount {
            return Some(InsufficientFree), 0;
          }
          EscrowNonNegative(View());
          balance := balance - amount;
          paidOut := amount;
        case EscrowSet(_, market, target, _) =>
          if market in settled {
            return Some(MarketSettled), 0;
          }
          var current := if market in escrow then escrow[market] else 0;
          if target > current && balance - total < target - current {
            return Some(EscrowExceedsCustody), 0;
          }
          if target == 0 {
            escrow := escrow - {market};
          } else {
            escrow := escrow[market := target];
          }
        case SettleMarket(_, market, outcome, _) =>
          if market in settled {
            return Some(MarketSettled), 0;
          }
          escrow := escrow - {market};
          settled := settled[market := outcome];
        case Cancel(id, expiryHeight) =>
          if expiryHeight == 0 || height <= expiryHeight {
            return Some(NotYetExpired), 0;
          }
          cancelled := cancelled + {id};
      }
      refusal := None;
    }

    method Execute(call: Call) returns (r: Result)
      requires Check(View())
      modifies this
      ensures Outcome(View(), r) == Exec(old(View()), call)
    {
      var refusal, paidOut := Effect(call);
      if refusal.Some? {
        return Err(refusal.value);
      }
      var total := EscrowTotal();
      var receipt := Receipt(height, balance - total, total, paidOut);
      if !call.Cancel? {
        processed := processed[call.Nonce() := receipt];
      }
      return Ok(receipt);
    }
  }
}
