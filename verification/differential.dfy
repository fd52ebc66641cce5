/** The differential test: the simulator's finalised history, exported line by line, replayed
    through the Rust contract. */
module Differential {
  import opened Integers
  import opened Sums
  import Go = GoVault
  import Rust = RustVault
  import opened ChainModel
  import opened ChainBlocks
  import opened ChainInvariants

  // Numbers travel as text and are parsed into a 128-bit signed integer.
  datatype Line =
    | DepositLine(nonce: Go.Nonce, user: string, amount: int, height: int)
    | WithdrawLine(nonce: Go.Nonce, user: string, amount: int, expiry: int, height: int)
    | EscrowLine(nonce: Go.Nonce, market: string, target: int, expiry: int, height: int)
    | SettleLine(nonce: Go.Nonce, market: string, outcome: int, expiry: int, height: int)
    | CancelLine(nonce: Go.Nonce, expiry: int, height: int)
    | ExpectBalance(value: int)
    | ExpectEscrowTotal(value: int)
    | ExpectEscrow(market: string, value: int)
  {
    predicate IsCall()
    {
      !ExpectBalance? && !ExpectEscrowTotal? && !ExpectEscrow?
    }
  }

  const U64 := 0x1_0000_0000_0000_0000
  const U128 := 0x1_0000_0000_0000_0000_0000_0000_0000_0000

  // The casts `as u64` and `as u128` wrap negative and oversized numbers.
  function AsU64(x: int): nat
  {
    x % U64
  }

  function AsU128(x: int): nat
  {
    x % U128
  }

  /* ----- export ----- */

  // One line per call; a call of unknown kind writes nothing.
  function WriteTrace(c: Go.Call): seq<Line>
  {
    var tx := c.tx;
    match tx.kind
    case Deposit => [DepositLine(tx.nonce, tx.user, tx.amount, c.height)]
    case Withdraw => [WithdrawLine(tx.nonce, tx.user, tx.amount, tx.expiry, c.height)]
    case EscrowSet => [EscrowLine(tx.nonce, tx.market, tx.target, tx.expiry, c.height)]
    case SettleMarket => [SettleLine(tx.nonce, tx.market, if tx.outcome > 0 then 1 else 0, tx.expiry, c.height)]
    case Cancel => [CancelLine(tx.nonce, tx.expiry, c.height)]
    case Unknown => []
  }

  function Trace(calls: seq<Go.Call>): seq<Line>
  {
    if calls == [] then [] else Trace(calls[..|calls| - 1]) + WriteTrace(calls[|calls| - 1])
  }

  lemma TraceSnoc(calls: seq<Go.Call>, c: Go.Call)
    ensures Trace(calls + [c]) == Trace(calls) + WriteTrace(c)
  {
    assert (calls + [c])[..|calls|] == calls;
  }

  lemma {:induction false} TraceConcat(a: seq<Go.Call>, b: seq<Go.Call>)
    ensures Trace(a + b) == Trace(a) + Trace(b)
    decreases |b|
  {
    if b == [] {
      assert a + b == a;
    } else {
      var last := |b| - 1;
      var x, y, line := Trace(a), Trace(b[..last]), WriteTrace(b[last]);
      calc {
        Trace(a + b);
        { assert a + b == (a + b[..last]) + [b[last]]; TraceSnoc(a + b[..last], b[last]); }
        Trace(a + b[..last]) + line;
        { TraceConcat(a, b[..last]); }
        x + y + line;
        x + (y + line);
        { assert Trace(b) == y + line; }
        x + Trace(b);
      }
    }
  }

  // Finalising a block appends its lines to the trace.
  lemma TraceGrows(history: seq<Block>, f: Block)
    ensures Trace(AllCalls(history + [f])) == Trace(AllCalls(history)) + Trace(CallsAt(f.txs, f.height))
  {
    AllCallsSnoc(history, f);
    TraceConcat(AllCalls(history), CallsAt(f.txs, f.height));
  }

  // What `CloseTrace` appends, for the markets in the order they are listed.
  ghost function Expectations(v: Go.Vault, markets: seq<string>): seq<Line>
    requires forall m | m in markets :: m in v.escrow
  {
    [ExpectBalance(v.balance), ExpectEscrowTotal(Wrapped(Sum(v.escrow)))]
      + seq(|markets|, i requires 0 <= i < |markets| => ExpectEscrow(markets[i], v.escrow[markets[i]]))
  }

  /* ----- replay ----- */

  function CallOf(line: Line): Rust.Call
    requires line.IsCall()
  {
    match line
    case DepositLine(n, user, amount, _) => Rust.Deposit(n, user, AsU128(amount))
    case WithdrawLine(n, user, amount, expiry, _) => Rust.Withdraw(n, user, AsU128(amount), AsU64(expiry))
    case EscrowLine(n, market, target, expiry, _) => Rust.EscrowSet(n, market, AsU128(target), AsU64(expiry))
    case SettleLine(n, market, outcome, expiry, _) => Rust.SettleMarket(n, market, outcome != 0, AsU64(expiry))
    case CancelLine(n, expiry, _) => Rust.Cancel(n, AsU64(expiry))
  }

  function AdvanceTo(v: Rust.State, height: nat): Rust.State
  {
    v.(height := if v.height < height then height else v.height)
  }

  datatype Progress = Progress(vault: Rust.State, refused: nat, expects: seq<Line>)

  ghost function Play(p: Progress, line: Line): (r: Progress)
    requires Rust.Sound(p.vault)
    ensures Rust.Sound(r.vault)
  {
    if line.IsCall() then
      var v := AdvanceTo(p.vault, AsU64(line.height));
      Rust.ExecKeepsSound(v, CallOf(line));
      var out := Rust.Exec(v, CallOf(line));
      Progress(out.state, p.refused + (if out.result.Ok? then 0 else 1), p.expects)
    else
      p.(expects := p.expects + [line])
  }

  ghost function PlayAll(lines: seq<Line>): (r: Progress)
    ensures Rust.Sound(r.vault)
  {
    if lines == [] then Progress(Rust.NEW, 0, [])
    else Play(PlayAll(lines[..|lines| - 1]), lines[|lines| - 1])
  }

  ghost predicate Met(v: Rust.State, e: Line)
  {
    match e
    case ExpectBalance(value) => v.balance == value
    case ExpectEscrowTotal(value) => Sum(v.escrow) == value
    case ExpectEscrow(market, value) => Rust.EscrowOf(v, market) == value
    case _ => false
  }

  function CallsIn(lines: seq<Line>): nat
  {
    if lines == [] then 0
    else CallsIn(lines[..|lines| - 1]) + if lines[|lines| - 1].IsCall() then 1 else 0
  }

  datatype Exit = Agree | BrokenInvariant | RefusedCalls | Mismatch | NothingCompared

  // The verdict of the tool, in the order it tests.
  ghost function Verdict(p: Progress): Exit
  {
    if p.refused > 0 then RefusedCalls
    else if exists i | 0 <= i < |p.expects| :: !Met(p.vault, p.expects[i]) then Mismatch
    else if p.expects == [] then NothingCompared
    else Agree
  }

  // The replay tool itself.
  method AdvanceBlocks(v: Rust.Vault, height: nat)
    modifies v
    ensures v.View() == AdvanceTo(old(v.View()), height)
  {
    while v.height < height
      invariant v.View() == old(v.View()).(height := v.height)
      invariant old(v.height) <= v.height && (v.height == old(v.height) || v.height <= height)
    {
      v.Advance();
    }
  }

  method Compare(v: Rust.Vault, e: Line) returns (met: bool)
    ensures met <==> Met(v.View(), e)
  {
    match e {
      case ExpectBalance(value) => met := v.balance == value;
      case ExpectEscrowTotal(value) =>
        var total := v.EscrowTotal();
        met := total == value;
      case ExpectEscrow(market, value) => met := (if market in v.escrow then v.escrow[market] else 0) == value;
      case _ => met := false;
    }
  }

  // One exported call: move up to its height, execute it, check the invariants.
  method RunLine(v: Rust.Vault, line: Line) returns (accepted: bool, sound: bool)
    requires Rust.Sound(v.View()) && line.IsCall()
    modifies v
    ensures sound && Rust.Sound(v.View())
    ensures forall refused: nat, expects: seq<Line> :: Play(Progress(old(v.View()), refused, expects), line) ==
              Progress(v.View(), refused + (if accepted then 0 else 1), expects)
  {
    hide Rust.Exec;
    AdvanceBlocks(v, AsU64(line.height));
    Rust.ExecKeepsSound(v.View(), CallOf(line));
    var res := v.Execute(CallOf(line));
    accepted := res.Ok?;
    sound := v.CheckInvariants();
  }

  method Replay(lines: seq<Line>) returns (exit: Exit, applied: nat, refused: nat)
    ensures exit == Verdict(PlayAll(lines)) && refused == PlayAll(lines).refused
    ensures applied + refused == CallsIn(lines)
  {
    hide Play, Rust.Sound, Met;
    var v := new Rust.Vault();
    applied, refused := 0, 0;
    var expects: seq<Line> := [];
    for i := 0 to |lines|
      invariant fresh(v)
      invariant Progress(v.View(), refused, expects) == PlayAll(lines[..i])
      invariant applied + refused == CallsIn(lines[..i])
    {
      assert lines[..i + 1][..i] == lines[..i];
      var line := lines[i];
      if line.IsCall() {
        var accepted, sound := RunLine(v, line);
        if accepted {
          applied := applied + 1;
        } else {
          refused := refused + 1;
        }
        if !sound {
          exit := BrokenInvariant;
          assert false;
        }
      } else {
        PlayNote(PlayAll(lines[..i]), line);
        expects := expects + [line];
      }
    }
    assert lines[..|lines|] == lines;
    ghost var p := PlayAll(lines);
    assert p == Progress(v.View(), refused, expects);
    var failures := 0;
    for i := 0 to |expects|
      invariant v.View() == p.vault && 0 <= failures <= i
      invariant failures == 0 <==> forall k | 0 <= k < i :: Met(p.vault, expects[k])
    {
      var met := Compare(v, expects[i]);
      if !met {
        failures := failures + 1;
      }
    }
    exit := if refused > 0 then RefusedCalls
            else if failures > 0 then Mismatch
            else if |expects| == 0 then NothingCompared else Agree;
  }

  // The tool agrees exactly when it has refused nothing and compared something, and all it compared
  // was met; a mismatch it reports only of a replay without refusals.
  lemma AgreementMeans(p: Progress)
    ensures Verdict(p) == Agree <==>
            p.refused == 0 && p.expects != [] && forall i | 0 <= i < |p.expects| :: Met(p.vault, p.expects[i])
    ensures Verdict(p) == Mismatch ==> p.refused == 0 && p.expects != []
    ensures Verdict(p) != BrokenInvariant
  {
  }

  // The vault is moved up to the recorded height and never down.
  lemma NeverMovedDown(v: Rust.State, height: nat)
    ensures AdvanceTo(v, height).height >= v.height && AdvanceTo(v, height).height >= height
    ensures AdvanceTo(v, height).height == v.height || AdvanceTo(v, height).height == height
    ensures AdvanceTo(v, height) == v.(height := AdvanceTo(v, height).height)
  {
  }

  lemma PlayNote(p: Progress, line: Line)
    requires Rust.Sound(p.vault) && !line.IsCall()
    ensures Play(p, line) == p.(expects := p.expects + [line])
  {
  }

  /* ----- the two contracts mirror each other ----- */

  // Equal storage, as far as the simulator's 64-bit balance can hold the custody.
  ghost predicate Same(g: Go.Vault, r: Rust.State)
  {
    && g.balance == Wrapped(r.balance)
    && g.escrow == r.escrow
    && g.settled == r.settled.Keys
    && g.processed == r.processed.Keys
    && g.cancelled == r.cancelled
  }

  // What the simulator's callers issue: nothing negative, and deposits that never expire.
  ghost predicate Issued(tx: Go.Tx)
  {
    tx.amount >= 0 && tx.target >= 0 && tx.expiry >= 0 && tx.kind != Go.Unknown &&
        (tx.kind == Go.Deposit ==> tx.expiry == 0)
  }

  // The call a transaction stands for when no cast wraps.
  ghost function PlainCall(tx: Go.Tx): Rust.Call
    requires Issued(tx)
  {
    match tx.kind
    case Deposit => Rust.Deposit(tx.nonce, tx.user, tx.amount)
    case Withdraw => Rust.Withdraw(tx.nonce, tx.user, tx.amount, tx.expiry)
    case EscrowSet => Rust.EscrowSet(tx.nonce, tx.market, tx.target, tx.expiry)
    case SettleMarket => Rust.SettleMarket(tx.nonce, tx.market, tx.outcome > 0, tx.expiry)
    case Cancel => Rust.Cancel(tx.nonce, tx.expiry)
  }

  lemma CastsAreExact(x: int)
    requires 0 <= x < TWO_TO_THE_63
    ensures AsU64(x) == x && AsU128(x) == x
  {
  }

  lemma TraceIsPlain(tx: Go.Tx, height: int)
    requires Issued(tx)
    ensures var lines := WriteTrace(Go.Call(tx, height));
      |lines| == 1 && lines[0].IsCall() && CallOf(lines[0]) == PlainCall(tx) && lines[0].height == height
  {
    CastsAreExact(tx.amount);
    CastsAreExact(tx.target);
    CastsAreExact(tx.expiry);
  }

  // Same storage up to the receipts, which are filed last.
  ghost predicate SameEffect(g: Go.Vault, r: Rust.State)
  {
    && g.balance == Wrapped(r.balance)
    && g.escrow == r.escrow
    && g.settled == r.settled.Keys
    && g.cancelled == r.cancelled
  }

  // What the simulator takes for free custody is never more than what is.
  lemma FreeMirrors(g: Go.Vault, r: Rust.State)
    requires Same(g, r) && Rust.Check(r)
    ensures 0 <= Sum(r.escrow) <= r.balance && Go.Free(g) <= Rust.Free(r)
    ensures r.balance <= MAX_INT64 ==> Go.Free(g) == Rust.Free(r)
  {
    Rust.EscrowNonNegative(r);
    hide Sum;
    WrapsDown(r.balance - Sum(r.escrow));
    WrapsApart(r.balance, Sum(r.escrow));
  }

  // The simulator accepts a call, or the custody fits its balance.
  ghost predicate TakenOrFits(g: Go.Vault, r: Rust.State, tx: Go.Tx)
  {
    Go.Apply(g, tx, r.height).ok || r.balance <= MAX_INT64
  }

  lemma MirrorMoney(g: Go.Vault, r: Rust.State, tx: Go.Tx)
    requires Same(g, r) && Rust.Check(r) && Issued(tx) && (tx.kind == Go.Deposit || tx.kind == Go.Withdraw)
    requires TakenOrFits(g, r, tx)
    ensures Go.Apply(g, tx, r.height).ok <==> Rust.Perform(r, PlainCall(tx)).Done?
    ensures Go.Apply(g, tx, r.height).ok ==>
              SameEffect(Go.Apply(g, tx, r.height).vault, Rust.Perform(r, PlainCall(tx)).state)
  {
    FreeMirrors(g, r);
    var out: int := tx.amount;
    WrapsOnce(r.balance, tx.amount);
    WrapsOnce(r.balance, -out);
    hide Wrapped, Sum, Go.Free, Rust.Free;
  }

  lemma MirrorEscrow(g: Go.Vault, r: Rust.State, tx: Go.Tx)
    requires Same(g, r) && Rust.Check(r) && Issued(tx) && tx.kind == Go.EscrowSet && TakenOrFits(g, r, tx)
    ensures Go.Apply(g, tx, r.height).ok <==> Rust.Perform(r, PlainCall(tx)).Done?
    ensures Go.Apply(g, tx, r.height).ok ==>
              SameEffect(Go.Apply(g, tx, r.height).vault, Rust.Perform(r, PlainCall(tx)).state)
  {
    FreeMirrors(g, r);
    assert 0 <= Go.EscrowOf(g, tx.market) == Rust.EscrowOf(r, tx.market);
    hide Wrapped, Sum, Go.Free, Rust.Free;
  }

  lemma MirrorSettleOrCancel(g: Go.Vault, r: Rust.State, tx: Go.Tx)
    requires Same(g, r) && Rust.Check(r) && Issued(tx) && (tx.kind == Go.SettleMarket || tx.kind == Go.Cancel)
    ensures Go.Apply(g, tx, r.height).ok <==> Rust.Perform(r, PlainCall(tx)).Done?
    ensures Go.Apply(g, tx, r.height).ok ==>
              SameEffect(Go.Apply(g, tx, r.height).vault, Rust.Perform(r, PlainCall(tx)).state)
  {
    hide Wrapped, Sum;
  }

  // On equal storage the two implementations accept the same calls and end in equal storage, while
  // custody fits 64 bits; beyond that the crate accepts at least what the simulator does.
  lemma Mirror(g: Go.Vault, r: Rust.State, tx: Go.Tx)
    requires Same(g, r) && Rust.Check(r) && Issued(tx) && TakenOrFits(g, r, tx)
    ensures Go.Apply(g, tx, r.height).ok <==> Rust.Exec(r, PlainCall(tx)).result.Ok?
    ensures Same(Go.Apply(g, tx, r.height).vault, Rust.Exec(r, PlainCall(tx)).state)
  {
    hide Wrapped, Sum, Go.Free, Rust.Free;
    if tx.kind == Go.Deposit || tx.kind == Go.Withdraw {
      MirrorMoney(g, r, tx);
    } else if tx.kind == Go.EscrowSet {
      MirrorEscrow(g, r, tx);
    } else {
      MirrorSettleOrCancel(g, r, tx);
    }
    Go.ApplyNonces(g, tx, r.height);
    Rust.ExecRecords(r, PlainCall(tx));
    ExecIsPerform(r, PlainCall(tx));
  }

  lemma ExecIsPerform(r: Rust.State, call: Rust.Call)
    requires Rust.Check(r)
    ensures Rust.Exec(r, call).result.Ok? <==> Rust.Perform(r, call).Done?
    ensures Rust.Perform(r, call).Done? ==>
              Rust.Exec(r, call).state ==
              Rust.Perform(r, call).state.(processed := Rust.Exec(r, call).state.processed)
  {
  }

  ghost predicate Ascending(calls: seq<Go.Call>, top: int)
  {
    && (forall i | 0 <= i < |calls| :: 0 <= calls[i].height <= top)
    && (forall i, j | 0 <= i < j < |calls| :: calls[i].height <= calls[j].height)
  }

  // One exported call, replayed on equal storage.
  lemma PlayMirrors(p: Progress, g: Go.Vault, c: Go.Call)
    requires Rust.Sound(p.vault) && Same(g, p.vault) && Issued(c.tx) && Go.Apply(g, c.tx, c.height).ok
    requires p.vault.height <= c.height < TWO_TO_THE_63
    ensures var lines := WriteTrace(c);
      |lines| == 1 &&
      var r := Play(p, lines[0]);
      r.refused == p.refused && r.expects == p.expects && r.vault.height == c.height &&
      Same(Go.Apply(g, c.tx, c.height).vault, r.vault) && r.vault.balance == p.vault.balance + Go.CustodyOf(g, c)
  {
    TraceIsPlain(c.tx, c.height);
    CastsAreExact(c.height);
    var v := AdvanceTo(p.vault, c.height);
    Mirror(g, v, c.tx);
    ExecHeight(v, PlainCall(c.tx));
    ExecCustody(v, g, c);
    hide Wrapped, Sum, Same, Rust.Exec, Go.Apply;
  }

  lemma ExecCustody(v: Rust.State, g: Go.Vault, c: Go.Call)
    requires Rust.Check(v) && Issued(c.tx) && Go.Apply(g, c.tx, c.height).ok && Rust.Exec(v, PlainCall(c.tx)).result.Ok?
    ensures Rust.Exec(v, PlainCall(c.tx)).state.balance == v.balance + Go.CustodyOf(g, c)
  {
    hide Wrapped, Sum, Go.Apply, Rust.Free;
  }

  lemma ExecHeight(v: Rust.State, call: Rust.Call)
    requires Rust.Check(v)
    ensures Rust.Exec(v, call).state.height == v.height
  {
  }

  // Replaying an accepted history: zero refusals, and equal storage at the end.
  lemma {:induction false} HistoryReplays(calls: seq<Go.Call>, top: int)
    requires Go.Accepted(Go.EMPTY, calls) && Ascending(calls, top) && 0 <= top < TWO_TO_THE_63
    requires forall i | 0 <= i < |calls| :: Issued(calls[i].tx)
    ensures var p := PlayAll(Trace(calls));
      p.refused == 0 && p.expects == [] && Same(Go.Run(Go.EMPTY, calls), p.vault) && p.vault.height <= top &&
      p.vault.balance == Go.TrueCustody(calls)
    decreases |calls|
  {
    hide Wrapped, Play, Go.Apply, WriteTrace, Go.CustodyOf;
    if calls != [] {
      var last := |calls| - 1;
      var before, c := calls[..last], calls[last];
      HistoryReplays(before, c.height);
      PlayMirrors(PlayAll(Trace(before)), Go.Run(Go.EMPTY, before), c);
      PlaySnoc(Trace(before), WriteTrace(c)[0]);
      assert Trace(calls) == Trace(before) + [WriteTrace(c)[0]];
    }
  }

  // Every settlement of the history stands in the Rust contract with its outcome.
  ghost predicate OutcomesStand(calls: seq<Go.Call>, r: Rust.State)
  {
    forall i | 0 <= i < |calls| && calls[i].tx.kind == Go.SettleMarket ::
      calls[i].tx.market in r.settled && r.settled[calls[i].tx.market] == (calls[i].tx.outcome > 0)
  }

  lemma ExecSettles(v: Rust.State, call: Rust.Call)
    requires Rust.Check(v) && Rust.Exec(v, call).result.Ok?
    ensures Rust.Exec(v, call).state.settled ==
            if call.SettleMarket? then v.settled[call.market := call.outcome] else v.settled
    ensures call.SettleMarket? ==> call.market !in v.settled
  {
    hide Sum, Rust.Free;
  }

  lemma OneMoreOutcome(calls: seq<Go.Call>, p: Progress, g: Go.Vault)
    requires calls != [] && OutcomesStand(calls[..|calls| - 1], p.vault) && Rust.Sound(p.vault) && Same(g, p.vault)
    requires var c := calls[|calls| - 1];
      Issued(c.tx) && Go.Apply(g, c.tx, c.height).ok && p.vault.height <= c.height < TWO_TO_THE_63
    ensures var lines := WriteTrace(calls[|calls| - 1]);
      |lines| == 1 && OutcomesStand(calls, Play(p, lines[0]).vault)
  {
    var c := calls[|calls| - 1];
    TraceIsPlain(c.tx, c.height);
    CastsAreExact(c.height);
    var v := AdvanceTo(p.vault, c.height);
    Mirror(g, v, c.tx);
    ExecSettles(v, PlainCall(c.tx));
    hide Wrapped, Sum, Same, Rust.Exec, Go.Apply, Rust.Check;
    forall i | 0 <= i < |calls| - 1 ensures calls[..|calls| - 1][i] == calls[i] {}
  }

  // The outcomes of all settlements survive the export and the replay.
  lemma {:induction false} OutcomesReplay(calls: seq<Go.Call>, top: int)
    requires Go.Accepted(Go.EMPTY, calls) && Ascending(calls, top) && 0 <= top < TWO_TO_THE_63
    requires forall i | 0 <= i < |calls| :: Issued(calls[i].tx)
    ensures OutcomesStand(calls, PlayAll(Trace(calls)).vault)
    decreases |calls|
  {
    hide Wrapped, Play, Go.Apply, WriteTrace, Go.CustodyOf, OutcomesStand, Same;
    if calls == [] {
      NoOutcomes(PlayAll(Trace(calls)).vault);
    } else {
      var last := |calls| - 1;
      var before, c := calls[..last], calls[last];
      HistoryReplays(before, c.height);
      OutcomesReplay(before, c.height);
      OneMoreOutcome(calls, PlayAll(Trace(before)), Go.Run(Go.EMPTY, before));
      PlaySnoc(Trace(before), WriteTrace(c)[0]);
      assert Trace(calls) == Trace(before) + [WriteTrace(c)[0]];
    }
  }

  lemma NoOutcomes(r: Rust.State)
    ensures OutcomesStand([], r)
  {
  }

  lemma PlaySnoc(lines: seq<Line>, line: Line)
    ensures PlayAll(lines + [line]) == Play(PlayAll(lines), line)
  {
    assert (lines + [line])[..|lines|] == lines;
  }

  lemma PlayExpectation(lines: seq<Line>, e: Line)
    requires !e.IsCall()
    ensures PlayAll(lines + [e]) == PlayAll(lines).(expects := PlayAll(lines).expects + [e])
  {
    PlaySnoc(lines, e);
  }

  lemma {:induction false} PlayExpectations(lines: seq<Line>, expects: seq<Line>, p: Progress)
    requires p == PlayAll(lines)
    requires forall i | 0 <= i < |expects| :: !expects[i].IsCall()
    ensures PlayAll(lines + expects) == Progress(p.vault, p.refused, p.expects + expects)
    decreases |expects|
  {
    hide Play;
    if expects == [] {
      assert lines + expects == lines;
      assert p.expects + expects == p.expects;
    } else {
      var last := |expects| - 1;
      PlayExpectations(lines, expects[..last], p);
      PlayExpectation(lines + expects[..last], expects[last]);
      assert lines + expects == lines + expects[..last] + [expects[last]];
      assert p.expects + expects[..last] + [expects[last]] == p.expects + expects;
    }
  }

  lemma {:induction false} CallsAscend(blocks: seq<Block>)
    requires forall k | 0 <= k < |blocks| :: blocks[k].height == k + 1
    ensures Ascending(AllCalls(blocks), |blocks|)
    decreases |blocks|
  {
    if blocks != [] {
      CallsAscend(blocks[..|blocks| - 1]);
    }
  }

  lemma {:induction false} CallsIssued(blocks: seq<Block>)
    requires forall k, i | 0 <= k < |blocks| && 0 <= i < |blocks[k].txs| :: Issued(blocks[k].txs[i])
    ensures forall i | 0 <= i < |AllCalls(blocks)| :: Issued(AllCalls(blocks)[i].tx)
    decreases |blocks|
  {
    if blocks != [] {
      var last := |blocks| - 1;
      CallsIssued(blocks[..last]);
    }
  }

  // Every expectation is met if and only if the custody fits 64 bits.
  lemma ExpectationsMet(g: Go.Vault, r: Rust.State, markets: seq<string>)
    requires Same(g, r) && Rust.Check(r) && forall m | m in markets :: m in g.escrow
    ensures forall i | 0 <= i < |Expectations(g, markets)| :: !Expectations(g, markets)[i].IsCall()
    ensures (forall i | 0 <= i < |Expectations(g, markets)| :: Met(r, Expectations(g, markets)[i]))
            <==> r.balance <= MAX_INT64
  {
    Rust.EscrowNonNegative(r);
    var e := Expectations(g, markets);
    assert e[0] == ExpectBalance(g.balance) && e[1] == ExpectEscrowTotal(Wrapped(Sum(g.escrow)));
    assert Met(r, e[0]) <==> r.balance <= MAX_INT64 by {
      if r.balance <= MAX_INT64 {
        assert Wrapped(r.balance) == r.balance;
      }
    }
    hide Sum, Wrapped;
    if r.balance <= MAX_INT64 {
      forall i | 0 <= i < |e| ensures Met(r, e[i]) {
      }
    }
  }

  lemma HistoryOfChainReplays(c: Chain)
    requires ChainInv(c) && c.head < TWO_TO_THE_63
    requires forall k, i | 0 <= k < |c.history| && 0 <= i < |c.history[k].txs| :: Issued(c.history[k].txs[i])
    ensures var p := PlayAll(Trace(AllCalls(c.history)));
      p.refused == 0 && p.expects == [] && Same(c.final, p.vault) &&
      p.vault.balance == Go.TrueCustody(AllCalls(c.history))
  {
    HeadIsFullReplay(c);
    forall k | 0 <= k < |c.history| ensures c.history[k].height == k + 1 {
      assert Canon(c)[k] == c.history[k];
    }
    CallsAscend(c.history);
    CallsIssued(c.history);
    HistoryReplays(AllCalls(c.history), |c.history|);
  }

  // The differential theorem: the exported history of any run of the simulator replays through
  // the Rust contract without one refusal and leaves equal storage, and the tool agrees if and only
  // if the custody the history has built up fits the simulator's 64-bit balance.
  lemma FinalisedHistoryReplays(c: Chain, markets: seq<string>)
    requires ChainInv(c) && c.head < TWO_TO_THE_63
    requires forall k, i | 0 <= k < |c.history| && 0 <= i < |c.history[k].txs| :: Issued(c.history[k].txs[i])
    requires forall m | m in markets :: m in c.final.escrow
    ensures var p := PlayAll(Trace(AllCalls(c.history)) + Expectations(c.final, markets));
      && p.refused == 0 && Same(c.final, p.vault) && p.vault.balance == Go.TrueCustody(AllCalls(c.history))
      && Verdict(p) == if Go.TrueCustody(AllCalls(c.history)) <= MAX_INT64 then Agree else Mismatch
  {
    hide Same, Go.TrueCustody, Trace, PlayAll, Met;
    HistoryOfChainReplays(c);
    VerdictOf(AllCalls(c.history), c.final, markets);
  }

  // Custody that does not fit: two deposits of half the range each, and the tool finds a mismatch.
  lemma LargeDepositsDiverge(user: string) returns (calls: seq<Go.Call>)
    ensures Go.Accepted(Go.EMPTY, calls) && |calls| == 2
    ensures forall i | 0 <= i < |calls| :: calls[i].tx.kind == Go.Deposit && calls[i].tx.amount == TWO_TO_THE_63 / 2
    ensures Go.Run(Go.EMPTY, calls).balance == -TWO_TO_THE_63
    ensures var p := PlayAll(Trace(calls) + Expectations(Go.Run(Go.EMPTY, calls), []));
      p.refused == 0 && p.vault.balance == TWO_TO_THE_63 && Verdict(p) == Mismatch
  {
    var half: int := TWO_TO_THE_63 / 2;
    var first := Go.Call(Go.Tx(Go.DepositId(1), Go.Deposit, user, half, "", 0, 0, 0), 1);
    var second := Go.Call(Go.Tx(Go.DepositId(2), Go.Deposit, user, half, "", 0, 0, 0), 2);
    calls := [first, second];
    TwoDeposits(first, second);
    hide Go.TrueCustody, Trace, PlayAll, Met, Go.Run, Go.Accepted, Expectations, Verdict, Wrapped;
    Diverges(calls, 2);
  }

  // An exported history whose custody is the first that does not fit.
  lemma Diverges(calls: seq<Go.Call>, top: int)
    requires Go.Accepted(Go.EMPTY, calls) && Ascending(calls, top) && 0 <= top < TWO_TO_THE_63
    requires (forall i | 0 <= i < |calls| :: Issued(calls[i].tx)) && Go.TrueCustody(calls) == TWO_TO_THE_63
    ensures Go.Run(Go.EMPTY, calls).balance == -TWO_TO_THE_63
    ensures var p := PlayAll(Trace(calls) + Expectations(Go.Run(Go.EMPTY, calls), []));
      p.refused == 0 && p.vault.balance == TWO_TO_THE_63 && Verdict(p) == Mismatch
  {
    hide Go.TrueCustody, Trace, PlayAll, Met, Go.Run, Go.Accepted, Wrapped, Same, Ascending;
    WrapsOver();
    HistoryReplays(calls, top);
    Go.BalanceIsCustody(calls);
    VerdictOf(calls, Go.Run(Go.EMPTY, calls), []);
  }

  lemma VerdictOf(calls: seq<Go.Call>, g: Go.Vault, markets: seq<string>)
    requires PlayAll(Trace(calls)).refused == 0 && PlayAll(Trace(calls)).expects == [] &&
        Same(g, PlayAll(Trace(calls)).vault)
    requires forall m | m in markets :: m in g.escrow
    ensures var p := PlayAll(Trace(calls) + Expectations(g, markets));
      && p.refused == 0 && p.vault == PlayAll(Trace(calls)).vault
      && Verdict(p) == if p.vault.balance <= MAX_INT64 then Agree else Mismatch
  {
    hide Same, Trace, PlayAll, Met;
    var p, expects := PlayAll(Trace(calls)), Expectations(g, markets);
    ExpectationsMet(g, p.vault, markets);
    PlayExpectations(Trace(calls), expects, p);
    assert p.expects + expects == expects;
    assert |expects| > 0;
  }

  lemma TwoDeposits(first: Go.Call, second: Go.Call)
    requires first.tx.kind == second.tx.kind == Go.Deposit && first.tx.expiry == second.tx.expiry == 0
    requires first.tx.amount > 0 && second.tx.amount > 0 && first.tx.nonce != second.tx.nonce
    ensures Go.Accepted(Go.EMPTY, [first, second])
    ensures Go.TrueCustody([first, second]) == first.tx.amount + second.tx.amount
  {
    var none: seq<Go.Call> := [];
    assert none + [first] == [first] && [first] + [second] == [first, second];
    assert [first, second][..1] == [first] && [first][..0] == none;
    hide Wrapped;
    Go.RunSnoc(Go.EMPTY, none, first);
    Go.RunSnoc(Go.EMPTY, [first], second);
    Go.CustodySnoc(none, first);
    Go.CustodySnoc([first], second);
  }
}
