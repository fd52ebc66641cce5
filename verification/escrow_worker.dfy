/** The escrow worker over the store and the chain: one pass per market, updating the drift table
    and issuing instructions in place. */
module EscrowTick {
  import opened Integers
  import opened Sums
  import opened GoVault
  import opened Ledger
  import opened Store
  import opened System
  import opened SystemInvariants
  import opened Residue
  import opened Escrow
  import opened Markets
  import Postgres
  import Sim

  // A market out of line, as the report lists it.
  datatype DriftLine = DriftLine(collateral: int, onChain: int, inFlight: Option<int>, unexplained: int, misses: nat)

  datatype EscrowReport = EscrowReport(markets: nat, synced: nat, explained: nat, unexplained: nat,
                                       totalLedger: int64, totalChain: int64, issued: nat, drifts: map<Market,
                                           DriftLine>)

  ghost function Collateral(db: Db, market: Market): int
  {
    SumOf(db.positions, CollateralIn(market))
  }

  ghost function Collaterals(db: Db, markets: set<Market>): map<Market, int>
  {
    map m | m in markets :: Collateral(db, m)
  }

  // The level an instruction in flight is installing, market by market.
  ghost predicate TargetsInFlight(db: Db, targets: map<Market, int>)
  {
    && (forall m :: m in targets <==> EscrowInFlight(db, m))
    && (forall m | m in targets :: exists n | n in db.intents ::
        IsTarget(db.intents[n], m) && db.intents[n].amount == targets[m])
  }

  predicate IsTarget(i: Intent, market: Market)
  {
    i.kind == EscrowSet && i.market == market && InFlight(i)
  }

  ghost function Observe(s: Sys, targets: map<Market, int>, market: Market): Observation
  {
    var want := Collateral(s.db, market);
    Observation(want, EscrowOf(s.chain.final, market), market in targets && targets[market] == want)
  }

  // A gap that no instruction in flight touches, in a market the vault has not settled.
  ghost predicate ShouldIssue(s: Sys, targets: map<Market, int>, market: Market)
  {
    Collateral(s.db, market) != EscrowOf(s.chain.final, market) && market !in targets &&
        market !in s.chain.final.settled
  }

  // The markets for which a pass issues.
  ghost predicate IssuesFor(s: Sys, targets: map<Market, int>, visited: set<Market>, issued: seq<Market>)
  {
    && (forall m :: m in issued <==> m in visited && ShouldIssue(s, targets, m))
    && (forall i, j | 0 <= i < j < |issued| :: issued[i] != issued[j])
  }

  // The instruction for a market: its intent row and its payload.
  ghost predicate IsInstruction(s: Sys, db: Db, id: Nonce, market: Market)
  {
    && id in db.intents && id in db.outbox
    && var i := db.intents[id];
       && i.kind == EscrowSet && i.market == market && i.amount == Collateral(s.db, market) && i.state == StateReserved
       && i.expiry == s.chain.head + ESCROW_EXPIRY_BLOCKS
       && db.outbox[id] == Tx(id, EscrowSet, "", 0, market, i.amount, 0, i.expiry)
  }

  // One new instruction for each of these markets, under the next ids, and nothing else.
  ghost predicate Instructed(s: Sys, db: Db, issued: seq<Market>, first: nat)
  {
    && db == s.db.(intents := db.intents, outbox := db.outbox)
    && (forall n :: n in db.intents <==> n in s.db.intents || IsNew(n, first, |issued|))
    && (forall n | n in s.db.intents :: db.intents[n] == s.db.intents[n])
    && (forall n | n in s.db.outbox :: n in db.outbox && db.outbox[n] == s.db.outbox[n])
    && (forall i | 0 <= i < |issued| :: IsInstruction(s, db, IntentId(first + i), issued[i]))
  }

  predicate IsNew(n: Nonce, first: nat, count: nat)
  {
    n.IntentId? && first <= n.id < first + count
  }

  function MissesOf(row: Option<Drift>): nat
  {
    if row.Some? then row.value.misses else 0
  }

  // The line of one market in the report, given its drift row when the line is written.
  ghost function LineOf(s: Sys, targets: map<Market, int>, market: Market, row: Option<Drift>): Option<DriftLine>
  {
    var want, got := Collateral(s.db, market), EscrowOf(s.chain.final, market);
    if want == got then None
    else
      var target := if market in targets then Some(targets[market]) else None;
      Some(DriftLine(want, got, target, if target == Some(want) then 0 else want - got, MissesOf(row)))
  }

  function LineIn(drifts: map<Market, DriftLine>, market: Market): Option<DriftLine>
  {
    if market in drifts then Some(drifts[market]) else None
  }

  ghost predicate Listed(s: Sys, targets: map<Market, int>, visited: set<Market>, rows: map<Market, Drift>,
      drifts: map<Market, DriftLine>)
  {
    forall m :: LineIn(drifts, m) == if m in visited then LineOf(s, targets, m, RowOf(rows, m)) else None
  }

  // The markets in line, those whose gap an instruction in flight is closing exactly, and the others.
  ghost function InLine(s: Sys, visited: set<Market>): set<Market>
  {
    set m | m in visited && Collateral(s.db, m) == EscrowOf(s.chain.final, m)
  }

  ghost function Closing(s: Sys, targets: map<Market, int>, visited: set<Market>): set<Market>
  {
    set m | m in visited && Collateral(s.db, m) != EscrowOf(s.chain.final, m) &&
        m in targets && targets[m] == Collateral(s.db, m)
  }

  ghost function Unattended(s: Sys, targets: map<Market, int>, visited: set<Market>): set<Market>
  {
    set m | m in visited && Collateral(s.db, m) != EscrowOf(s.chain.final, m) &&
        (m !in targets || targets[m] != Collateral(s.db, m))
  }

  // The report counts the markets of each sort.
  ghost predicate Counted(s: Sys, targets: map<Market, int>, visited: set<Market>, r: EscrowReport)
  {
    && r.synced == |InLine(s, visited)| && r.explained == |Closing(s, targets, visited)|
    && r.unexplained == |Unattended(s, targets, visited)|
  }

  // The report lists exactly the markets out of line, each with its two sides, and with its whole gap
  // as unexplained unless an instruction in flight is closing exactly that gap.
  lemma ListedSays(s: Sys, targets: map<Market, int>, visited: set<Market>, rows: map<Market, Drift>,
      drifts: map<Market, DriftLine>, m: Market)
    requires Listed(s, targets, visited, rows, drifts)
    ensures m in drifts <==> m in Closing(s, targets, visited) + Unattended(s, targets, visited)
    ensures m in drifts ==>
              && drifts[m].collateral == Collateral(s.db, m) && drifts[m].onChain == EscrowOf(s.chain.final, m)
              && drifts[m].unexplained == (if m in Closing(s, targets, visited) then 0
                                           else Collateral(s.db, m) - EscrowOf(s.chain.final, m))
              && (drifts[m].inFlight == if m in targets then Some(targets[m]) else None)
  {
    hide Collateral;
    assert LineIn(drifts, m) == if m in visited then LineOf(s, targets, m, RowOf(rows, m)) else None;
  }

  function RowOf(drift: map<Market, Drift>, market: Market): Option<Drift>
  {
    if market in drift then Some(drift[market]) else None
  }

  class Worker {
    const store: Postgres.Database
    const chain: Sim.Simulator
    var drift: map<Market, Drift>

    ghost function View(): Sys
      reads this, store, store.ledger, chain, chain.final
    {
      Sys(chain.View(), store.View(), {})
    }

    constructor (store: Postgres.Database, chain: Sim.Simulator)
      ensures this.store == store && this.chain == chain && drift == map[]
    {
      this.store, this.chain, drift := store, chain, map[];
    }

    method SumCollateral(market: Market) returns (total: int)
      ensures total == Collateral(store.View(), market)
    {
      total := 0;
      var rest := store.positions;
      while rest != map[]
        invariant total + SumOf(rest, CollateralIn(market)) == SumOf(store.positions, CollateralIn(market))
        decreases |rest|
      {
        var p :| p in rest;
        var smaller := rest - {p};
        assert rest == smaller[p := rest[p]];
        SumOfUpdate(smaller, CollateralIn(market), p, rest[p]);
        if rest[p].state == OpenPos && rest[p].market == market {
          total := total + rest[p].collateral;
        }
        rest := smaller;
      }
      SumOfNothing(rest, CollateralIn(market));
    }

    method InFlightEscrowTargets() returns (targets: map<Market, int>)
      ensures TargetsInFlight(store.View(), targets)
    {
      targets := map[];
      var rest := store.intents.Keys;
      while rest != {}
        invariant rest <= store.intents.Keys
        invariant forall m | m in targets :: exists n | n in store.intents ::
            IsTarget(store.intents[n], m) && store.intents[n].amount == targets[m]
        invariant forall n | n in store.intents && n !in rest && store.intents[n].kind == EscrowSet &&
            InFlight(store.intents[n]) ::
            store.intents[n].market in targets
        decreases |rest|
      {
        var n :| n in rest;
        rest := rest - {n};
        var it := store.intents[n];
        if it.kind == EscrowSet && InFlight(it) {
          targets := targets[it.market := it.amount];
          assert IsTarget(store.intents[n], it.market);
        }
      }
      forall m ensures m in targets <==> EscrowInFlight(store.View(), m) {
        if m in targets {
          var n :| n in store.intents && IsTarget(store.intents[n], m) && store.intents[n].amount == targets[m];
          assert store.View().intents[n].kind == EscrowSet;
        }
      }
    }

    // The drift row of one market, as the two upserts write it.
    method NoteDrift(market: Market, want: int, got: int, covered: bool)
      modifies this`drift
      ensures RowOf(drift, market) == DriftAfter(RowOf(old(drift), market), Observation(want, got, covered))
      ensures forall m | m != market :: RowOf(drift, m) == RowOf(old(drift), m)
    {
      if want == got {
        drift := drift - {market};
      } else if covered {
        if market in drift {
          drift := drift[market := Drift(want, got, 0)];
        }
      } else if market in drift {
        var row := drift[market];
        drift := drift[market := Drift(want, got, if row.want == want && row.got == got then row.misses + 1 else 0)];
      } else {
        drift := drift[market := Drift(want, got, 0)];
      }
    }

    // Issues an instruction for an uncovered gap, unless the vault has settled the market.
    method Issue(market: Market, want: int64, inFlight: bool, next: nat) returns (issued: bool)
      requires Inv(View()) && market in LiveMarkets(store.View()) && want == Collateral(store.View(), market)
      requires AllBelow(store.View(), next) && 0 <= chain.head < 0x4000_0000_0000_0000
      modifies store`intents, store`outbox
      ensures Inv(View()) && AllBelow(store.View(), next + if issued then 1 else 0)
      ensures issued <==> !inFlight && market !in chain.final.settled
      ensures store.View() == if issued then RequestEscrowSet(old(store.View()), IntentId(next), market, want,
          chain.head + ESCROW_EXPIRY_BLOCKS)
                              else old(store.View())
    {
      hide Inv, AllBelow, Collateral, LiveMarkets;
      issued := !inFlight && market !in chain.final.settled;
      if issued {
        IssueKeeps(View(), market, want, next, chain.head + ESCROW_EXPIRY_BLOCKS);
        store.RequestEscrowSet(IntentId(next), market, want, chain.head + ESCROW_EXPIRY_BLOCKS);
      }
    }

    // The two sides of one market.
    method Look(m: Market, working: map<Market, int>) returns (want: int, got: int, covered: bool)
      ensures Observation(want, got, covered) == Observe(View(), working, m)
    {
      want := SumCollateral(m);
      got := if m in chain.final.escrow then chain.final.escrow[m] else 0;
      covered := m in working && working[m] == want;
    }

    // One market of a pass that began in state `s` and has issued for `done` so far.
    method Visit(ghost s: Sys, m: Market, working: map<Market, int>, issue: bool, r: EscrowReport, first: nat,
                 ghost live: set<Market>, ghost rest: set<Market>, ghost done: seq<Market>)
      returns (r': EscrowReport, ghost done': seq<Market>)
      requires Inv(View()) && m in LiveMarkets(store.View()) && m in rest && rest <= live &&
          Collateral(store.View(), m) < TWO_TO_THE_63
      requires AllBelow(store.View(), first + r.issued) && 0 <= chain.head < 0x4000_0000_0000_0000
      requires s.chain == chain.View() && TargetsInFlight(s.db, working)
      requires Instructed(s, store.View(), done, first) && IssuedSoFar(s, working, issue, live, rest, done) &&
          r.issued == |done|
      modifies this`drift, store`intents, store`outbox
      ensures Inv(View()) && AllBelow(store.View(), first + r'.issued) && r'.issued == |done'|
      ensures r' == Tally(r, Observe(s, working, m)).(issued := r'.issued, drifts := r'.drifts)
      ensures Instructed(s, store.View(), done', first)
      ensures IssuedSoFar(s, working, issue, live, rest - {m}, done')
      ensures RowOf(drift, m) == if issue then DriftAfter(RowOf(old(drift), m), Observe(s, working, m))
          else RowOf(old(drift), m)
      ensures !issue ==> View() == old(View()) && drift == old(drift)
      ensures forall x | x != m :: RowOf(drift, x) == RowOf(old(drift), x)
      ensures forall x :: LineIn(r'.drifts, x) == if x == m && LineOf(s, working, m, RowOf(drift, m)).Some?
                                                  then LineOf(s, working, m, RowOf(drift, m)) else LineIn(r.drifts, x)
    {
      hide Inv, AllBelow, LiveMarkets, DriftAfter, Instructed, IssuesFor, TargetsInFlight, IsTarget, RowOf;
      CollateralInRange(View(), m);
      SamePositions(s, store.View(), done, first);
      SameObservation(s, View(), working, m);
      var want, got, covered := Look(m, working);
      r', done' := Tally(r, Observation(want, got, covered)), done;
      hide Collateral, Tally;
      assert live - (rest - {m}) == live - rest + {m};
      if issue {
        var issued;
        issued, done' := Instruct(s, m, want, got, working, first + r.issued, first, live - rest, done);
        r' := r'.(issued := r.issued + if issued then 1 else 0);
        NoteDrift(m, want, got, covered);
      }
      hide Observe;
      var lines := WriteLine(s, m, want, got, covered, working, r'.drifts);
      r' := r'.(drifts := lines);
    }

    // The market's line in the report, when it is out of line.
    method WriteLine(ghost s: Sys, m: Market, want: int, got: int, covered: bool, working: map<Market, int>,
        lines: map<Market, DriftLine>)
      returns (lines': map<Market, DriftLine>)
      requires Observation(want, got, covered) == Observe(s, working, m)
      ensures forall x :: LineIn(lines', x) == if x == m && LineOf(s, working, m, RowOf(drift, m)).Some?
                                               then LineOf(s, working, m, RowOf(drift, m)) else LineIn(lines, x)
    {
      lines' := lines;
      if want != got {
        var misses := if m in drift then drift[m].misses else 0;
        var target := if m in working then Some(working[m]) else None;
        lines' := lines[m := DriftLine(want, got, target, if covered then 0 else want - got, misses)];
      }
    }

    // The instruction for one market, if it should have one.
    method Instruct(ghost s: Sys, m: Market, want: int64, got: int, working: map<Market, int>, next: nat,
        ghost first: nat,
                    ghost visited: set<Market>, ghost done: seq<Market>)
      returns (issued: bool, ghost done': seq<Market>)
      requires Inv(View()) && m in LiveMarkets(store.View()) && AllBelow(store.View(), next) && next == first + |done|
      requires 0 <= chain.head < 0x4000_0000_0000_0000 && s.chain == chain.View() && TargetsInFlight(s.db, working) &&
          m !in visited
      requires Instructed(s, store.View(), done, first) && IssuesFor(s, working, visited, done)
      requires want == Collateral(s.db, m) && got == EscrowOf(s.chain.final, m)
      modifies store`intents, store`outbox
      ensures Inv(View()) && AllBelow(store.View(), first + |done'|) && |done'| == |done| + if issued then 1 else 0
      ensures Instructed(s, store.View(), done', first) && IssuesFor(s, working, visited + {m}, done')
    {
      hide Inv, AllBelow, LiveMarkets, Instructed, IssuesFor, TargetsInFlight, Collateral;
      issued, done' := false, done;
      SamePositions(s, store.View(), done, first);
      SameObservation(s, View(), working, m);
      IssuesOneMore(s, working, visited, done, m);
      if want != got && m !in working {
        ghost var before := View();
        issued := Issue(m, want, false, next);
        if issued {
          OutboxWithin(before);
          InstructedOneMore(s, working, before.db, done, first, m, want);
          done' := done + [m];
        }
      }
    }

    // One pass. Every gap that nobody works on gets an instruction, every live market its drift row
    // and, when out of line, its line in the report. The sum of escrow never exceeds custody, so
    // while custody fits 64 bits the pass never reports an error.
    method ReconcileEscrow(issue: bool, first: nat)
      returns (r: EscrowReport, ok: bool, ghost targets: map<Market, int>, ghost issued: seq<Market>)
      requires Inv(View()) && 0 <= chain.head < 0x4000_0000_0000_0000 && AllBelow(store.View(), first)
      requires forall m | m in LiveMarkets(store.View()) :: Collateral(store.View(), m) < TWO_TO_THE_63
      modifies this`drift, store`intents, store`outbox
      ensures Inv(View()) && TargetsInFlight(old(store.View()), targets) && r.issued == |issued|
      ensures ok <==> r.totalChain <= chain.final.balance
      ensures FinalCustody(View()) <= MAX_INT64 ==> ok
      ensures Instructed(old(View()), store.View(), issued, first)
      ensures IssuesFor(old(View()), targets, if issue then LiveMarkets(old(store.View())) else {}, issued)
      ensures !issue ==> drift == old(drift) && View() == old(View())
      ensures issue ==> PassNoted(old(View()), targets, old(drift), drift, LiveMarkets(old(store.View())))
      ensures Listed(old(View()), targets, LiveMarkets(old(store.View())), drift, r.drifts)
      ensures r.synced + r.explained + r.unexplained == r.markets == |LiveMarkets(old(store.View()))|
      ensures Counted(old(View()), targets, LiveMarkets(old(store.View())), r)
      ensures r.totalLedger == Wrapped(Sum(Collaterals(old(store.View()), LiveMarkets(old(store.View())))))
      ensures r.totalChain == Wrapped(Sum(Only(chain.final.escrow, LiveMarkets(old(store.View())))))
    {
      hide Inv, EscrowInFlight, Collateral, TargetsInFlight, AllBelow, Observe, DriftAfter, PassNoted, Tally, SoFar,
           RowOf, Instructed, IssuesFor, IssuedSoFar, Listed, LineOf, LineIn, Counted;
      ghost var s := View();
      var working := InFlightEscrowTargets();
      targets, issued := working, [];
      var live := set m | m in store.markets && store.markets[m].state != MarketClosed;
      var rest := live;
      r := EscrowReport(|live|, 0, 0, 0, 0, 0, 0, map[]);
      NothingVisited(s, targets, drift, live, r, first);
      while rest != {}
        invariant Inv(View()) && rest <= live && r.issued == |issued|
        invariant AllBelow(store.View(), first + r.issued) && Instructed(s, store.View(), issued, first)
        invariant IssuedSoFar(s, targets, issue, live, rest, issued)
        invariant !issue ==> drift == old(drift) && View() == old(View())
        invariant SoFar(s, targets, issue, old(drift), drift, live, rest, r)
        decreases |rest|
      {
        var m :| m in rest;
        ghost var before, r0 := drift, r;
        SamePositions(s, store.View(), issued, first);
        SameObservation(s, View(), targets, m);
        r, issued := Visit(s, m, working, issue, r, first, live, rest, issued);
        SoFarStep(s, targets, issue, old(drift), before, drift, live, rest, r0, r, m);
        rest := rest - {m};
      }
      EverythingVisited(s, targets, issue, old(drift), drift, live, r, issued);
      ok := r.totalChain <= chain.final.balance;
    }
  }

  // The report's counts and totals cover exactly the markets visited so far.
  ghost predicate Summed(s: Sys, live: set<Market>, rest: set<Market>, r: EscrowReport)
  {
    && r.synced + r.explained + r.unexplained + |rest| == |live| && r.markets == |live|
    && r.totalLedger == Wrapped(Sum(Collaterals(s.db, live)) - Sum(Collaterals(s.db, rest)))
    && r.totalChain == Wrapped(Sum(Only(s.chain.final.escrow, live)) - Sum(Only(s.chain.final.escrow, rest)))
  }

  lemma SummedStep(s: Sys, live: set<Market>, rest: set<Market>, r: EscrowReport, r': EscrowReport,
      targets: map<Market, int>, m: Market)
    requires Summed(s, live, rest, r) && m in rest
    requires r' == Tally(r, Observe(s, targets, m)).(issued := r'.issued, drifts := r'.drifts)
    ensures Summed(s, live, rest - {m}, r')
  {
    hide Sum, Collateral, Collaterals, Only, Wrapped, Tally;
    SumsWithout(s, rest, m);
    Tallied(r, r', Observe(s, targets, m));
    WrapsOnce(Sum(Collaterals(s.db, live)) - Sum(Collaterals(s.db, rest)), Observe(s, targets, m).want);
    WrapsOnce(Sum(Only(s.chain.final.escrow, live)) - Sum(Only(s.chain.final.escrow, rest)),
        Observe(s, targets, m).got);
    assert |rest - {m}| == |rest| - 1;
  }

  lemma OneMoreInLine(s: Sys, visited: set<Market>, m: Market)
    requires m !in visited
    ensures |InLine(s, visited + {m})| ==
            |InLine(s, visited)| + if Collateral(s.db, m) == EscrowOf(s.chain.final, m) then 1 else 0
  {
    hide Collateral;
    if Collateral(s.db, m) == EscrowOf(s.chain.final, m) {
      assert InLine(s, visited + {m}) == InLine(s, visited) + {m};
    } else {
      assert InLine(s, visited + {m}) == InLine(s, visited);
    }
  }

  lemma OneMoreClosing(s: Sys, targets: map<Market, int>, visited: set<Market>, m: Market)
    requires m !in visited
    ensures |Closing(s, targets, visited + {m})| == |Closing(s, targets, visited)| +
            if Collateral(s.db, m) != EscrowOf(s.chain.final, m) && m in targets && targets[m] == Collateral(s.db, m)
              then 1 else 0
  {
    hide Collateral;
    if Collateral(s.db, m) != EscrowOf(s.chain.final, m) && m in targets && targets[m] == Collateral(s.db, m) {
      assert Closing(s, targets, visited + {m}) == Closing(s, targets, visited) + {m};
    } else {
      assert Closing(s, targets, visited + {m}) == Closing(s, targets, visited);
    }
  }

  lemma OneMoreUnattended(s: Sys, targets: map<Market, int>, visited: set<Market>, m: Market)
    requires m !in visited
    ensures |Unattended(s, targets, visited + {m})| == |Unattended(s, targets, visited)| +
            if Collateral(s.db, m) != EscrowOf(s.chain.final, m) &&
               (m !in targets || targets[m] != Collateral(s.db, m)) then 1 else 0
  {
    hide Collateral;
    if Collateral(s.db, m) != EscrowOf(s.chain.final, m) && (m !in targets || targets[m] != Collateral(s.db, m)) {
      assert Unattended(s, targets, visited + {m}) == Unattended(s, targets, visited) + {m};
    } else {
      assert Unattended(s, targets, visited + {m}) == Unattended(s, targets, visited);
    }
  }

  // One more market falls into exactly one of the three sorts.
  lemma CountedStep(s: Sys, targets: map<Market, int>, visited: set<Market>, r: EscrowReport, r': EscrowReport,
      m: Market)
    requires Counted(s, targets, visited, r) && m !in visited
    requires r' == Tally(r, Observe(s, targets, m)).(issued := r'.issued, drifts := r'.drifts)
    ensures Counted(s, targets, visited + {m}, r')
  {
    hide Collateral, InLine, Closing, Unattended;
    OneMoreInLine(s, visited, m);
    OneMoreClosing(s, targets, visited, m);
    OneMoreUnattended(s, targets, visited, m);
  }

  lemma NothingCounted(s: Sys, targets: map<Market, int>, r: EscrowReport)
    requires r.synced == r.explained == r.unexplained == 0
    ensures Counted(s, targets, {}, r)
  {
    hide Collateral;
    assert InLine(s, {}) == {} && Closing(s, targets, {}) == {} && Unattended(s, targets, {}) == {};
  }

  lemma Tallied(r: EscrowReport, r': EscrowReport, o: Observation)
    requires r' == Tally(r, o).(issued := r'.issued, drifts := r'.drifts)
    ensures r'.synced + r'.explained + r'.unexplained == r.synced + r.explained + r.unexplained + 1
    ensures r'.markets == r.markets
    ensures r'.totalLedger == Wrapped(r.totalLedger + o.want) && r'.totalChain == Wrapped(r.totalChain + o.got)
  {
  }

  ghost predicate IssuedSoFar(s: Sys, targets: map<Market, int>, issue: bool, live: set<Market>, rest: set<Market>,
      issued: seq<Market>)
  {
    IssuesFor(s, targets, if issue then live - rest else {}, issued)
  }

  // The rows, the lines and the totals of the markets visited so far.
  ghost predicate SoFar(s: Sys, targets: map<Market, int>, issue: bool, before: map<Market, Drift>, after: map<Market,
      Drift>,
                        live: set<Market>, rest: set<Market>, r: EscrowReport)
  {
    && Summed(s, live, rest, r) && Counted(s, targets, live - rest, r) &&
        Listed(s, targets, live - rest, after, r.drifts)
    && (issue ==> PassNoted(s, targets, before, after, live - rest))
  }

  lemma SoFarStep(s: Sys, targets: map<Market, int>, issue: bool, before: map<Market, Drift>, middle: map<Market,
      Drift>,
                  after: map<Market, Drift>, live: set<Market>, rest: set<Market>, r: EscrowReport, r': EscrowReport,
                      m: Market)
    requires SoFar(s, targets, issue, before, middle, live, rest, r) && m in rest && rest <= live
    requires r' == Tally(r, Observe(s, targets, m)).(issued := r'.issued, drifts := r'.drifts)
    requires RowOf(after, m) == if issue then DriftAfter(RowOf(middle, m), Observe(s, targets, m)) else RowOf(middle, m)
    requires forall x | x != m :: RowOf(after, x) == RowOf(middle, x)
    requires forall x :: LineIn(r'.drifts, x) == if x == m && LineOf(s, targets, m, RowOf(after, m)).Some?
                                                 then LineOf(s, targets, m, RowOf(after, m)) else LineIn(r.drifts, x)
    ensures SoFar(s, targets, issue, before, after, live, rest - {m}, r')
  {
    hide Summed, Counted, Listed, PassNoted, LineOf, LineIn, RowOf, DriftAfter, Observe, Tally;
    SummedStep(s, live, rest, r, r', targets, m);
    CountedStep(s, targets, live - rest, r, r', m);
    ListedStep(s, targets, live - rest, middle, after, r.drifts, r'.drifts, m);
    assert live - (rest - {m}) == live - rest + {m};
    if issue {
      PassExtends(s, targets, before, middle, after, live - rest, m);
    }
  }

  lemma EverythingVisited(s: Sys, targets: map<Market, int>, issue: bool, before: map<Market, Drift>,
      after: map<Market, Drift>,
                          live: set<Market>, r: EscrowReport, issued: seq<Market>)
    requires Inv(s) && SoFar(s, targets, issue, before, after, live, {}, r)
    requires IssuedSoFar(s, targets, issue, live, {}, issued)
    ensures IssuesFor(s, targets, if issue then live else {}, issued)
    ensures Listed(s, targets, live, after, r.drifts) && (issue ==> PassNoted(s, targets, before, after, live))
    ensures r.totalLedger == Wrapped(Sum(Collaterals(s.db, live)))
    ensures r.totalChain == Wrapped(Sum(Only(s.chain.final.escrow, live)))
    ensures r.synced + r.explained + r.unexplained == r.markets == |live| && Counted(s, targets, live, r)
    ensures FinalCustody(s) <= MAX_INT64 ==> r.totalChain <= s.chain.final.balance
  {
    hide Inv, Listed, PassNoted, Collateral, FinalCustody, Counted;
    assert live - {} == live;
    assert Collaterals(s.db, {}) == map[];
    assert Only(s.chain.final.escrow, {}) == map[];
    EscrowWithinCustody(s, live);
  }

  // A market's place in the report.
  function Tally(r: EscrowReport, o: Observation): (r': EscrowReport)
    ensures r'.synced + r'.explained + r'.unexplained == r.synced + r.explained + r.unexplained + 1
    ensures r'.markets == r.markets && r'.issued == r.issued && r'.drifts == r.drifts
    ensures r'.totalLedger == Wrapped(r.totalLedger + o.want) && r'.totalChain == Wrapped(r.totalChain + o.got)
  {
    var sums := r.(totalLedger := Wrapped(r.totalLedger + o.want), totalChain := Wrapped(r.totalChain + o.got));
    if o.want == o.got then sums.(synced := r.synced + 1)
    else if o.covered then sums.(explained := r.explained + 1)
    else sums.(unexplained := r.unexplained + 1)
  }

  lemma SameObservation(s: Sys, s': Sys, targets: map<Market, int>, m: Market)
    requires s'.chain == s.chain && s'.db.positions == s.db.positions
    ensures Observe(s', targets, m) == Observe(s, targets, m)
    ensures Observe(s, targets, m).want == Collateral(s.db, m) == Collateral(s'.db, m)
    ensures Observe(s, targets, m).got == EscrowOf(s.chain.final, m)
  {
  }

  // Every intent id in the tables is below `next`.
  ghost predicate AllBelow(db: Db, next: nat)
  {
    forall n | n in db.intents :: n.IntentId? && n.id < next
  }

  // The drift rows of the markets visited so far; the others are as they were.
  ghost predicate PassNoted(s: Sys, targets: map<Market, int>, before: map<Market, Drift>, after: map<Market, Drift>,
      visited: set<Market>)
  {
    forall m :: RowOf(after, m) == RowAfterPass(s, targets, before, m, m in visited)
  }

  ghost function RowAfterPass(s: Sys, targets: map<Market, int>, before: map<Market, Drift>, m: Market,
      visited: bool): Option<Drift>
  {
    if visited then DriftAfter(RowOf(before, m), Observe(s, targets, m)) else RowOf(before, m)
  }

  lemma NothingVisited(s: Sys, targets: map<Market, int>, before: map<Market, Drift>, live: set<Market>,
      r: EscrowReport, first: nat)
    requires r == EscrowReport(|live|, 0, 0, 0, 0, 0, 0, map[])
    ensures forall issue: bool :: SoFar(s, targets, issue, before, before, live, live, r)
    ensures forall issue: bool :: IssuedSoFar(s, targets, issue, live, live, [])
    ensures Instructed(s, s.db, [], first)
  {
    assert live - live == {};
    NothingCounted(s, targets, r);
  }

  lemma ListedStep(s: Sys, targets: map<Market, int>, visited: set<Market>, before: map<Market, Drift>,
      after: map<Market, Drift>,
                   drifts: map<Market, DriftLine>, drifts': map<Market, DriftLine>, m: Market)
    requires Listed(s, targets, visited, before, drifts) && m !in visited
    requires forall x | x != m :: RowOf(after, x) == RowOf(before, x)
    requires forall x :: LineIn(drifts', x) == if x == m && LineOf(s, targets, m, RowOf(after, m)).Some?
                                               then LineOf(s, targets, m, RowOf(after, m)) else LineIn(drifts, x)
    ensures Listed(s, targets, visited + {m}, after, drifts')
  {
    hide LineOf, LineIn, RowOf;
    forall x ensures LineIn(drifts', x) == if x in visited + {m} then LineOf(s, targets, x, RowOf(after, x)) else None {
      assert LineIn(drifts, x) == if x in visited then LineOf(s, targets, x, RowOf(before, x)) else None;
    }
  }

  lemma SamePositions(s: Sys, db: Db, issued: seq<Market>, first: nat)
    requires Instructed(s, db, issued, first)
    ensures db.positions == s.db.positions && db.markets == s.db.markets
  {
  }

  // An instruction for a market that has none in flight is added under the next id.
  lemma InstructedOneMore(s: Sys, targets: map<Market, int>, db: Db, issued: seq<Market>, first: nat, m: Market,
      want: int64)
    requires Instructed(s, db, issued, first) && TargetsInFlight(s.db, targets) && m !in targets && m !in issued
    requires want == Collateral(s.db, m) && AllBelow(db, first + |issued|) && forall n | n in db.outbox ::
        n in db.intents
    requires -TWO_TO_THE_63 <= s.chain.head + ESCROW_EXPIRY_BLOCKS < TWO_TO_THE_63
    ensures Instructed(s, RequestEscrowSet(db, IntentId(first + |issued|), m, want,
        s.chain.head + ESCROW_EXPIRY_BLOCKS), issued + [m], first)
  {
    hide Collateral, Instructed, TargetsInFlight, EscrowInFlight, RequestEscrowSet, AllBelow;
    var id := IntentId(first + |issued|);
    assert id !in db.intents && id !in db.outbox by {
      BelowIsFresh(db, first + |issued|);
    }
    NoneWorks(s, targets, db, issued, first, m);
    RequestRows(db, id, m, want, s.chain.head + ESCROW_EXPIRY_BLOCKS);
    OneMoreRow(s, db, RequestEscrowSet(db, id, m, want, s.chain.head + ESCROW_EXPIRY_BLOCKS), issued, first, m);
  }

  lemma BelowIsFresh(db: Db, next: nat)
    requires AllBelow(db, next) && forall n | n in db.outbox :: n in db.intents
    ensures IntentId(next) !in db.intents && IntentId(next) !in db.outbox
  {
  }

  // No instruction is in flight for a market that had none and got none.
  lemma NoneWorks(s: Sys, targets: map<Market, int>, db: Db, issued: seq<Market>, first: nat, m: Market)
    requires Instructed(s, db, issued, first) && TargetsInFlight(s.db, targets) && m !in targets && m !in issued
    ensures !EscrowInFlight(db, m)
  {
    hide Collateral;
    assert !EscrowInFlight(s.db, m);
    forall n | n in db.intents ensures !IsTarget(db.intents[n], m) {
      if n !in s.db.intents {
        assert IsInstruction(s, db, IntentId(first + (n.id - first)), issued[n.id - first]);
      }
    }
  }

  lemma OneMoreRow(s: Sys, db: Db, db': Db, issued: seq<Market>, first: nat, m: Market)
    requires Instructed(s, db, issued, first)
    requires var id := IntentId(first + |issued|);
      && id !in db.intents && id !in db.outbox && db' == db.(intents := db'.intents, outbox := db'.outbox)
      && id in db'.intents && db'.intents == db.intents[id := db'.intents[id]]
      && id in db'.outbox && db'.outbox == db.outbox[id := db'.outbox[id]] && IsInstruction(s, db', id, m)
    ensures Instructed(s, db', issued + [m], first)
  {
    hide Collateral;
    forall i | 0 <= i < |issued + [m]| ensures IsInstruction(s, db', IntentId(first + i), (issued + [m])[i]) {
      if i < |issued| {
        assert IsInstruction(s, db, IntentId(first + i), issued[i]);
      }
    }
  }

  // What a request adds to the tables.
  lemma RequestRows(db: Db, id: Nonce, m: Market, want: int64, expiry: int64)
    requires !EscrowInFlight(db, m)
    ensures var db' := RequestEscrowSet(db, id, m, want, expiry);
      && db' == db.(intents := db'.intents, outbox := db.outbox[id := Tx(id, EscrowSet, "", 0, m, want, 0, expiry)])
      && id in db'.intents && db'.intents == db.intents[id := db'.intents[id]]
      && var i := db'.intents[id];
        i.kind == EscrowSet && i.market == m && i.amount == want && i.state == StateReserved && i.expiry == expiry
  {
    hide EscrowInFlight;
  }

  lemma OutboxWithin(s: Sys)
    requires Inv(s)
    ensures forall n | n in s.db.outbox :: n in s.db.intents
  {
  }

  lemma IssuesOneMore(s: Sys, targets: map<Market, int>, visited: set<Market>, issued: seq<Market>, m: Market)
    requires IssuesFor(s, targets, visited, issued) && m !in visited
    ensures m !in issued
    ensures IssuesFor(s, targets, visited + {m}, if ShouldIssue(s, targets, m) then issued + [m] else issued)
  {
    hide ShouldIssue;
  }

  lemma PassExtends(s: Sys, targets: map<Market, int>, before: map<Market, Drift>, middle: map<Market, Drift>,
                    after: map<Market, Drift>, visited: set<Market>, m: Market)
    requires PassNoted(s, targets, before, middle, visited) && m !in visited
    requires RowOf(after, m) == DriftAfter(RowOf(middle, m), Observe(s, targets, m))
    requires forall x | x != m :: RowOf(after, x) == RowOf(middle, x)
    ensures PassNoted(s, targets, before, after, visited + {m})
  {
    forall x ensures RowOf(after, x) == RowAfterPass(s, targets, before, x, x in visited + {m}) {
      assert RowOf(middle, x) == RowAfterPass(s, targets, before, x, x in visited);
    }
  }

  /* ----- pass after pass ----- */

  // An issuing pass: the state it began in and the levels then in flight.
  datatype Pass = Pass(s: Sys, targets: map<Market, int>)

  // The drift table from its creation on, through any number of issuing passes. Between two passes
  // the system does what it likes.
  ghost predicate PassesNoted(passes: seq<Pass>, tables: seq<map<Market, Drift>>)
  {
    && |tables| == |passes| + 1 && tables[0] == map[]
    && forall i | 0 <= i < |passes| ::
        PassNoted(passes[i].s, passes[i].targets, tables[i], tables[i + 1], LiveMarkets(passes[i].s.db))
  }

  // What the passes that processed a market saw of it.
  ghost function Seen(passes: seq<Pass>, market: Market): seq<Observation>
  {
    if passes == [] then []
    else
      var last := passes[|passes| - 1];
      Seen(passes[..|passes| - 1], market) +
      if market in LiveMarkets(last.s.db) then [Observe(last.s, last.targets, market)] else []
  }

  // The row that the passes leave behind is the fold of what they saw.
  lemma {:induction false} RowsAreFolds(passes: seq<Pass>, tables: seq<map<Market, Drift>>, market: Market)
    requires PassesNoted(passes, tables)
    ensures RowOf(tables[|passes|], market) == DriftOver(Seen(passes, market))
    decreases |passes|
  {
    if passes != [] {
      var n := |passes| - 1;
      var last, before := passes[n], Seen(passes[..n], market);
      forall i | 0 <= i < n
        ensures PassNoted(passes[..n][i].s, passes[..n][i].targets, tables[..n + 1][i], tables[..n + 1][i + 1],
            LiveMarkets(passes[..n][i].s.db))
      {
        assert passes[..n][i] == passes[i];
      }
      RowsAreFolds(passes[..n], tables[..n + 1], market);
      assert PassNoted(last.s, last.targets, tables[n], tables[n + 1], LiveMarkets(last.s.db));
      hide LiveMarkets, Observe, DriftAfter, PassNoted, PassesNoted;
      NotedRow(last.s, last.targets, tables[n], tables[n + 1], LiveMarkets(last.s.db), market);
      FoldOneMore(before, Observe(last.s, last.targets, market));
      assert before + [] == before;
    }
  }

  lemma NotedRow(s: Sys, targets: map<Market, int>, before: map<Market, Drift>, after: map<Market, Drift>,
      visited: set<Market>, m: Market)
    requires PassNoted(s, targets, before, after, visited)
    ensures RowOf(after, m) == if m in visited then DriftAfter(RowOf(before, m), Observe(s, targets, m))
        else RowOf(before, m)
  {
    hide DriftAfter, Observe, RowOf;
    assert RowOf(after, m) == RowAfterPass(s, targets, before, m, m in visited);
  }

  lemma FoldOneMore(passes: seq<Observation>, o: Observation)
    ensures DriftOver(passes + [o]) == DriftAfter(DriftOver(passes), o)
  {
    assert (passes + [o])[..|passes|] == passes;
  }

  // The alarm of the worker: a market is reported stuck only if the last eight passes that
  // processed it all saw the same gap with nobody working on it, and it is reported after nine.
  lemma StuckMeansStuck(passes: seq<Pass>, tables: seq<map<Market, Drift>>, market: Market, want: int, got: int)
    requires PassesNoted(passes, tables)
    ensures var row, seen := RowOf(tables[|passes|], market), Seen(passes, market);
      && (Stuck(row) ==> StoodStill(seen, 8, row.value.want, row.value.got))
      && (StoodStill(seen, 9, want, got) ==> Stuck(row))
  {
    hide PassesNoted, DriftOver, StoodStill, Seen;
    RowsAreFolds(passes, tables, market);
    AlarmIsExact(Seen(passes, market), want, got);
  }

  // The passes look at live markets only, so the row of a market that has been settled stays as it
  // was when the market was last seen: one that was stuck then is reported stuck for ever.
  lemma {:induction false} SettledRowStays(passes: seq<Pass>, tables: seq<map<Market, Drift>>, market: Market,
      since: nat)
    requires PassesNoted(passes, tables) && since <= |passes|
    requires forall i | since <= i < |passes| :: market !in LiveMarkets(passes[i].s.db)
    ensures RowOf(tables[|passes|], market) == RowOf(tables[since], market)
    decreases |passes| - since
  {
    if since < |passes| {
      var p := passes[since];
      assert PassNoted(p.s, p.targets, tables[since], tables[since + 1], LiveMarkets(p.s.db));
      hide LiveMarkets, PassNoted, PassesNoted;
      NotedRow(p.s, p.targets, tables[since], tables[since + 1], LiveMarkets(p.s.db), market);
      SettledRowStays(passes, tables, market, since + 1);
    }
  }

  // A market that is settled in one pass is settled in every later one of the same run.
  lemma SettledStaysUnseen(s: Sys, steps: seq<Step>, market: Market)
    requires Inv(s) && IsTrace(s, steps) && market in s.db.markets && market !in LiveMarkets(s.db)
    ensures market !in LiveMarkets(Final(s, steps).db)
  {
    hide Inv;
    MarketsNeverGoBack(s, steps);
  }

  lemma IssueKeeps(s: Sys, market: Market, want: int64, next: nat, expiry: int64)
    requires Inv(s) && market in LiveMarkets(s.db) && want == Collateral(s.db, market) && AllBelow(s.db, next)
    requires expiry == s.chain.head + ESCROW_EXPIRY_BLOCKS && market !in s.chain.final.settled
    ensures var db' := RequestEscrowSet(s.db, IntentId(next), market, want, expiry);
      Inv(s.(db := db')) && AllBelow(db', next + 1)
  {
    hide Inv;
    StepKeeps(s, RequestsEscrow(IntentId(next), market, want, expiry));
  }

  lemma CollateralInRange(s: Sys, market: Market)
    requires Inv(s)
    ensures Collateral(s.db, market) >= 0
  {
    CollateralNonNegative(s.db, market);
  }

  lemma SumsWithout(s: Sys, rest: set<Market>, m: Market)
    requires m in rest
    ensures Sum(Collaterals(s.db, rest)) == Collateral(s.db, m) + Sum(Collaterals(s.db, rest - {m}))
    ensures Sum(Only(s.chain.final.escrow, rest)) == EscrowOf(s.chain.final, m) +
        Sum(Only(s.chain.final.escrow, rest - {m}))
  {
    hide Sum, Collateral;
    SumRemove(Collaterals(s.db, rest), m);
    assert Collaterals(s.db, rest) - {m} == Collaterals(s.db, rest - {m});
    var escrow := s.chain.final.escrow;
    if m in escrow {
      SumRemove(Only(escrow, rest), m);
      assert Only(escrow, rest) - {m} == Only(escrow, rest - {m});
    } else {
      assert Only(escrow, rest) == Only(escrow, rest - {m});
    }
  }
}
