/** The differential test end to end: the finalised history of a run of the system is written to a
    file, and the tool reads the file and replays what it read. */
module ExportedFile {
  import opened Integers
  import opened Ledger
  import opened ChainModel
  import opened ChainInvariants
  import opened Differential
  import opened System
  import opened SystemInvariants
  import opened SystemReplay
  import opened TraceText
  import Go = GoVault

  // The user or market a transaction names is one word.
  predicate WellNamed(tx: Go.Tx)
  {
    && (tx.kind == Go.Deposit || tx.kind == Go.Withdraw ==> Word(tx.user))
    && (tx.kind == Go.EscrowSet || tx.kind == Go.SettleMarket ==> Word(tx.market))
  }

  ghost predicate AllWellNamed(calls: seq<Go.Call>)
  {
    forall i | 0 <= i < |calls| :: WellNamed(calls[i].tx)
  }

  // The tool on a text: nothing when it gives up on a line, and otherwise the end of the replay.
  ghost function Replayed(text: string): Option<Progress>
  {
    match ReadFile(text)
    case None => None
    case Some(lines) => Some(PlayAll(lines))
  }

  /* ----- the lines of the file ----- */

  lemma WrittenCall(c: Go.Call)
    requires 0 <= c.height < TWO_TO_THE_63
    ensures forall line | line in WriteTrace(c) :: NumbersFit(line)
    ensures c.tx.kind != Go.Unknown ==> (NamesFit(WriteTrace(c)) <==> WellNamed(c.tx))
  {
    hide Word;
    var lines := WriteTrace(c);
    if c.tx.kind != Go.Unknown {
      assert lines == [lines[0]];
      assert NameFits(lines[0]) <==> WellNamed(c.tx);
      assert NamesFit(lines) <==> NameFits(lines[0]);
    }
  }

  lemma NamesOfBoth(a: seq<Line>, b: seq<Line>)
    ensures NamesFit(a + b) <==> NamesFit(a) && NamesFit(b)
  {
    hide NameFits;
    if NamesFit(a + b) {
      forall k | 0 <= k < |a| ensures NameFits(a[k]) {
        assert (a + b)[k] == a[k];
      }
      forall k | 0 <= k < |b| ensures NameFits(b[k]) {
        assert (a + b)[|a| + k] == b[k];
      }
    }
  }

  lemma {:induction false} WrittenCalls(calls: seq<Go.Call>, top: int)
    requires Ascending(calls, top) && top < TWO_TO_THE_63
    requires forall i | 0 <= i < |calls| :: Issued(calls[i].tx)
    ensures forall line | line in Trace(calls) :: NumbersFit(line)
    ensures NamesFit(Trace(calls)) <==> AllWellNamed(calls)
    decreases |calls|
  {
    hide WriteTrace, WellNamed, NumbersFit, NamesFit;
    if calls == [] {
      NoNames();
    } else {
      var last := |calls| - 1;
      WrittenCalls(calls[..last], top);
      WrittenCall(calls[last]);
      NamesOfBoth(Trace(calls[..last]), WriteTrace(calls[last]));
    }
  }

  lemma NoNames()
    ensures NamesFit([])
  {
  }

  /* ----- the expectations at its end ----- */

  // Whatever has escrow was named by a call that set it, to a number of 64 bits.
  lemma {:induction false} EscrowWasSet(calls: seq<Go.Call>, market: Go.Market)
    requires Go.Accepted(Go.EMPTY, calls) && market in Go.Run(Go.EMPTY, calls).escrow
    ensures exists i :: 0 <= i < |calls| && calls[i].tx.kind == Go.EscrowSet && calls[i].tx.market == market
    ensures FitsInt64(Go.Run(Go.EMPTY, calls).escrow[market])
    decreases |calls|
  {
    var last := |calls| - 1;
    var before := calls[..last];
    assert calls == before + [calls[last]];
    Go.RunSnoc(Go.EMPTY, before, calls[last]);
    EscrowSetBy(Go.Run(Go.EMPTY, before), calls[last], market);
    if !(calls[last].tx.kind == Go.EscrowSet && calls[last].tx.market == market) {
      EscrowWasSet(before, market);
      var i :| 0 <= i < |before| && before[i].tx.kind == Go.EscrowSet && before[i].tx.market == market;
      assert calls[i] == before[i];
    }
  }

  lemma EscrowSetBy(v: Go.Vault, c: Go.Call, market: Go.Market)
    requires market in Go.Apply(v, c.tx, c.height).vault.escrow
    ensures var e := Go.Apply(v, c.tx, c.height).vault.escrow[market];
      (market in v.escrow && e == v.escrow[market])
      || (c.tx.kind == Go.EscrowSet && c.tx.market == market && e == c.tx.target)
  {
  }

  lemma EscrowIsNamed(calls: seq<Go.Call>, market: Go.Market)
    requires Go.Accepted(Go.EMPTY, calls) && market in Go.Run(Go.EMPTY, calls).escrow
    ensures FitsInt64(Go.Run(Go.EMPTY, calls).escrow[market]) && (AllWellNamed(calls) ==> Word(market))
  {
    EscrowWasSet(calls, market);
    hide Go.Run, Go.Accepted, Word;
  }

  lemma ExpectationsAreWritten(calls: seq<Go.Call>, markets: seq<string>)
    requires Go.Accepted(Go.EMPTY, calls)
    requires forall m | m in markets :: m in Go.Run(Go.EMPTY, calls).escrow
    ensures var e := Expectations(Go.Run(Go.EMPTY, calls), markets);
      (forall line | line in e :: NumbersFit(line)) && (AllWellNamed(calls) ==> NamesFit(e))
  {
    hide Go.Run, Go.Accepted, AllWellNamed;
    var v := Go.Run(Go.EMPTY, calls);
    forall m | m in markets ensures FitsInt64(v.escrow[m]) && (AllWellNamed(calls) ==> Word(m)) {
      EscrowIsNamed(calls, m);
    }
    ExpectationsOf(v, markets);
  }

  lemma ExpectationsOf(v: Go.Vault, markets: seq<string>)
    requires forall m | m in markets :: m in v.escrow && FitsInt64(v.escrow[m])
    ensures forall line | line in Expectations(v, markets) :: NumbersFit(line)
    ensures (forall m | m in markets :: Word(m)) ==> NamesFit(Expectations(v, markets))
  {
    hide Word, Unbroken;
    WordsAreUnbroken();
    var e := Expectations(v, markets);
    forall k | 0 <= k < |e| ensures NumbersFit(e[k]) && ((forall m | m in markets :: Word(m)) ==> NameFits(e[k])) {
      if k >= 2 {
        assert e[k] == ExpectEscrow(markets[k - 2], v.escrow[markets[k - 2]]);
      }
    }
  }

  // The exported lines can be printed, and read back if and only if the calls are well named.
  lemma ExportReads(calls: seq<Go.Call>, top: int, markets: seq<string>, comment: string)
    requires Go.Accepted(Go.EMPTY, calls) && Ascending(calls, top) && top < TWO_TO_THE_63
    requires forall i | 0 <= i < |calls| :: Issued(calls[i].tx)
    requires forall m | m in markets :: m in Go.Run(Go.EMPTY, calls).escrow
    requires comment != "" && comment[0] == '#' && OneRow(comment)
    ensures var lines := Trace(calls) + Expectations(Go.Run(Go.EMPTY, calls), markets);
      ReadFile(FileOf(comment, lines)) == Some(lines) <==> AllWellNamed(calls)
  {
    hide Trace, Expectations, Go.Run, Go.Accepted, Ascending, AllWellNamed, NumbersFit, NamesFit, OneRow, ReadFile,
         FileOf;
    var a, b := Trace(calls), Expectations(Go.Run(Go.EMPTY, calls), markets);
    WrittenCalls(calls, top);
    ExpectationsAreWritten(calls, markets);
    NamesOfBoth(a, b);
    FileRoundTrip(comment, a + b);
  }

  /* ----- every run ----- */

  // For every run of the whole system, the exported file reads back as it was written exactly when
  // every user and market of the finalised history is one word; and then its replay refuses nothing,
  // ends in the same storage, and agrees if and only if custody fits 64 bits.
  lemma ExportedFileReplays(confirms: int, steps: seq<Step>, markets: seq<string>, comment: string)
    requires IsTrace(Start(confirms), steps)
    requires Final(Start(confirms), steps).chain.head < TWO_TO_THE_63
    requires forall m | m in markets :: m in Final(Start(confirms), steps).chain.final.escrow
    requires comment != "" && comment[0] == '#' && OneRow(comment)
    ensures var c := Final(Start(confirms), steps).chain;
      var calls := AllCalls(c.history);
      var lines := Trace(calls) + Expectations(c.final, markets);
      var text := FileOf(comment, lines);
      && (ReadFile(text) == Some(lines) <==> AllWellNamed(calls))
      && (AllWellNamed(calls) ==>
            && Replayed(text).Some? && Replayed(text).value.refused == 0 && Same(c.final, Replayed(text).value.vault)
            && Verdict(Replayed(text).value) == if Go.TrueCustody(calls) <= MAX_INT64 then Agree else Mismatch)
  {
    var s := Final(Start(confirms), steps);
    hide Start, Next, IsTrace, Final, Inv, Expectations, Trace, Go.Run, Go.TrueCustody, AllWellNamed, Same, PlayAll,
         Verdict, ReadFile, FileOf, OneRow, ChainInv;
    HistoryReads(confirms, steps);
    ExportReads(AllCalls(s.chain.history), |s.chain.history|, markets, comment);
    EveryRunReplays(confirms, steps, markets);
  }
}
