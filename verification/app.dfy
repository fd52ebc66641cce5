/** The workers and the reconciler, as the loops the engine runs over the store and the chain.
    Each committed transaction and each chain call inside a loop is one step of module System, so
    stopping between two of them, as a crash does, leaves a state of that machine. */
module Engine {
  import opened Integers
  import opened Sums
  import opened GoVault
  import opened ChainModel
  import opened ChainInvariants
  import opened Accounts
  import opened Ledger
  import opened Store
  import opened StoreInvariants
  import opened System
  import opened SystemInvariants
  import opened Residue
  import opened SystemRefunds
  import opened Inbox
  import opened Requests
  import Postgres
  import Sim

  class App {
    const store: Postgres.Database
    const chain: Sim.Simulator

    // The event copies that the stream has handed out so far.
    ghost var polled: set<Event>

    ghost function View(): Sys
      reads this, store, store.ledger, chain, chain.final
    {
      Sys(chain.View(), store.View(), polled)
    }

    constructor (store: Postgres.Database, chain: Sim.Simulator)
      ensures this.store == store && this.chain == chain && polled == {}
    {
      this.store, this.chain, polled := store, chain, {};
    }

    /* ----- users and the outbox ----- */

    // Stamps the withdrawal with an expiry height that the contract itself enforces.
    method RequestWithdraw(id: Nonce, user: User, amount: int64, request: string) returns (answer: Answer)
      requires Inv(View()) && FreshIntent(View(), id) && 0 <= chain.head < 0x4000_0000_0000_0000
      modifies store`intents, store`requests, store`outbox, store.ledger
      ensures Inv(View())
      ensures (store.View(), answer) ==
              Store.RequestWithdraw(old(store.View()), id, user, amount, request, chain.head + WITHDRAW_EXPIRY_BLOCKS)
    {
      hide Inv, Store.RequestWithdraw;
      StepKeeps(View(), RequestsWithdraw(id, user, amount, request, chain.head + WITHDRAW_EXPIRY_BLOCKS));
      answer := store.RequestWithdraw(id, user, amount, request, chain.head + WITHDRAW_EXPIRY_BLOCKS);
    }

    // Hands the payloads of the due jobs to the chain, in order. A failed submit is not a failure:
    // the intent is marked submitted either way, and the resolver finds out the truth.
    method OutboxTick(jobs: seq<Nonce>, fates: map<Nonce, Fate>)
      requires chain.Valid() && Inv(View()) && forall n | n in jobs :: n in store.outbox
      modifies store`intents, chain
      ensures chain.Valid() && chain.final == old(chain.final) && Inv(View())
      ensures store.intents == Marked(old(store.intents), jobs)
      ensures chain.View() == SubmitAll(old(chain.View()), store.outbox, jobs, fates)
      ensures AllDelivered(old(chain.View()), chain.View(), store.outbox, jobs, fates)
    {
      hide Inv, Marked, SubmitAll, SubmitTx;
      NothingMarked(store.intents);
      assert jobs[..0] == [];
      NothingSubmitted(chain.View(), store.outbox, fates);
      for i := 0 to |jobs|
        invariant chain.Valid() && chain.final == old(chain.final) && Inv(View())
        invariant store.intents == Marked(old(store.intents), jobs[..i])
        invariant chain.View() == SubmitAll(old(chain.View()), store.outbox, jobs[..i], fates)
      {
        var n := jobs[i];
        assert jobs[..i + 1] == jobs[..i] + [n];
        MarkedOneMore(old(store.intents), jobs[..i], n);
        SubmittedOneMore(old(chain.View()), store.outbox, jobs[..i], n, fates);
        SubmitJob(n, FateOf(fates, n));
      }
      assert jobs[..|jobs|] == jobs;
      AllSubmitted(old(chain.View()), store.outbox, jobs, fates);
    }

    method SubmitJob(n: Nonce, fate: Fate)
      requires chain.Valid() && Inv(View()) && n in store.outbox
      modifies store`intents, chain
      ensures chain.Valid() && chain.final == old(chain.final) && Inv(View())
      ensures chain.View() == SubmitTx(old(chain.View()), store.outbox[n], fate).0
      ensures store.intents == MarkedRow(old(store.intents), n)
    {
      hide Inv, HeadState;
      SubmitsKeeps(View(), n, fate);
      var reply := chain.Submit(store.outbox[n], fate);
      MarkKeeps(View(), n);
      store.MarkSubmitted(n);
    }

    /* ----- provisional credits ----- */

    // The truthful test of one credit, and whether its block is final.
    method AskChain(e: EventId, height: int) returns (live: bool, final: bool)
      ensures live <==> LiveFact(chain.View(), e, height)
      ensures live ==> (final <==> FinalEvent(chain.View(), e))
    {
      var status := chain.TxStatus(e.fact);
      var hash, known := chain.CanonicalHash(height);
      live := status.processed && status.hash == e.hash && known && hash == e.hash;
      final := status.finalized;
    }

    // Compensates every standing credit of an orphaned block, or stops at one that is refused.
    method RevertBlock(hash: Hash) returns (ok: bool)
      requires Inv(View()) && !HashLive(Canon(chain.View()), hash)
      modifies store`events, store`facts, store`frozen, store.ledger
      ensures Inv(View()) && CreditsOnly(old(store.View()), store.View())
      ensures store.facts.Keys == old(store.facts).Keys
      ensures if ok then forall e | e in store.facts && e.hash == hash :: store.facts[e].reverted
          else CompensationRefused(View())
      ensures forall e | e in store.facts && e.hash != hash :: store.facts[e] == old(store.facts)[e]
    {
      hide Inv, RevertFact, HashLive, Canon, CreditsOnly, Clearing, CompensationRefused;
      var items := set e | e in store.facts && e.hash == hash && !store.facts[e].reverted;
      ClearingStarts(store.View(), hash, items);
      while items != {}
        invariant Inv(View()) && CreditsOnly(old(store.View()), store.View()) &&
            Clearing(old(store.View()), store.View(), hash, items)
        decreases |items|
      {
        var e :| e in items;
        ghost var before := View();
        ClearingItem(old(store.View()), before.db, hash, items, e);
        var answer := store.RevertFact(e);
        RevertsKeeps(before, e);
        RevertIsCredit(before, e);
        if answer != Done {
          RefusedHere(before, e);
          ClearingStops(old(store.View()), before.db, hash, items);
          return false;
        }
        ClearingGoesOn(old(store.View()), before.db, store.View(), hash, items, e);
        items := items - {e};
      }
      ClearingEnds(old(store.View()), store.View(), hash);
      return true;
    }

    // Re-asks the chain about every provisional credit: a live and final one is promoted, an
    // orphaned one is compensated together with its whole block. Afterwards no provisional credit
    // is left whose block is not canonical, and no final one is still provisional; unless a
    // compensation was refused, which ends the pass.
    method SettleFacts() returns (ok: bool)
      requires Inv(View())
      modifies store`events, store`facts, store`frozen, store.ledger
      ensures Inv(View()) && CreditsOnly(old(store.View()), store.View())
      ensures if ok then FactsSettled(View()) else CompensationRefused(View())
      ensures ok ==> forall e | e in store.facts && Provisional(store.facts[e]) :: !FinalEvent(chain.View(), e)
    {
      hide Inv, HashLive, LiveFact, FinalEvent, Canon, CreditsOnly, Sifted, FactsSettled, CompensationRefused;
      var rest := set e | e in store.facts && !store.facts[e].finalized && !store.facts[e].reverted;
      var orphaned: set<Hash> := {};
      SiftStarts(View(), rest);
      while rest != {}
        invariant Inv(View()) && CreditsOnly(old(store.View()), store.View()) && Sifted(View(), rest, orphaned)
        decreases |rest|
      {
        var e :| e in rest;
        ghost var before := View();
        SiftItem(before, rest, orphaned, e);
        var live := SettleOne(e);
        SettledCredit(before.db, store.View(), e);
        CreditsChain(old(store.View()), before.db, store.View());
        SiftGoesOn(before, View(), rest, orphaned, e, live);
        if !live {
          orphaned := orphaned + {e.hash};
        }
        rest := rest - {e};
      }
      ghost var middle := View();
      SiftedHashes(middle, orphaned);
      ok := CompensateBlocks(orphaned);
      CreditsChain(old(store.View()), middle.db, store.View());
      if ok {
        SiftEnds(middle, View(), orphaned);
      }
    }

    // One provisional credit: promoted when it is live and final.
    method SettleOne(e: EventId) returns (live: bool)
      requires Inv(View()) && e in store.facts && Provisional(store.facts[e])
      modifies store`facts
      ensures Inv(View()) && (!live ==> !HashLive(Canon(chain.View()), e.hash))
      ensures live ==> LiveFact(chain.View(), e, old(store.facts)[e].height)
      ensures store.facts == old(store.facts)[e :=
          old(store.facts)[e].(finalized := live && FinalEvent(chain.View(), e))]
    {
      hide Inv, HashLive, LiveFact, FinalEvent, Canon;
      ghost var before := View();
      LiveFactIsExact(before, e);
      var final;
      live, final := AskChain(e, store.facts[e].height);
      if live && final {
        PromotesKeeps(before, e);
        store.MarkFactFinalized(e);
      }
      assert old(store.facts) == old(store.facts)[e := old(store.facts)[e]];
    }

    method CompensateBlocks(hashes: set<Hash>) returns (ok: bool)
      requires Inv(View()) && forall h | h in hashes :: !HashLive(Canon(chain.View()), h)
      modifies store`events, store`facts, store`frozen, store.ledger
      ensures Inv(View()) && CreditsOnly(old(store.View()), store.View())
      ensures store.facts.Keys == old(store.facts).Keys
      ensures if !ok then CompensationRefused(View())
              else forall e | e in store.facts ::
                     if e.hash in hashes then store.facts[e].reverted else store.facts[e] == old(store.facts)[e]
    {
      hide Inv, HashLive, Canon, CreditsOnly, CompensationRefused;
      var orphaned := hashes;
      NoCreditChanged(store.View());
      while orphaned != {}
        invariant Inv(View()) && CreditsOnly(old(store.View()), store.View()) && orphaned <= hashes
        invariant store.facts.Keys == old(store.facts).Keys
        invariant forall e | e in store.facts ::
            if e.hash in hashes - orphaned then store.facts[e].reverted else store.facts[e] == old(store.facts)[e]
        decreases |orphaned|
      {
        var hash :| hash in orphaned;
        ghost var before := store.View();
        ok := RevertBlock(hash);
        CreditsChain(old(store.View()), before, store.View());
        if !ok {
          return;
        }
        orphaned := orphaned - {hash};
      }
      return true;
    }

    // Looks for confirmed intents whose block is no longer canonical: there are none.
    method ReorgCheck() returns (orphans: set<Nonce>)
      requires Inv(View())
      ensures orphans == {}
    {
      hide Inv;
      orphans := {};
      var rest := set n | n in store.intents && store.intents[n].state == StateConfirmed;
      while rest != {}
        invariant orphans == {} && forall n | n in rest ::
            n in store.intents && store.intents[n].state == StateConfirmed
        decreases |rest|
      {
        var n :| n in rest;
        rest := rest - {n};
        var hash, known := chain.CanonicalHash(store.intents[n].height);
        ConfirmedIsCanonical(View(), n);
        if !known || hash != store.intents[n].hash {
          orphans := orphans + {n};
        }
      }
    }

    /* ----- the inbox ----- */

    // Records the batch up to the first gap, then moves the cursor to the end of that run. Every
    // state in between is covered too, so a crash between two writes loses no event.
    method Ingest(batch: seq<Event>) returns (applied: nat)
      requires Inv(View()) && Covered(store.View())
      requires forall ev | ev in batch :: ev in polled
      modifies store`events, store`cursor
      ensures Inv(View()) && Covered(store.View())
      ensures EndOfRun(Numbers(batch), old(store.cursor), store.cursor)
      ensures store.events.Keys == old(store.events).Keys + Ids(batch, store.cursor)
      ensures store.View() == AdvanceCursor(RecordAll(old(store.View()), batch, store.cursor), store.cursor)
    {
      hide Inv, Covered, RecordAll;
      var cursor := store.cursor;
      var advanceTo := ContiguousEnd(batch, cursor);
      applied := RecordUpTo(batch, advanceTo);
      if advanceTo > cursor {
        ghost var before := View();
        RunRecorded(before.db, batch, cursor, advanceTo);
        AdvanceKeeps(before, advanceTo);
        store.AdvanceCursor(advanceTo);
      }
    }

    // Gap detection: sequence numbers are contiguous on the chain side, so a missing one means the
    // stream withheld an event.
    method ContiguousEnd(batch: seq<Event>, cursor: nat) returns (advanceTo: nat)
      ensures EndOfRun(Numbers(batch), cursor, advanceTo)
    {
      var seen: set<nat> := {};
      for i := 0 to |batch|
        invariant seen == Numbers(batch[..i])
      {
        assert batch[..i + 1] == batch[..i] + [batch[i]];
        seen := seen + {batch[i].number};
      }
      assert batch[..|batch|] == batch;
      advanceTo := cursor;
      ghost var left := seen;
      while advanceTo + 1 in seen
        invariant cursor <= advanceTo && (forall k | cursor < k <= advanceTo :: k in seen)
        invariant forall k | k in seen && k > advanceTo :: k in left
        decreases left
      {
        advanceTo := advanceTo + 1;
        left := left - {advanceTo};
      }
    }

    method RecordUpTo(batch: seq<Event>, advanceTo: nat) returns (applied: nat)
      requires Inv(View()) && Covered(store.View())
      requires forall ev | ev in batch :: ev in polled
      modifies store`events
      ensures Inv(View()) && Covered(store.View())
      ensures store.events.Keys == old(store.events).Keys + Ids(batch, advanceTo)
      ensures store.View() == RecordAll(old(store.View()), batch, advanceTo)
      ensures forall ev | ev in batch && ev.number <= advanceTo :: Recorded(store.View(), ev.number)
    {
      hide Inv, Covered, RecordAll, Ids, AllRecorded, RecordEvent;
      applied := 0;
      assert batch[..0] == [];
      NothingRecorded(store.View(), advanceTo);
      for i := 0 to |batch|
        invariant Inv(View()) && Covered(store.View())
        invariant store.View() == RecordAll(old(store.View()), batch[..i], advanceTo)
        invariant AllRecorded(old(store.View()), store.View(), batch[..i], advanceTo)
      {
        var ev := batch[i];
        assert batch[..i + 1] == batch[..i] + [ev] && ev in batch;
        ghost var before := View();
        CopyFrom(before, ev);
        RecordedOneMore(old(store.View()), before.db, batch[..i], ev, advanceTo);
        if ev.number <= advanceTo {
          RecordsKeeps(before, ev);
          RecordCovers(before, ev);
          AllRecordedOneMore(old(store.View()), before.db, batch[..i], ev, advanceTo);
          var isNew := store.RecordEvent(ev);
          if isNew {
            applied := applied + 1;
          }
        }
      }
      assert batch[..|batch|] == batch;
      AllRecordedMeans(old(store.View()), store.View(), batch, advanceTo);
    }

    // The earliest of these events.
    method Earliest(rest: set<EventId>) returns (first: EventId)
      requires rest != {} && rest <= store.events.Keys
      ensures first in rest && forall e | e in rest :: store.events[first].number <= store.events[e].number
    {
      first :| first in rest;
      var others := rest - {first};
      while others != {}
        invariant first in rest && others <= rest
        invariant forall e | e in rest && e !in others :: store.events[first].number <= store.events[e].number
        decreases |others|
      {
        var e :| e in others;
        others := others - {e};
        if store.events[e].number < store.events[first].number {
          first := e;
        }
      }
    }

    // The events still pending, by sequence number, at most `limit` of them.
    method PendingEvents(limit: nat) returns (items: seq<EventId>)
      ensures FirstReceived(store.View(), limit, items)
    {
      items := [];
      var rest := set e | e in store.events && store.events[e].status == Received;
      while rest != {} && |items| < limit
        invariant |items| <= limit && forall e :: e in rest || e in items <==> e in ReceivedEvents(store.View())
        invariant forall i | 0 <= i < |items| :: items[i] !in rest
        invariant forall i, e | 0 <= i < |items| && e in rest :: store.events[items[i]].number <= store.events[e].number
        invariant forall i, j | 0 <= i < j < |items| ::
            items[i] != items[j] && store.events[items[i]].number <= store.events[items[j]].number
        decreases |rest|
      {
        var e := Earliest(rest);
        rest := rest - {e};
        items := items + [e];
      }
    }

    // Credits the recorded deposits that are still pending, in the order of the chain and at most
    // `limit` events at a time, and sets every other kind of event aside: paying out is the
    // resolver's business. A credit that is refused stays pending.
    method ApplyPending(limit: nat) returns (items: seq<EventId>, refused: set<EventId>)
      requires Inv(View()) && Covered(store.View())
      modifies store`events, store`facts, store.ledger
      ensures Inv(View()) && Covered(store.View())
      ensures FirstReceived(old(store.View()), limit, items) &&
          PendingApplied(old(store.View()), store.View(), items, refused)
    {
      hide Inv, Covered, FirstReceived, PendingApplied;
      items := PendingEvents(limit);
      refused := {};
      assert items[..0] == [];
      NothingApplied(store.View());
      for i := 0 to |items|
        invariant Inv(View()) && Covered(store.View())
        invariant PendingApplied(old(store.View()), store.View(), items[..i], refused)
      {
        assert items[..i + 1] == items[..i] + [items[i]];
        PendingItem(old(store.View()), store.View(), limit, items, i, refused);
        ghost var before := View();
        var done := ApplyOne(items[i]);
        AppliedOneMore(old(store.View()), before, store.View(), items[..i], refused, items[i], done);
        if !done {
          refused := refused + {items[i]};
        }
      }
      assert items[..|items|] == items;
    }

    method ApplyOne(e: EventId) returns (done: bool)
      requires Inv(View()) && Covered(store.View()) && e in store.events
      modifies store`events, store`facts, store.ledger
      ensures Inv(View()) && Covered(store.View())
      ensures if done then ItemApplied(old(store.View()), store.View(), e)
              else store.View() == old(store.View()) && CreditRefused(store.View(), e)
    {
      hide Inv, Covered, CreditRefused;
      ghost var before := View();
      if store.events[e].kind == Deposit {
        AppliesKeeps(before, e);
        CreditAdds(before, e);
        var answer := store.ApplyDeposit(e);
        if answer != Done {
          return false;
        }
      } else {
        StepKeeps(before, Ignores(e));
        store.SetEventStatus(e, Ignored);
      }
      StatusCovers(before.db, store.View(), e);
      return true;
    }

    // One pass of the inbox worker; the flags and picks are the stream's faults. The provisional
    // credits are settled, then a batch is polled and recorded up to its first gap, then the events
    // pending by then are applied.
    method InboxTick(gaps: seq<bool>, doubles: seq<bool>, picks: seq<nat>)
      returns (ok: bool, batch: seq<Event>, items: seq<EventId>, refused: set<EventId>, ghost settled: Sys,
          ghost ingested: Db)
      requires chain.Valid() && Inv(View()) && Covered(store.View())
      modifies this`polled, store`events, store`facts, store`frozen, store`cursor, store.ledger
      ensures Inv(View()) && Covered(store.View())
      ensures settled.chain == chain.View() && CreditsOnly(old(store.View()), settled.db)
      ensures !ok ==> View() == settled && CompensationRefused(settled)
      ensures ok ==>
                && FactsSettled(settled)
                && multiset(batch) == multiset(Sim.Polled(chain.log, old(store.cursor), 64, gaps, doubles, |chain.log|))
                && EndOfRun(Numbers(batch), old(store.cursor), store.cursor)
                && ingested == AdvanceCursor(RecordAll(settled.db, batch, store.cursor), store.cursor)
                && FirstReceived(ingested, 128, items) && PendingApplied(ingested, store.View(), items, refused)
    {
      hide Inv, Covered, CreditsOnly, FactsSettled, RecordAll, FirstReceived, CompensationRefused;
      ghost var before := store.View();
      batch, items, refused := [], [], {};
      ok := SettleFacts();
      settled, ingested := View(), store.View();
      CreditsCover(before, store.View());
      CursorKept(before, store.View());
      if !ok {
        return;
      }
      var orphans := ReorgCheck();
      assert orphans == {};
      batch := chain.PollEvents(store.cursor, 64, gaps, doubles, picks);
      ghost var copies := set ev | ev in batch;
      PollsKeeps(View(), copies);
      polled := polled + copies;
      var applied := Ingest(batch);
      ingested := store.View();
      items, refused := ApplyPending(128);
    }

    /* ----- the reconciler ----- */

    // What the chain has finally paid for an intent.
    method FinalAmount(n: Nonce) returns (amount: int64)
      requires n in store.intents
      ensures amount == FinalisedAmount(View(), n)
    {
      amount := 0;
      if store.intents[n].kind == Withdraw {
        var st := chain.TxStatus(n);
        if st.finalized {
          amount := store.intents[n].amount;
        }
      }
    }

    // Finalised withdrawals among the intents in flight, as the 64-bit loop adds them up.
    method SumUnrecognised() returns (total: int64)
      ensures total == Wrapped(WithdrawnNotRecognised(View()))
    {
      hide Wrapped, Sum, FinalisedIn, FinalisedAmount, Remaining, SummedUp;
      total := 0;
      var rest := set n | n in store.intents && InFlight(store.intents[n]);
      ghost var s := View();
      ghost var all := FinalisedIn(s, InFlight);
      ghost var left := all;
      AllRemain(s, rest);
      NothingTaken(all);
      while rest != {}
        invariant forall n | n in rest :: n in store.intents && InFlight(store.intents[n])
        invariant Remaining(all, left, rest) && SummedUp(all, left, total)
        decreases |rest|
      {
        var n :| n in rest;
        FinalisedRow(s, n);
        var amount := FinalAmount(n);
        TakeOne(all, left, rest, n, total, amount);
        total := Wrapped(total + amount);
        rest := rest - {n};
        left := left - {n};
      }
      EverythingTaken(all, left, total);
    }

    // Standing credits above the finalised height, as the database adds them up.
    method SumProvisional(height: int) returns (total: int)
      ensures total == SumOf(store.facts, CreditAbove(height))
    {
      total := 0;
      var rest := store.facts;
      while rest != map[]
        invariant total + SumOf(rest, CreditAbove(height)) == SumOf(store.facts, CreditAbove(height))
        decreases |rest|
      {
        var e :| e in rest;
        var smaller := rest - {e};
        assert rest == smaller[e := rest[e]];
        SumOfUpdate(smaller, CreditAbove(height), e, rest[e]);
        if !rest[e].reverted && rest[e].height > height {
          total := total + rest[e].amount;
        }
        rest := smaller;
      }
      SumOfNothing(rest, CreditAbove(height));
    }

    // Finalised deposits with no standing credit, and their total.
    method FindMissing(ghost applied: set<Nonce>) returns (missing: seq<Event>, total: int64)
      requires applied == AppliedFacts(store.View())
      ensures total == Wrapped(DepositsNotIngested(View()))
      ensures missing == Missing(FinalizedFacts(chain.View(), Deposit), applied)
      ensures forall e :: e in missing <==> e in FinalizedFacts(chain.View(), Deposit) && e.fact !in applied
    {
      var known := set e | e in store.facts && !store.facts[e].reverted :: e.fact;
      var facts := chain.FinalFacts(Deposit);
      missing, total := [], 0;
      assert Wrapped(0) == 0;
      hide Wrapped;
      for i := 0 to |facts|
        invariant total == Wrapped(MissingTotal(facts[..i], applied)) && missing == Missing(facts[..i], applied)
        invariant forall e :: e in missing <==> e in facts[..i] && e.fact !in applied
      {
        assert facts[..i + 1] == facts[..i] + [facts[i]];
        WrapsOnce(MissingTotal(facts[..i], applied), facts[i].amount);
        if facts[i].fact !in known {
          total := Wrapped(total + facts[i].amount);
          missing := missing + [facts[i]];
        }
      }
      assert facts[..|facts|] == facts;
    }

    // Ingests one finalised deposit from chain state: record the event, credit it, promote it.
    method HealOne(ev: Event) returns (done: bool)
      requires Inv(View()) && FactsSettled(View()) && ev in FinalizedFacts(chain.View(), Deposit)
      modifies store`events, store`facts, store.ledger
      ensures Inv(View()) && FactsSettled(View()) && OnlyCredited(old(store.View()).book, store.View().book)
      ensures var e := EventIdOf(ev);
        if done then e in store.facts && Standing(store.facts[e]) &&
            store.facts == old(store.facts)[e := store.facts[e]]
        else store.facts == old(store.facts) && Unfit(store.View(), ev)
    {
      hide Inv, FactsSettled, RecordEvent, ApplyDeposit, FinalEvent, CopyOf, FinalizedFacts, FactsUpTo, Canon, HashLive,
           CreditFits, OnlyCredited;
      ghost var s0 := View();
      ghost var i := FinalFactInLog(chain.View(), ev);
      var e := EventIdOf(ev);
      LogCopy(s0, i);
      RecordsKeeps(s0, ev);
      var isNew := store.RecordEvent(ev);
      ghost var s1 := View();
      RecordedOnly(s0, ev);
      HealableEvent(s1, i);
      AppliesKeeps(s1, e);
      CreditsGrow(s1, e);
      var answer := store.ApplyDeposit(e);
      ghost var s2 := View();
      CreditStands(s0, s1, e);
      if answer != Done {
        SettledIgnoresRest(s0, s2);
        return false;
      }
      PromotesKeeps(s2, e);
      store.MarkFactFinalized(e);
      StandingIsSettled(s0, View(), e);
      return true;
    }

    // The arithmetic of the report, and the deposits to heal. The two sums that the database adds up
    // must fit the 64 bits they are read into; the rest wraps.
    method Measure() returns (report: Option<Report>, missing: seq<Event>)
      requires Inv(View()) && FactsSettled(View())
      ensures report.None? <==> SumsTooLarge(View())
      ensures report.Some? ==>
                Describes(report.value, View()) &&
                    report.value.unexplained == Wrapped(store.outside + PaidTwice(View()))
      ensures missing == Missing(FinalizedFacts(chain.View(), Deposit), AppliedFacts(store.View()))
      ensures forall e :: e in missing <==>
          e in FinalizedFacts(chain.View(), Deposit) && e.fact !in AppliedFacts(store.View())
    {
      hide Inv, FactsSettled, AppliedFacts, FinalisedIn, PaidTwice, Internal, Missing, FinalizedFacts, FinalisedAmount,
           WithdrawnNotRecognised, DepositsNotIngested, Describes, CreditAbove, Waiting, Wrapped;
      var ledger := store.ledger.InternalTotal();
      var custody, height := chain.final.balance, chain.finalHeight;
      var waiting := set n | n in store.intents && InFlight(store.intents[n]);
      assert waiting == Waiting(store.View()) by {
        WaitingIs(store.View(), waiting);
      }
      var unrecognised: int := SumUnrecognised();
      ghost var applied := AppliedFacts(store.View());
      var missingTotal: int;
      missing, missingTotal := FindMissing(applied);
      var provisional := SumProvisional(height);
      if !FitsInt64(ledger) || !FitsInt64(provisional) {
        return None, missing;
      }
      var delta := Wrapped(ledger - custody);
      var net: int := Wrapped(unrecognised - missingTotal);
      var explained: int := Wrapped(net + provisional);
      var unexplained := Wrapped(delta - explained);
      var status := if unexplained > 0 then Shortfall else if unexplained < 0 then Surplus
                    else if explained != 0 then ExplainedStatus else OkStatus;
      var r := Report(ledger, delta, unrecognised, missingTotal, provisional, explained, unexplained, |waiting|,
          status, 0);
      ReportFits(View(), r);
      return Some(r), missing;
    }

    // Ingests the missing deposits one by one; one that is refused is left for the next time.
    method Heal(missing: seq<Event>) returns (healed: nat)
      requires Inv(View()) && FactsSettled(View())
      requires forall e | e in missing ::
          e in FinalizedFacts(chain.View(), Deposit) && e.fact !in AppliedFacts(store.View())
      requires forall i, j | 0 <= i < j < |missing| :: missing[i].fact != missing[j].fact
      modifies store`events, store`facts, store.ledger
      ensures Inv(View()) && FactsSettled(View())
      ensures Healed(old(store.View()), store.View(), missing, healed)
    {
      hide Inv, FactsSettled, Healed, OnlyCredited, CreditFits, FinalizedFacts;
      healed := 0;
      assert missing[..0] == [];
      NothingHealed(store.View());
      for i := 0 to |missing|
        invariant Inv(View()) && FactsSettled(View())
        invariant Healed(old(store.View()), store.View(), missing[..i], healed)
      {
        var ev := missing[i];
        assert ev in missing && missing[..i + 1] == missing[..i] + [ev];
        ghost var before := View();
        var done := HealOne(ev);
        DepositEventOf(before, ev);
        HealedOneMore(old(store.View()), before, store.View(), missing[..i], ev, healed, done);
        if done {
          healed := healed + 1;
        }
      }
      assert missing[..|missing|] == missing;
    }

    // Stops all withdrawals.
    method Halt()
      requires Inv(View()) && FactsSettled(View())
      modifies store`frozen
      ensures Inv(View()) && FactsSettled(View()) && store.frozen == old(store.frozen) + {"*"}
      ensures TakesNothingIn(store.View())
    {
      hide Inv, FactsSettled, TakesNothingIn;
      ghost var before := View();
      FreezeKeeps(before);
      store.Freeze("*");
      HaltedForEverybody(store.View());
      SettledIgnoresRest(before, View());
    }

    // The report describes the state after the pass over provisional credits; then the missing
    // deposits are ingested from chain state, and a shortfall stops all withdrawals. There is no
    // report when a compensation is refused or a sum cannot be read.
    method Reconcile() returns (report: Option<Report>, ghost measured: Sys)
      requires Inv(View())
      modifies store`events, store`facts, store`frozen, store.ledger
      ensures Inv(View())
      ensures measured.chain == chain.View() && CreditsOnly(old(store.View()), measured.db)
      ensures report.None? ==> View() == measured && (CompensationRefused(measured) || SumsTooLarge(measured))
      ensures report.Some? ==>
                && FactsSettled(measured) && FactsSettled(View()) && Describes(report.value, measured)
                // The residue is exact, whatever the stream lost and whatever the reorgs did.
                && report.value.unexplained == Wrapped(store.outside + PaidTwice(View()))
                && (report.value.status == Shortfall <==> Wrapped(store.outside + PaidTwice(View())) > 0)
                && store.frozen == measured.db.frozen + (if report.value.status == Shortfall then {"*"} else {})
                // After a shortfall nobody's withdrawal is taken in.
                && (report.value.status == Shortfall ==> TakesNothingIn(store.View()))
                // Every finalised deposit has exactly one standing credit, or no room for one.
                && EveryDepositCredited(View())
                && NotIngested(measured) == report.value.healed + NotIngested(View())
    {
      hide Inv, FactsSettled, AppliedFacts, FinalisedAmount, Internal, WithdrawnNotRecognised, PaidTwice, Missing,
           NotIngested, EveryDepositCredited, FinalizedFacts, DepositsNotIngested, ProvisionalCredits, FinalEvent,
           CreditsOnly, Waiting, Describes, FinalisedIn, CompensationRefused, Healed, SumsTooLarge, Wrapped,
           TakesNothingIn;
      var ok := SettleFacts();
      measured := View();
      if !ok {
        return None, measured;
      }
      var measure, missing := Measure();
      if measure.None? {
        return None, measured;
      }
      var r := measure.value;
      MissingDiffer(measured, missing);
      var healed := Heal(missing);
      ShortfallIs(r, healed, measured);
      r := r.(healed := healed);
      ghost var restored := View();
      AllCredited(measured, restored, missing, healed);
      if r.status == Shortfall {
        Halt();
      }
      SameCredits(restored, View());
      SameIntentsSameTerms(measured, View());
      return Some(r), measured;
    }

    /* ----- the resolver ----- */

    method ResolveOne(n: Nonce, head: int, late: bool) returns (answer: Answer)
      requires chain.Valid() && n in store.intents && head == chain.head
      modifies store`intents, store`positions, store`markets, store.ledger, chain
      ensures chain.Valid() && chain.final == old(chain.final)
      ensures View() == Resolve(old(View()), n, late) && answer == ResolveAnswer(old(View()), n, late)
    {
      var it := store.intents[n];
      var st := chain.TxStatus(n);
      if st.processed && st.finalized {
        answer := store.Confirm(n, st.height, st.hash);
        return;
      }
      if st.processed {
        return Done;
      }
      var pastExpiry := it.expiry > 0 && head > it.expiry;
      var noFundsAtRisk := it.kind != Withdraw;
      var refused := chain.Expired(n);
      if pastExpiry && !noFundsAtRisk && !refused {
        var inForce := chain.Cancel(n, it.expiry);
        if !inForce {
          return Done;
        }
      }
      var cancelled := chain.Expired(n);
      if (pastExpiry && (cancelled || noFundsAtRisk)) || (it.expiry == 0 && late) {
        answer := store.Expire(n, head);
      } else {
        answer := Done;
      }
    }

    // The oldest of these intents.
    method Oldest(rest: set<Nonce>) returns (first: Nonce)
      requires rest != {} && rest <= store.intents.Keys
      ensures first in rest && forall n | n in rest :: store.intents[first].created <= store.intents[n].created
    {
      first :| first in rest;
      var others := rest - {first};
      while others != {}
        invariant first in rest && others <= rest
        invariant forall n | n in rest && n !in others :: store.intents[first].created <= store.intents[n].created
        decreases |others|
      {
        var n :| n in others;
        others := others - {n};
        if store.intents[n].created < store.intents[first].created {
          first := n;
        }
      }
    }

    // The intents in flight, oldest first.
    method WaitingList() returns (queue: seq<Nonce>)
      ensures IsQueue(store.View(), queue)
    {
      queue := [];
      var rest := set n | n in store.intents && InFlight(store.intents[n]);
      while rest != {}
        invariant rest <= store.intents.Keys && forall n :: n in queue || n in rest <==> n in Waiting(store.View())
        invariant forall i | 0 <= i < |queue| :: queue[i] !in rest
        invariant forall i, n | 0 <= i < |queue| && n in rest ::
            store.intents[queue[i]].created <= store.intents[n].created
        invariant forall i, j | 0 <= i < j < |queue| ::
            queue[i] != queue[j] && store.intents[queue[i]].created <= store.intents[queue[j]].created
        decreases |rest|
      {
        var n := Oldest(rest);
        rest := rest - {n};
        queue := queue + [n];
      }
    }

    // Visits the intents in flight one by one, oldest first. An answer other than done or conflict ends
    // the pass.
    method ResolverTick(late: set<Nonce>) returns (ok: bool, queue: seq<Nonce>, visits: nat)
      requires chain.Valid() && Inv(View())
      modifies store`intents, store`positions, store`markets, store.ledger, chain
      ensures chain.Valid() && chain.final == old(chain.final)
      ensures IsPass(old(View()), queue, late, visits) && View() == ResolveAll(old(View()), queue[..visits], late)
      ensures ok <==> Smooth(old(View()), queue, late)
      ensures Inv(View())
    {
      hide Inv, Resolve, ResolveAnswer, ResolveAll, OnePass, IsPass, IsQueue, Smooth;
      queue := WaitingList();
      var head := chain.head;
      PassStarts(View(), queue, late);
      for i := 0 to |queue|
        invariant chain.Valid() && chain.final == old(chain.final) && chain.head == head && Inv(View())
        invariant OnePass(old(View()), View(), queue, i, late)
      {
        var n := queue[i];
        ghost var before := View();
        PassGoesOn(old(View()), before, queue, i, late);
        var answer := ResolveOne(n, head, n in late);
        if !GoesOn(answer) {
          return false, queue, i + 1;
        }
      }
      PassEnds(old(View()), View(), queue, late);
      return true, queue, |queue|;
    }
  }

  // How far a pass of the resolver has got: the first `count` of the queue are visited.
  ghost predicate OnePass(first: Sys, s: Sys, queue: seq<Nonce>, count: nat, late: set<Nonce>)
  {
    && IsQueue(first.db, queue) && count <= |queue|
    && s == ResolveAll(first, queue[..count], late) && Smooth(first, queue[..count], late)
    && StillQueued(first.db, s.db, queue, count)
  }

  // The rows from this position of the queue on are as they were.
  ghost predicate StillQueued(first: Db, db: Db, queue: seq<Nonce>, from: nat)
  {
    forall i | from <= i < |queue| ::
      queue[i] in first.intents && queue[i] in db.intents && db.intents[queue[i]] == first.intents[queue[i]]
  }

  // Visiting the next of the queue leaves the rest of it as it is.
  lemma QueueShrinks(first: Db, s: Sys, queue: seq<Nonce>, i: nat, late: bool)
    requires Inv(s) && IsQueue(first, queue) && i < |queue| && StillQueued(first, s.db, queue, i)
    ensures queue[i] in s.db.intents && InFlight(s.db.intents[queue[i]])
    ensures StillQueued(first, Resolve(s, queue[i], late).db, queue, i + 1)
  {
    hide Inv, Resolve;
    forall j | i < j < |queue| ensures queue[j] in Resolve(s, queue[i], late).db.intents &&
        Resolve(s, queue[i], late).db.intents[queue[j]] == first.intents[queue[j]] {
      OtherRowKept(s, queue[i], late, queue[j]);
    }
  }

  lemma PassStarts(s: Sys, queue: seq<Nonce>, late: set<Nonce>)
    requires IsQueue(s.db, queue)
    ensures OnePass(s, s, queue, 0, late)
  {
  }

  lemma PassGoesOn(first: Sys, s: Sys, queue: seq<Nonce>, i: nat, late: set<Nonce>)
    requires OnePass(first, s, queue, i, late) && Inv(s) && i < |queue|
    ensures var n := queue[i];
      && n in s.db.intents && InFlight(s.db.intents[n])
      && Inv(Resolve(s, n, n in late)) && Resolve(s, n, n in late).chain.head == s.chain.head
      && Resolve(s, n, n in late) == ResolveAll(first, queue[..i + 1], late)
      && if GoesOn(ResolveAnswer(s, n, n in late)) then OnePass(first, Resolve(s, n, n in late), queue, i + 1, late)
         else IsPass(first, queue, late, i + 1) && !Smooth(first, queue, late)
  {
    hide Inv, Resolve, ResolveAnswer, IsQueue, ResolveAll, Smooth, StillQueued, OnePass, IsPass, GoesOn, InFlight;
    OnePassParts(first, s, queue, i, late);
    var n := queue[i];
    assert queue[..i + 1] == queue[..i] + [n];
    QueueShrinks(first.db, s, queue, i, n in late);
    ResolvesKeeps(s, n, n in late);
    CanonAfterResolve(s, n, n in late);
    OneMoreAnswer(first, s, queue[..i], late, n);
    SmoothUpTo(first, queue, i + 1, late);
    if GoesOn(ResolveAnswer(s, n, n in late)) {
      OneMoreVisited(first, Resolve(s, n, n in late), queue, i, late);
    } else {
      CutShort(first, queue, i, late);
    }
  }

  lemma OnePassParts(first: Sys, s: Sys, queue: seq<Nonce>, i: nat, late: set<Nonce>)
    requires OnePass(first, s, queue, i, late)
    ensures IsQueue(first.db, queue) && i <= |queue| && s == ResolveAll(first, queue[..i], late)
    ensures Smooth(first, queue[..i], late) && StillQueued(first.db, s.db, queue, i)
  {
  }

  lemma OneMoreVisited(first: Sys, s: Sys, queue: seq<Nonce>, i: nat, late: set<Nonce>)
    requires IsQueue(first.db, queue) && i < |queue| && s == ResolveAll(first, queue[..i + 1], late)
    requires Smooth(first, queue[..i + 1], late) && StillQueued(first.db, s.db, queue, i + 1)
    ensures OnePass(first, s, queue, i + 1, late)
  {
  }

  lemma CutShort(first: Sys, queue: seq<Nonce>, i: nat, late: set<Nonce>)
    requires IsQueue(first.db, queue) && i < |queue| && Smooth(first, queue[..i], late) &&
        !Smooth(first, queue[..i + 1], late)
    ensures IsPass(first, queue, late, i + 1)
  {
    hide IsQueue, Smooth;
  }

  lemma OneMoreAnswer(first: Sys, s: Sys, order: seq<Nonce>, late: set<Nonce>, n: Nonce)
    requires s == ResolveAll(first, order, late) && n in s.db.intents
    ensures Resolve(s, n, n in late) == ResolveAll(first, order + [n], late)
    ensures Smooth(first, order + [n], late) <==> Smooth(first, order, late) && GoesOn(ResolveAnswer(s, n, n in late))
  {
    hide Resolve, ResolveAnswer;
    assert (order + [n])[..|order|] == order;
  }

  lemma {:induction false} SmoothUpTo(s: Sys, queue: seq<Nonce>, count: nat, late: set<Nonce>)
    requires count <= |queue|
    ensures Smooth(s, queue, late) ==> Smooth(s, queue[..count], late)
    decreases |queue|
  {
    hide ResolveAll, ResolveAnswer;
    if count < |queue| {
      var rest := queue[..|queue| - 1];
      SmoothUpTo(s, rest, count, late);
      assert rest[..count] == queue[..count];
    } else {
      assert queue[..count] == queue;
    }
  }

  lemma PassEnds(first: Sys, s: Sys, queue: seq<Nonce>, late: set<Nonce>)
    requires OnePass(first, s, queue, |queue|, late)
    ensures IsPass(first, queue, late, |queue|) && Smooth(first, queue, late)
    ensures s == ResolveAll(first, queue[..|queue|], late)
  {
    assert queue[..|queue|] == queue;
    hide Waiting, ResolveAll, Smooth;
  }

  lemma MarkKeeps(s: Sys, n: Nonce)
    requires Inv(s)
    ensures Inv(s.(db := MarkSubmitted(s.db, n)))
  {
    hide Inv;
    StepKeeps(s, Marks(n));
  }

  /* ----- the outbox ----- */

  function FateOf(fates: map<Nonce, Fate>, n: Nonce): Fate
  {
    if n in fates then fates[n] else Deliver
  }

  function MarkedRow(intents: map<Nonce, Intent>, n: Nonce): map<Nonce, Intent>
  {
    if n in intents && intents[n].state == StateReserved then intents[n := intents[n].(state := StateSubmitted)]
        else intents
  }

  // The reserved intents among the jobs are submitted now; every other row is as it was.
  function Marked(intents: map<Nonce, Intent>, jobs: seq<Nonce>): map<Nonce, Intent>
  {
    map n | n in intents :: if n in jobs && intents[n].state == StateReserved then intents[n].(state := StateSubmitted)
        else intents[n]
  }

  lemma NothingMarked(intents: map<Nonce, Intent>)
    ensures Marked(intents, []) == intents
  {
  }

  lemma MarkedOneMore(intents: map<Nonce, Intent>, jobs: seq<Nonce>, n: Nonce)
    ensures Marked(intents, jobs + [n]) == MarkedRow(Marked(intents, jobs), n)
  {
  }

  // The payloads of the jobs, handed over one after the other.
  ghost function SubmitAll(c: Chain, outbox: map<Nonce, Tx>, jobs: seq<Nonce>, fates: map<Nonce, Fate>): Chain
  {
    if jobs == [] then c
    else
      var before, last := SubmitAll(c, outbox, jobs[..|jobs| - 1], fates), jobs[|jobs| - 1];
      if last in outbox then SubmitTx(before, outbox[last], FateOf(fates, last)).0 else before
  }

  lemma NothingSubmitted(c: Chain, outbox: map<Nonce, Tx>, fates: map<Nonce, Fate>)
    ensures SubmitAll(c, outbox, [], fates) == c
  {
  }

  lemma SubmittedOneMore(c: Chain, outbox: map<Nonce, Tx>, jobs: seq<Nonce>, n: Nonce, fates: map<Nonce, Fate>)
    requires n in outbox
    ensures SubmitAll(c, outbox, jobs + [n], fates) ==
        SubmitTx(SubmitAll(c, outbox, jobs, fates), outbox[n], FateOf(fates, n)).0
  {
    assert (jobs + [n])[..|jobs|] == jobs;
  }

  // The chain has neither executed the call, nor refused it for good, nor seen its expiry pass.
  ghost predicate Wanted(c: Chain, t: Tx)
  {
    !TxStatus(c, t.nonce).processed && t.nonce !in HeadState(c).cancelled &&
        (t.kind == Cancel || t.expiry <= 0 || c.head <= t.expiry)
  }

  // Only the mempool has grown, and every payload that was not lost on the way and that the chain
  // still needs waits there.
  ghost predicate AllDelivered(c: Chain, c': Chain, outbox: map<Nonce, Tx>, jobs: seq<Nonce>, fates: map<Nonce, Fate>)
  {
    && c' == c.(mempool := c'.mempool) && c.mempool <= c'.mempool
    && forall n | n in jobs :: n in outbox && (FateOf(fates, n) != Drop && Wanted(c, outbox[n]) ==>
        outbox[n] in c'.mempool)
  }

  lemma SubmitOne(c: Chain, t: Tx, fate: Fate)
    ensures var c' := SubmitTx(c, t, fate).0;
      c' == c.(mempool := c'.mempool) && c.mempool <= c'.mempool && (fate != Drop && Wanted(c, t) ==> t in c'.mempool)
  {
  }

  // Submitting only ever adds to the mempool, and adds every wanted payload that gets through.
  lemma {:induction false} AllSubmitted(c: Chain, outbox: map<Nonce, Tx>, jobs: seq<Nonce>, fates: map<Nonce, Fate>)
    requires forall n | n in jobs :: n in outbox
    ensures AllDelivered(c, SubmitAll(c, outbox, jobs, fates), outbox, jobs, fates)
    decreases |jobs|
  {
    hide SubmitTx;
    if jobs != [] {
      var rest, last := jobs[..|jobs| - 1], jobs[|jobs| - 1];
      AllSubmitted(c, outbox, rest, fates);
      SubmitOne(SubmitAll(c, outbox, rest, fates), outbox[last], FateOf(fates, last));
      assert jobs == rest + [last];
    }
  }

  // Only credits, events, freezes and balances changed, and no fact row appeared or vanished.
  ghost predicate CreditsOnly(db: Db, db': Db)
  {
    && db' == db.(book := db'.book, events := db'.events, facts := db'.facts, frozen := db'.frozen)
    && db'.facts.Keys == db.facts.Keys
    && (forall e | e in db.events :: e in db'.events && db'.events[e].number == db.events[e].number)
    && forall e | e in db.facts ::
        db'.facts[e] == db.facts[e].(finalized := db'.facts[e].finalized, reverted := db'.facts[e].reverted)
  }

  // A credit of an orphaned block cannot be compensated: some balance has no room for its part.
  ghost predicate CompensationRefused(s: Sys)
  {
    exists e | e in s.db.facts && e in s.db.events ::
      !s.db.facts[e].reverted && !HashLive(Canon(s.chain), e.hash) &&
          !ClawbackFits(s.db, s.db.events[e].user, s.db.facts[e].amount)
  }

  lemma RefusedHere(s: Sys, e: EventId)
    requires Inv(s) && e in s.db.facts && !s.db.facts[e].reverted && !HashLive(Canon(s.chain), e.hash)
    requires RevertFact(s.db, e).1 != Done
    ensures CompensationRefused(s)
  {
    hide Inv, RevertFact, ClawbackFits, HashLive;
    RevertsKeeps(s, e);
  }

  lemma RevertIsCredit(s: Sys, e: EventId)
    requires Inv(s) && e in s.db.facts && !s.db.facts[e].reverted
    ensures var r := RevertFact(s.db, e);
      if r.1 == Done then CreditsOnly(s.db, r.0) && r.0.facts == s.db.facts[e := s.db.facts[e].(reverted := true)]
      else r.0 == s.db
  {
    hide Inv, DbInv, RevertFact, CreditsOnly, ClawbackFits;
    PartsOf(s);
    FactOf(s, e);
    RevertIsFactStep(s.db, e);
    if RevertFact(s.db, e).1 == Done {
      OneFactChanged(s.db, RevertFact(s.db, e).0, e);
    }
  }

  lemma CreditsChain(a: Db, b: Db, c: Db)
    requires CreditsOnly(a, b) && CreditsOnly(b, c)
    ensures CreditsOnly(a, c)
  {
  }

  lemma NoCreditChanged(db: Db)
    ensures CreditsOnly(db, db)
  {
  }

  // How far the compensation of one block has got: `items` still stand.
  ghost predicate Clearing(first: Db, db: Db, hash: Hash, items: set<EventId>)
  {
    && db.facts.Keys == first.facts.Keys
    && (forall e | e in items :: e in db.facts && e.hash == hash && !db.facts[e].reverted)
    && (forall e | e in db.facts && e.hash == hash && e !in items :: db.facts[e].reverted)
    && (forall e | e in db.facts && e.hash != hash :: db.facts[e] == first.facts[e])
  }

  lemma ClearingStarts(db: Db, hash: Hash, items: set<EventId>)
    requires items == set e | e in db.facts && e.hash == hash && !db.facts[e].reverted
    ensures Clearing(db, db, hash, items) && CreditsOnly(db, db)
  {
  }

  lemma ClearingItem(first: Db, db: Db, hash: Hash, items: set<EventId>, e: EventId)
    requires Clearing(first, db, hash, items) && e in items
    ensures e in db.facts && e.hash == hash && !db.facts[e].reverted
  {
  }

  lemma ClearingGoesOn(first: Db, db: Db, db': Db, hash: Hash, items: set<EventId>, e: EventId)
    requires Clearing(first, db, hash, items) && e in items && e in db.facts && CreditsOnly(first, db) &&
        CreditsOnly(db, db')
    requires db'.facts == db.facts[e := db.facts[e].(reverted := true)]
    ensures Clearing(first, db', hash, items - {e}) && CreditsOnly(first, db')
  {
    CreditsChain(first, db, db');
    hide CreditsOnly;
  }

  lemma ClearingStops(first: Db, db: Db, hash: Hash, items: set<EventId>)
    requires Clearing(first, db, hash, items)
    ensures db.facts.Keys == first.facts.Keys
    ensures forall e | e in db.facts && e.hash != hash :: e in first.facts && db.facts[e] == first.facts[e]
  {
  }

  lemma ClearingEnds(first: Db, db: Db, hash: Hash)
    requires Clearing(first, db, hash, {})
    ensures db.facts.Keys == first.facts.Keys
    ensures forall e | e in db.facts && e.hash == hash :: db.facts[e].reverted
    ensures forall e | e in db.facts && e.hash != hash :: e in first.facts && db.facts[e] == first.facts[e]
  {
  }

  // How far the pass over provisional credits has got: those not in `rest` are live and not final,
  // or their block is among the orphaned ones.
  ghost predicate Sifted(s: Sys, rest: set<EventId>, orphaned: set<Hash>)
  {
    && (forall h | h in orphaned :: !HashLive(Canon(s.chain), h))
    && (forall e | e in rest :: e in s.db.facts && Provisional(s.db.facts[e]))
    && (forall e | e in s.db.facts && Provisional(s.db.facts[e]) && e !in rest ::
          e.hash in orphaned || (LiveFact(s.chain, e, s.db.facts[e].height) && !FinalEvent(s.chain, e)))
  }

  lemma SiftStarts(s: Sys, rest: set<EventId>)
    requires rest == set e | e in s.db.facts && !s.db.facts[e].finalized && !s.db.facts[e].reverted
    ensures Sifted(s, rest, {}) && CreditsOnly(s.db, s.db)
  {
  }

  lemma SiftItem(s: Sys, rest: set<EventId>, orphaned: set<Hash>, e: EventId)
    requires Sifted(s, rest, orphaned) && e in rest
    ensures e in s.db.facts && Provisional(s.db.facts[e])
  {
  }

  lemma SiftedHashes(s: Sys, orphaned: set<Hash>)
    requires Sifted(s, {}, orphaned)
    ensures forall h | h in orphaned :: !HashLive(Canon(s.chain), h)
  {
  }

  lemma SettledCredit(db: Db, db': Db, e: EventId)
    requires e in db.facts && e in db'.facts && db' == db.(facts := db'.facts)
    requires db'.facts == db.facts[e := db.facts[e].(finalized := db'.facts[e].finalized)]
    ensures CreditsOnly(db, db')
  {
  }

  lemma SiftGoesOn(s: Sys, s': Sys, rest: set<EventId>, orphaned: set<Hash>, e: EventId, live: bool)
    requires Sifted(s, rest, orphaned) && e in rest && e in s.db.facts && s'.chain == s.chain
    requires !live ==> !HashLive(Canon(s.chain), e.hash)
    requires live ==> LiveFact(s.chain, e, s.db.facts[e].height)
    requires s'.db.facts == s.db.facts[e := s.db.facts[e].(finalized := live && FinalEvent(s.chain, e))]
    ensures Sifted(s', rest - {e}, if live then orphaned else orphaned + {e.hash})
  {
    hide HashLive, Canon, LiveFact, FinalEvent;
  }

  lemma SiftEnds(s: Sys, s': Sys, orphaned: set<Hash>)
    requires Sifted(s, {}, orphaned) && s'.chain == s.chain && s'.db.facts.Keys == s.db.facts.Keys
    requires forall e | e in s'.db.facts :: if e.hash in orphaned then s'.db.facts[e].reverted
        else s'.db.facts[e] == s.db.facts[e]
    ensures FactsSettled(s')
    ensures forall e | e in s'.db.facts && Provisional(s'.db.facts[e]) :: !FinalEvent(s'.chain, e)
  {
    hide HashLive, Canon, LiveFact, FinalEvent;
  }

  lemma OneFactChanged(db: Db, db': Db, e: EventId)
    requires db' == db.(book := db'.book, events := db'.events, facts := db'.facts, frozen := db'.frozen)
    requires e in db.facts && e in db'.facts && db'.facts == db.facts[e := db'.facts[e]]
    requires db'.facts[e] == db.facts[e].(finalized := db'.facts[e].finalized, reverted := db'.facts[e].reverted)
    requires forall x | x in db.events :: x in db'.events && db'.events[x].number == db.events[x].number
    ensures CreditsOnly(db, db')
  {
  }

  /* ----- the inbox ----- */

  function Numbers(batch: seq<Event>): set<nat>
  {
    set ev | ev in batch :: ev.number
  }

  function Ids(batch: seq<Event>, upTo: nat): set<EventId>
  {
    set ev | ev in batch && ev.number <= upTo :: EventIdOf(ev)
  }

  // The events of the batch up to a number, recorded one after the other.
  function RecordAll(db: Db, batch: seq<Event>, upTo: nat): Db
  {
    if batch == [] then db
    else
      var before, last := RecordAll(db, batch[..|batch| - 1], upTo), batch[|batch| - 1];
      if last.kind.Of? && last.number <= upTo then RecordEvent(before, last) else before
  }

  lemma NothingRecorded(db: Db, upTo: nat)
    ensures RecordAll(db, [], upTo) == db && AllRecorded(db, db, [], upTo)
  {
  }

  lemma RecordedOneMore(first: Db, db: Db, batch: seq<Event>, ev: Event, upTo: nat)
    requires db == RecordAll(first, batch, upTo) && ev.kind.Of?
    ensures RecordAll(first, batch + [ev], upTo) == if ev.number <= upTo then RecordEvent(db, ev) else db
    ensures ev.number > upTo && AllRecorded(first, db, batch, upTo) ==> AllRecorded(first, db, batch + [ev], upTo)
  {
    assert (batch + [ev])[..|batch|] == batch;
    assert ev.number > upTo ==> Ids(batch + [ev], upTo) == Ids(batch, upTo);
  }

  // The events of the batch up to a number are in the inbox, by id and by number.
  ghost predicate AllRecorded(first: Db, db: Db, batch: seq<Event>, upTo: nat)
  {
    && db.events.Keys == first.events.Keys + Ids(batch, upTo)
    && forall ev | ev in batch && ev.number <= upTo :: Recorded(db, ev.number)
  }

  lemma AllRecordedOneMore(first: Db, db: Db, batch: seq<Event>, ev: Event, upTo: nat)
    requires AllRecorded(first, db, batch, upTo) && ev.kind.Of? && ev.number <= upTo
    requires Recorded(RecordEvent(db, ev), ev.number) && forall k: nat | Recorded(db, k) ::
        Recorded(RecordEvent(db, ev), k)
    ensures AllRecorded(first, RecordEvent(db, ev), batch + [ev], upTo)
  {
    hide Recorded;
    assert Ids(batch + [ev], upTo) == Ids(batch, upTo) + {EventIdOf(ev)};
  }

  lemma AllRecordedMeans(first: Db, db: Db, batch: seq<Event>, upTo: nat)
    requires AllRecorded(first, db, batch, upTo)
    ensures db.events.Keys == first.events.Keys + Ids(batch, upTo)
    ensures forall ev | ev in batch && ev.number <= upTo :: Recorded(db, ev.number)
  {
  }

  // `to` ends the longest contiguous run that starts right after `from`.
  ghost predicate EndOfRun(numbers: set<nat>, from: nat, to: nat)
  {
    from <= to && (forall k | from < k <= to :: k in numbers) && to + 1 !in numbers
  }

  lemma RunRecorded(db: Db, batch: seq<Event>, from: nat, to: nat)
    requires EndOfRun(Numbers(batch), from, to) && db.cursor == from
    requires forall ev | ev in batch && ev.number <= to :: Recorded(db, ev.number)
    ensures forall k: nat | db.cursor < k <= to :: Recorded(db, k)
  {
    forall k: nat | db.cursor < k <= to ensures Recorded(db, k) {
      assert k in Numbers(batch);
      var ev :| ev in batch && ev.number == k;
    }
  }

  lemma AdvanceKeeps(s: Sys, number: nat)
    requires Inv(s) && Covered(s.db) && forall k: nat | s.db.cursor < k <= number :: Recorded(s.db, k)
    ensures Inv(s.(db := AdvanceCursor(s.db, number))) && Covered(AdvanceCursor(s.db, number))
  {
    hide Inv, Covered;
    StepKeeps(s, Advances(number));
    AdvanceCovers(s.db, number);
  }

  // The cursor depends on the batch as a set only: duplicates and order do not matter.
  lemma RunEndsOnce(numbers: set<nat>, from: nat, a: nat, b: nat)
    requires EndOfRun(numbers, from, a) && EndOfRun(numbers, from, b)
    ensures a == b
  {
    assert from < a + 1 <= b ==> a + 1 in numbers;
    assert from < b + 1 <= a ==> b + 1 in numbers;
  }

  ghost function ReceivedEvents(db: Db): set<EventId>
  {
    set e | e in db.events && db.events[e].status == Received
  }

  // The received events with the lowest sequence numbers, as many as the limit allows.
  ghost predicate FirstReceived(db: Db, limit: nat, items: seq<EventId>)
  {
    && |items| <= limit
    && (forall i | 0 <= i < |items| :: items[i] in db.events && db.events[items[i]].status == Received)
    && (forall i, j | 0 <= i < j < |items| ::
        items[i] != items[j] && db.events[items[i]].number <= db.events[items[j]].number)
    && (forall e | e in ReceivedEvents(db) && e !in items ::
          |items| == limit && forall i | 0 <= i < |items| :: db.events[items[i]].number <= db.events[e].number)
  }

  function AppliedRow(row: EventRow): EventRow
  {
    row.(status := if row.kind == Deposit then Applied else Ignored)
  }

  function NewCredit(row: EventRow): FactRow
  {
    FactRow(row.amount, row.height, false, false)
  }

  // Crediting takes from `external` and gives to users.
  ghost predicate OnlyCredited(b: Book, b': Book)
  {
    && BalanceOf(b', External) <= BalanceOf(b, External)
    && forall user :: BalanceOf(b', Available(user)) >= BalanceOf(b, Available(user))
  }

  lemma OnlyCreditedChain(a: Book, b: Book, c: Book)
    requires OnlyCredited(a, b) && OnlyCredited(b, c)
    ensures OnlyCredited(a, c)
  {
    hide BalanceOf;
    forall user ensures BalanceOf(c, Available(user)) >= BalanceOf(a, Available(user)) {
      assert BalanceOf(b, Available(user)) >= BalanceOf(a, Available(user));
    }
  }

  // A credit that does not fit does not fit after other credits either.
  lemma StillNoRoom(s: Sys, b': Book, user: User, amount: int64)
    requires Inv(s) && OnlyCredited(s.db.book, b') && amount > 0 && !CreditFits(s.db.book, user, amount)
    ensures !CreditFits(b', user, amount)
  {
    hide Inv, DbInv, BooksSound, Keyed, Backed, ExternalExplained, Rows, BalanceOf;
    PartsOf(s);
    DbParts(s.db);
    SoundBalance(s.db.book, External);
    SoundBalance(s.db.book, Available(user));
    CustodyNonNegative(s.db.book, Available(user));
    assert BalanceOf(b', Available(user)) >= BalanceOf(s.db.book, Available(user));
  }

  // The first credit of this deposit does not fit.
  predicate CreditRefused(db: Db, e: EventId)
  {
    && e in db.events && db.events[e].kind == Deposit && e !in db.facts
    && !CreditFits(db.book, db.events[e].user, db.events[e].amount)
  }

  // One event dealt with: a deposit is credited, unless it was before; anything else is set aside.
  ghost predicate ItemApplied(db: Db, db': Db, e: EventId)
  {
    && db' == db.(book := db'.book, events := db'.events, facts := db'.facts) && e in db.events
    && db'.events == db.events[e := AppliedRow(db.events[e])]
    && db'.facts == (if e in db.facts || db.events[e].kind != Deposit then db.facts
        else db.facts[e := NewCredit(db.events[e])])
    && (db.events[e].kind != Deposit ==> db'.book == db.book) && OnlyCredited(db.book, db'.book)
  }

  // These events have a new status, the others are as they were.
  ghost predicate RowsApplied(events: map<EventId, EventRow>, events': map<EventId, EventRow>, items: seq<EventId>,
      refused: set<EventId>)
  {
    && events'.Keys == events.Keys
    && forall e | e in events :: events'[e] == if e in items && e !in refused then AppliedRow(events[e]) else events[e]
  }

  // The deposits among these events have credits now; the credits there were are as they were.
  ghost predicate CreditsApplied(db: Db, facts: map<EventId, FactRow>, items: seq<EventId>, refused: set<EventId>)
  {
    && (forall e :: e in facts <==>
        e in db.facts || (e in items && e !in refused && e in db.events && db.events[e].kind == Deposit))
    && (forall e | e in facts && e !in db.facts :: facts[e] == NewCredit(db.events[e]))
    && (forall e | e in db.facts :: facts[e] == db.facts[e])
  }

  // These events dealt with, except the refused ones, whose credits still do not fit; nothing else.
  ghost predicate PendingApplied(db: Db, db': Db, items: seq<EventId>, refused: set<EventId>)
  {
    && db' == db.(book := db'.book, events := db'.events, facts := db'.facts)
    && RowsApplied(db.events, db'.events, items, refused) && CreditsApplied(db, db'.facts, items, refused)
    && forall e | e in refused :: e in items && CreditRefused(db', e)
  }

  lemma NothingApplied(db: Db)
    ensures PendingApplied(db, db, [], {})
  {
  }

  lemma PendingItem(db: Db, db': Db, limit: nat, items: seq<EventId>, i: nat, refused: set<EventId>)
    requires FirstReceived(db, limit, items) && i < |items| && PendingApplied(db, db', items[..i], refused)
    ensures items[i] in db.events && items[i] in db'.events && items[i] !in items[..i]
  {
  }

  lemma AppliedOneMore(db: Db, before: Sys, db': Db, items: seq<EventId>, refused: set<EventId>, e: EventId, done: bool)
    requires Inv(before) && PendingApplied(db, before.db, items, refused) && e in db.events && e !in items
    requires if done then ItemApplied(before.db, db', e) else db' == before.db && CreditRefused(db', e)
    ensures PendingApplied(db, db', items + [e], if done then refused else refused + {e})
  {
    hide Inv, AppliedRow, NewCredit, RowsApplied, CreditsApplied, CreditRefused, OnlyCredited;
    UntouchedRow(db.events, before.db.events, items, refused, e);
    if done {
      RowsOneMore(db.events, before.db.events, db'.events, items, refused, e);
      CreditsOneMore(db, before.db.facts, db'.facts, items, refused, e);
      forall x | x in refused ensures CreditRefused(db', x) {
        StillRefused(before, db', e, x);
      }
    } else {
      RowsRefused(db.events, db'.events, items, refused, e);
      CreditsRefused(db, db', items, refused, e);
    }
  }

  lemma StillRefused(s: Sys, db': Db, e: EventId, x: EventId)
    requires Inv(s) && ItemApplied(s.db, db', e) && CreditRefused(s.db, x) && x != e
    ensures CreditRefused(db', x)
  {
    hide Inv, CreditFits, OnlyCredited, AppliedRow, NewCredit;
    DepositRowOf(s, x);
    StillNoRoom(s, db'.book, s.db.events[x].user, s.db.events[x].amount);
  }

  lemma UntouchedRow(events: map<EventId, EventRow>, middle: map<EventId, EventRow>, items: seq<EventId>,
      refused: set<EventId>, e: EventId)
    requires RowsApplied(events, middle, items, refused) && e in events && e !in items
    ensures e in middle && middle[e] == events[e]
  {
  }

  lemma RowsOneMore(events: map<EventId, EventRow>, middle: map<EventId, EventRow>, events': map<EventId, EventRow>,
                    items: seq<EventId>, refused: set<EventId>, e: EventId)
    requires RowsApplied(events, middle, items, refused) && e in events && e in middle && middle[e] == events[e] &&
        e !in refused
    requires events' == middle[e := AppliedRow(events[e])]
    ensures RowsApplied(events, events', items + [e], refused)
  {
    hide AppliedRow;
  }

  lemma RowsRefused(events: map<EventId, EventRow>, events': map<EventId, EventRow>, items: seq<EventId>,
      refused: set<EventId>, e: EventId)
    requires RowsApplied(events, events', items, refused) && e in events && e !in items
    ensures RowsApplied(events, events', items + [e], refused + {e})
  {
    hide AppliedRow;
  }

  lemma CreditsOneMore(db: Db, middle: map<EventId, FactRow>, facts: map<EventId, FactRow>, items: seq<EventId>,
      refused: set<EventId>, e: EventId)
    requires CreditsApplied(db, middle, items, refused) && e in db.events && e !in refused
    requires facts == if e in middle || db.events[e].kind != Deposit then middle
        else middle[e := NewCredit(db.events[e])]
    ensures CreditsApplied(db, facts, items + [e], refused)
  {
    hide NewCredit;
  }

  lemma CreditsRefused(db: Db, db': Db, items: seq<EventId>, refused: set<EventId>, e: EventId)
    requires CreditsApplied(db, db'.facts, items, refused) && e !in items && CreditRefused(db', e)
    ensures CreditsApplied(db, db'.facts, items + [e], refused + {e})
  {
    hide NewCredit, CreditFits;
  }

  lemma CursorKept(db: Db, db': Db)
    requires CreditsOnly(db, db')
    ensures db'.cursor == db.cursor
  {
  }

  lemma CreditsCover(db: Db, db': Db)
    requires Covered(db) && CreditsOnly(db, db')
    ensures Covered(db')
  {
    forall k: nat | 1 <= k <= db'.cursor ensures Recorded(db', k) {
      StillRecorded(db, db', k);
    }
  }

  lemma CreditAdds(s: Sys, e: EventId)
    requires Inv(s) && e in s.db.events && s.db.events[e].kind == Deposit
    ensures var r := ApplyDeposit(s.db, e);
      if r.1 == Done then ItemApplied(s.db, r.0, e) else r.0 == s.db && CreditRefused(s.db, e)
  {
    hide Inv, DbInv, ApplyDeposit, CreditFits, OnlyCredited;
    PartsOf(s);
    DepositRowOf(s, e);
    ApplyDepositKeeps(s.db, e);
    CreditsGrow(s, e);
  }

  // Crediting a deposit, or failing to, only credits.
  lemma CreditsGrow(s: Sys, e: EventId)
    requires Inv(s) && e in s.db.events && s.db.events[e].kind == Deposit
    ensures OnlyCredited(s.db.book, ApplyDeposit(s.db, e).0.book)
  {
    hide Inv, DbInv, ApplyDeposit, CreditFits, BalanceOf;
    PartsOf(s);
    DepositRowOf(s, e);
    ApplyDepositKeeps(s.db, e);
  }

  datatype ReportStatus = OkStatus | ExplainedStatus | Shortfall | Surplus

  datatype Report = Report(ledger: int64, rawDelta: int64, withdrawnNotRecognised: int64, depositsNotIngested: int64,
                           provisionalCredits: int64, explained: int64, unexplained: int64, inFlight: nat,
                               status: ReportStatus,
                           healed: nat)

  // A sum that the database adds up without limit does not fit the 64 bits it is read into.
  ghost predicate SumsTooLarge(s: Sys)
  {
    !FitsInt64(Internal(s.db.book)) || !FitsInt64(ProvisionalCredits(s))
  }

  // The report describes this state: its terms, its residue and what they call for, in 64 bits.
  ghost predicate Describes(r: Report, s: Sys)
  {
    && r.ledger == Internal(s.db.book) && r.rawDelta == Wrapped(r.ledger - s.chain.final.balance)
    && r.withdrawnNotRecognised == Wrapped(WithdrawnNotRecognised(s))
    && r.depositsNotIngested == Wrapped(DepositsNotIngested(s))
    && r.provisionalCredits == ProvisionalCredits(s)
    && r.explained == Wrapped(Explained(s)) && r.unexplained == Unexplained(s) && r.inFlight == |Waiting(s.db)|
    && (r.status == Shortfall <==> Wrapped(s.db.outside + PaidTwice(s)) > 0)
    && (r.status == Surplus <==> Wrapped(s.db.outside + PaidTwice(s)) < 0)
    && (r.status == OkStatus <==> Wrapped(s.db.outside + PaidTwice(s)) == 0 && r.explained == 0)
  }

  // What becomes of a row of the inbox: a deposit is applied, anything else set aside.
  lemma AppliedRowMeans(row: EventRow)
    ensures AppliedRow(row).status == (if row.kind == Deposit then Applied else Ignored)
    ensures AppliedRow(row) == row.(status := AppliedRow(row).status)
  {
  }

  // The finalised deposits without a standing credit, in the order the chain lists them.
  function Missing(facts: seq<Event>, applied: set<Nonce>): seq<Event>
  {
    if facts == [] then []
    else
      var before, last := Missing(facts[..|facts| - 1], applied), facts[|facts| - 1];
      if last.fact in applied then before else before + [last]
  }

  predicate Standing(f: FactRow)
  {
    f.finalized && !f.reverted
  }

  // Every deposit of the finalised history has a standing credit, and only one; unless there is no
  // room for its first.
  ghost predicate EveryDepositCredited(s: Sys)
  {
    && (forall n | n in Moved(AllCalls(s.chain.history), Deposit) :: n in AppliedFacts(s.db) || NoRoomFor(s, n))
    && (forall e, e' | e in s.db.facts && e' in s.db.facts && e.fact == e'.fact && !s.db.facts[e].reverted &&
        !s.db.facts[e'].reverted :: e == e')
  }

  ghost predicate NoRoomFor(s: Sys, n: Nonce)
  {
    exists ev | ev in FinalizedFacts(s.chain, Deposit) :: ev.fact == n && !CreditFits(s.db.book, ev.user, ev.amount)
  }

  // How many finalised deposits have no standing credit.
  ghost function NotIngested(s: Sys): nat
  {
    |Missing(FinalizedFacts(s.chain, Deposit), AppliedFacts(s.db))|
  }

  /* ----- healing ----- */

  lemma {:induction false} FactAt(c: Chain, ev: Event, count: nat) returns (i: nat)
    requires count <= |c.log| && ev in FactsUpTo(c, Deposit, count)
    ensures i < count && c.log[i] == ev && IsFinalFact(c, ev, Deposit)
    decreases count
  {
    if ev in FactsUpTo(c, Deposit, count - 1) {
      i := FactAt(c, ev, count - 1);
    } else {
      i := count - 1;
    }
  }

  lemma FinalFactInLog(c: Chain, ev: Event) returns (i: nat)
    requires ev in FinalizedFacts(c, Deposit)
    ensures i < |c.log| && c.log[i] == ev && IsFinalFact(c, ev, Deposit)
  {
    i := FactAt(c, ev, |c.log|);
  }

  lemma {:induction false} LogFactIsListed(c: Chain, i: nat, count: nat)
    requires i < count <= |c.log| && IsFinalFact(c, c.log[i], Deposit)
    ensures c.log[i] in FactsUpTo(c, Deposit, count)
    decreases count
  {
    if i < count - 1 {
      LogFactIsListed(c, i, count - 1);
    }
  }

  lemma LogCopy(s: Sys, i: nat)
    requires Inv(s) && i < |s.chain.log| && s.chain.log[i].kind.Of?
    ensures CopyOf(s.chain.log, s.chain.log[i])
  {
    LiveCopy(s.chain, i);
  }

  lemma RecordedOnly(s: Sys, ev: Event)
    requires ev.kind.Of?
    ensures var db' := RecordEvent(s.db, ev);
      db' == s.db.(events := db'.events) && EventIdOf(ev) in db'.events
  {
  }

  // A recorded event of a finalised deposit is a deposit row: a nonce occurs once in its block.
  lemma HealableEvent(s: Sys, i: nat)
    requires Inv(s) && i < |s.chain.log| && IsFinalFact(s.chain, s.chain.log[i], Deposit)
    requires EventIdOf(s.chain.log[i]) in s.db.events
    ensures var e := EventIdOf(s.chain.log[i]);
      && s.db.events[e].kind == Deposit && FinalEvent(s.chain, e) && HashLive(Canon(s.chain), e.hash)
      && s.db.events[e].user == s.chain.log[i].user && s.db.events[e].amount == s.chain.log[i].amount
  {
    var c := s.chain;
    var e := EventIdOf(c.log[i]);
    var k, j := FinalFactIsDeposit(c, i);
    assert Canon(c)[k] == c.history[k];
    assert Witnessed(c.log, e, s.db.events[e]);
    var i' :| 0 <= i' < |c.log| && Matches(c.log[i'], e, s.db.events[e]);
    var j' := LiveEvent(c, i', k);
    OncePerBlock(c, k, j, j');
  }

  lemma CreditStands(s0: Sys, s1: Sys, e: EventId)
    requires Inv(s1) && e in s1.db.events && s1.db.events[e].kind == Deposit && HashLive(Canon(s1.chain), e.hash)
    requires s1.chain == s0.chain && s1.db.facts == s0.db.facts
    ensures var r := ApplyDeposit(s1.db, e);
      if r.1 == Done then e in r.0.facts && !r.0.facts[e].reverted && r.0.facts == s0.db.facts[e := r.0.facts[e]]
      else r.0 == s1.db
  {
    hide Inv, DbInv, ApplyDeposit, HashLive, CreditFits;
    PartsOf(s1);
    DepositRowOf(s1, e);
    if e in s1.db.facts {
      FactOf(s1, e);
    }
    ApplyIsFactStep(s1.db, e);
  }

  lemma SettledIgnoresRest(s0: Sys, s: Sys)
    requires FactsSettled(s0) && s.chain == s0.chain && s.db.facts == s0.db.facts
    ensures FactsSettled(s)
  {
  }

  lemma StandingIsSettled(s0: Sys, s: Sys, e: EventId)
    requires FactsSettled(s0) && s.chain == s0.chain && e in s.db.facts && Standing(s.db.facts[e])
    requires s.db.facts == s0.db.facts[e := s.db.facts[e]]
    ensures FactsSettled(s)
  {
  }

  // The rows still to be added up: those of `rest`, and others that are zero.
  ghost predicate Remaining(all: map<Nonce, int>, left: map<Nonce, int>, rest: set<Nonce>)
  {
    && rest <= left.Keys <= all.Keys && (forall n | n in left :: left[n] == all[n])
    && forall n | n in left && n !in rest :: left[n] == 0
  }

  lemma AllRemain(s: Sys, rest: set<Nonce>)
    requires rest == set n | n in s.db.intents && InFlight(s.db.intents[n])
    ensures Remaining(FinalisedIn(s, InFlight), FinalisedIn(s, InFlight), rest)
  {
  }

  lemma TakeOne(all: map<Nonce, int>, left: map<Nonce, int>, rest: set<Nonce>, n: Nonce, total: int64, amount: int64)
    requires Remaining(all, left, rest) && n in rest && n in all && amount == all[n] && SummedUp(all, left, total)
    ensures Remaining(all, left - {n}, rest - {n}) && SummedUp(all, left - {n}, Wrapped(total + amount))
  {
    SumRemove(left, n);
    hide Sum, Wrapped;
    WrapsOnce(Sum(all) - Sum(left), all[n]);
  }

  // The total of the rows taken so far, in 64 bits.
  ghost predicate SummedUp(all: map<Nonce, int>, left: map<Nonce, int>, total: int64)
  {
    total == Wrapped(Sum(all) - Sum(left))
  }

  lemma NothingTaken(all: map<Nonce, int>)
    ensures SummedUp(all, all, 0)
  {
  }

  lemma EverythingTaken(all: map<Nonce, int>, left: map<Nonce, int>, total: int64)
    requires Remaining(all, left, {}) && SummedUp(all, left, total)
    ensures total == Wrapped(Sum(all))
  {
    NothingRemains(all, left);
  }

  lemma NothingRemains(all: map<Nonce, int>, left: map<Nonce, int>)
    requires Remaining(all, left, {})
    ensures Sum(left) == 0
  {
    var none: map<Nonce, int> := map[];
    SumSkipsZeros(left, none);
    SumOfNoRows(none);
  }

  lemma FinalisedRow(s: Sys, n: Nonce)
    requires n in s.db.intents && InFlight(s.db.intents[n])
    ensures n in FinalisedIn(s, InFlight)
    ensures FinalisedIn(s, InFlight)[n] == FinalisedAmount(s, n)
  {
  }

  lemma WaitingIs(db: Db, waiting: set<Nonce>)
    requires waiting == set n | n in db.intents && InFlight(db.intents[n])
    ensures waiting == Waiting(db)
  {
  }

  // The terms of a settled state, put together as the reconciler does, describe it.
  lemma ReportFits(s: Sys, r: Report)
    requires Inv(s) && FactsSettled(s)
    requires r.ledger == Internal(s.db.book) && r.withdrawnNotRecognised == Wrapped(WithdrawnNotRecognised(s))
    requires r.depositsNotIngested == Wrapped(DepositsNotIngested(s))
    requires r.provisionalCredits == SumOf(s.db.facts, CreditAbove(s.chain.finalHeight)) &&
        r.inFlight == |Waiting(s.db)|
    requires r.rawDelta == Wrapped(r.ledger - s.chain.final.balance) &&
        r.unexplained == Wrapped(r.rawDelta - r.explained)
    requires r.explained ==
        Wrapped(Wrapped(r.withdrawnNotRecognised - r.depositsNotIngested) + r.provisionalCredits)
    requires r.status == if r.unexplained > 0 then Shortfall else if r.unexplained < 0 then Surplus
                         else if r.explained != 0 then ExplainedStatus else OkStatus
    ensures Describes(r, s) && r.unexplained == Wrapped(s.db.outside + PaidTwice(s))
  {
    hide Inv, FactsSettled, Internal, WithdrawnNotRecognised, DepositsNotIngested, PaidTwice, Waiting, CreditAbove,
         SumOf, Wrapped;
    ResidueIsExact(s);
    WrapsApart(WithdrawnNotRecognised(s), DepositsNotIngested(s));
    WrapsOnce(WithdrawnNotRecognised(s) - DepositsNotIngested(s), r.provisionalCredits);
    WrapsApart(r.ledger - s.chain.final.balance, Explained(s));
  }

  // Neither the healing nor its count changes what the report says of the state it measured.
  lemma ShortfallIs(r: Report, healed: nat, s: Sys)
    requires Describes(r, s)
    ensures Describes(r.(healed := healed), s)
    ensures r.status == Shortfall <==> Wrapped(s.db.outside + PaidTwice(s)) > 0
  {
    hide Internal, WithdrawnNotRecognised, DepositsNotIngested, ProvisionalCredits, PaidTwice, Explained, Unexplained,
         Waiting;
  }

  lemma SameIntentsSameTerms(s: Sys, s': Sys)
    requires s'.chain == s.chain && s'.db.intents == s.db.intents
    ensures WithdrawnNotRecognised(s') == WithdrawnNotRecognised(s) && PaidTwice(s') == PaidTwice(s)
  {
    assert FinalisedIn(s', InFlight) == FinalisedIn(s, InFlight);
    assert FinalisedIn(s', Refunded) == FinalisedIn(s, Refunded);
  }

  lemma FreezeKeeps(s: Sys)
    requires Inv(s)
    ensures Inv(s.(db := s.db.(frozen := s.db.frozen + {"*"})))
  {
    hide Inv;
    StepKeeps(s, Freezes("*"));
  }

  /* ----- what healing leaves ----- */

  // The missing deposits dealt with: each has a standing credit now, or no room for it.
  ghost predicate Healed(db: Db, db': Db, missing: seq<Event>, healed: nat)
  {
    && db' == db.(book := db'.book, events := db'.events, facts := db'.facts)
    && (forall e | e in db.facts && !db.facts[e].reverted :: e in db'.facts && !db'.facts[e].reverted)
    && (forall n | n in AppliedFacts(db') :: n in AppliedFacts(db) || exists k | 0 <= k < |missing| ::
        missing[k].fact == n)
    && (forall k | 0 <= k < |missing| ::
        missing[k].amount > 0 && (missing[k].fact in AppliedFacts(db') || Unfit(db', missing[k])))
    && |missing| == healed + |Missing(missing, AppliedFacts(db'))|
  }

  predicate Unfit(db: Db, ev: Event)
  {
    !CreditFits(db.book, ev.user, ev.amount)
  }

  lemma NothingHealed(db: Db)
    ensures Healed(db, db, [], 0)
  {
  }

  lemma DepositEventOf(s: Sys, ev: Event)
    requires Inv(s) && ev in FinalizedFacts(s.chain, Deposit)
    ensures ev.amount > 0
  {
    var i := FinalFactInLog(s.chain, ev);
    DepositEventPositive(s.chain, i);
  }

  lemma HealedOneMore(db: Db, before: Sys, db': Db, rest: seq<Event>, ev: Event, healed: nat, done: bool)
    requires Inv(before) && Healed(db, before.db, rest, healed) && ev.amount > 0
    requires ev.fact !in AppliedFacts(db) && forall k | 0 <= k < |rest| :: rest[k].fact != ev.fact
    requires db' == before.db.(book := db'.book, events := db'.events, facts := db'.facts) &&
        OnlyCredited(before.db.book, db'.book)
    requires var e := EventIdOf(ev);
      if done then e in db'.facts && Standing(db'.facts[e]) && db'.facts == before.db.facts[e := db'.facts[e]]
      else db'.facts == before.db.facts && Unfit(db', ev)
    ensures Healed(db, db', rest + [ev], if done then healed + 1 else healed)
  {
    hide Inv, OnlyCredited, CreditFits, Missing;
    AppliedAfter(before.db, db', ev, done);
    forall k | 0 <= k < |rest| ensures rest[k].fact in AppliedFacts(db') || Unfit(db', rest[k]) {
      if rest[k].fact !in AppliedFacts(db') {
        StillNoRoom(before, db'.book, rest[k].user, rest[k].amount);
      }
    }
    assert ev.fact !in AppliedFacts(before.db);
    MissingOneMore(rest, ev, AppliedFacts(before.db), done);
    assert (rest + [ev])[|rest|] == ev && forall k | 0 <= k < |rest| :: (rest + [ev])[k] == rest[k];
    hide AppliedFacts, Unfit;
  }

  lemma AppliedAfter(db: Db, db': Db, ev: Event, done: bool)
    requires var e := EventIdOf(ev);
      if done then e in db'.facts && Standing(db'.facts[e]) && db'.facts == db.facts[e := db'.facts[e]]
          else db'.facts == db.facts
    requires ev.fact !in AppliedFacts(db)
    ensures AppliedFacts(db') == AppliedFacts(db) + if done then {ev.fact} else {}
    ensures forall e | e in db.facts && !db.facts[e].reverted :: e in db'.facts && !db'.facts[e].reverted
  {
    if done {
      assert EventIdOf(ev).fact == ev.fact;
      forall n | n in AppliedFacts(db) ensures n in AppliedFacts(db') {
        var e :| e in db.facts && !db.facts[e].reverted && e.fact == n;
        assert e in db'.facts && !db'.facts[e].reverted;
      }
    }
  }

  lemma {:induction false} MissingWithout(facts: seq<Event>, applied: set<Nonce>, n: Nonce)
    requires forall k | 0 <= k < |facts| :: facts[k].fact != n
    ensures Missing(facts, applied + {n}) == Missing(facts, applied)
    decreases |facts|
  {
    if facts != [] {
      MissingWithout(facts[..|facts| - 1], applied, n);
    }
  }

  lemma MissingOneMore(rest: seq<Event>, ev: Event, applied: set<Nonce>, done: bool)
    requires ev.fact !in applied && forall k | 0 <= k < |rest| :: rest[k].fact != ev.fact
    ensures |Missing(rest + [ev], applied + if done then {ev.fact} else {})| == |Missing(rest, applied)| + if done
        then 0 else 1
  {
    assert (rest + [ev])[..|rest|] == rest;
    assert applied + {} == applied;
    MissingWithout(rest, applied, ev.fact);
  }

  lemma {:induction false} MissingTwice(facts: seq<Event>, applied: set<Nonce>, later: set<Nonce>)
    requires applied <= later
    ensures Missing(Missing(facts, applied), later) == Missing(facts, later)
    decreases |facts|
  {
    if facts != [] {
      var before, last := Missing(facts[..|facts| - 1], applied), facts[|facts| - 1];
      MissingTwice(facts[..|facts| - 1], applied, later);
      if last.fact !in applied {
        assert (before + [last])[..|before|] == before;
      }
    }
  }

  // The finalised deposits, and so the missing ones, have different facts.
  lemma {:induction false} FactsDiffer(c: Chain, count: nat, i: nat, j: nat)
    requires ChainInv(c) && count <= |c.log| && i < j < |FactsUpTo(c, Deposit, count)|
    ensures FactsUpTo(c, Deposit, count)[i].fact != FactsUpTo(c, Deposit, count)[j].fact
    decreases count
  {
    hide ChainInv;
    var before := FactsUpTo(c, Deposit, count - 1);
    if j < |before| {
      FactsDiffer(c, count - 1, i, j);
    } else {
      var k := FactAt(c, before[i], count - 1);
      FinalFactOnce(c, k, count - 1);
    }
  }

  lemma {:induction false} MissingPicks(facts: seq<Event>, applied: set<Nonce>, i: nat, j: nat) returns (k: nat, l: nat)
    requires i < j < |Missing(facts, applied)|
    ensures k < l < |facts| && facts[k] == Missing(facts, applied)[i] && facts[l] == Missing(facts, applied)[j]
    decreases |facts|
  {
    var before := Missing(facts[..|facts| - 1], applied);
    if j < |before| {
      k, l := MissingPicks(facts[..|facts| - 1], applied, i, j);
    } else {
      l := |facts| - 1;
      k := MissingPick(facts[..l], applied, i);
    }
  }

  lemma {:induction false} MissingPick(facts: seq<Event>, applied: set<Nonce>, i: nat) returns (k: nat)
    requires i < |Missing(facts, applied)|
    ensures k < |facts| && facts[k] == Missing(facts, applied)[i]
    decreases |facts|
  {
    if i < |Missing(facts[..|facts| - 1], applied)| {
      k := MissingPick(facts[..|facts| - 1], applied, i);
    } else {
      k := |facts| - 1;
    }
  }

  lemma MissingDiffer(s: Sys, missing: seq<Event>)
    requires Inv(s) && missing == Missing(FinalizedFacts(s.chain, Deposit), AppliedFacts(s.db))
    ensures forall i, j | 0 <= i < j < |missing| :: missing[i].fact != missing[j].fact
  {
    hide Inv, ChainInv, AppliedFacts;
    PartsOf(s);
    forall i, j | 0 <= i < j < |missing| ensures missing[i].fact != missing[j].fact {
      var k, l := MissingPicks(FinalizedFacts(s.chain, Deposit), AppliedFacts(s.db), i, j);
      FactsDiffer(s.chain, |s.chain.log|, k, l);
    }
  }

  lemma AllCredited(s: Sys, s': Sys, missing: seq<Event>, healed: nat)
    requires Inv(s) && Inv(s') && FactsSettled(s') && s'.chain == s.chain
    requires missing == Missing(FinalizedFacts(s.chain, Deposit), AppliedFacts(s.db))
    requires forall e :: e in missing <==> e in FinalizedFacts(s.chain, Deposit) && e.fact !in AppliedFacts(s.db)
    requires Healed(s.db, s'.db, missing, healed)
    ensures EveryDepositCredited(s') && NotIngested(s) == healed + NotIngested(s')
  {
    hide Inv, ChainInv, FactsSettled, Missing, Moved, AllCalls, CreditFits, FinalizedFacts, AppliedFacts;
    PartsOf(s);
    AppliedStays(s.db, s'.db);
    MissingTwice(FinalizedFacts(s.chain, Deposit), AppliedFacts(s.db), AppliedFacts(s'.db));
    forall n | n in Moved(AllCalls(s.chain.history), Deposit) ensures n in AppliedFacts(s'.db) || NoRoomFor(s', n) {
      var ev := ListedDeposit(s.chain, n);
      if n !in AppliedFacts(s'.db) {
        assert ev in missing;
        var k :| 0 <= k < |missing| && missing[k] == ev;
        assert Unfit(s'.db, ev);
      }
    }
    forall e, e' | e in s'.db.facts && e' in s'.db.facts && e.fact == e'.fact && !s'.db.facts[e].reverted &&
        !s'.db.facts[e'].reverted
      ensures e == e'
    {
      OneStandingCredit(s', e, e');
    }
  }

  lemma ListedDeposit(c: Chain, n: Nonce) returns (ev: Event)
    requires ChainInv(c) && n in Moved(AllCalls(c.history), Deposit)
    ensures ev in FinalizedFacts(c, Deposit) && ev.fact == n
  {
    var i := DepositIsFinalFact(c, n);
    LogFactIsListed(c, i, |c.log|);
    ev := c.log[i];
  }

  lemma AppliedStays(db: Db, db': Db)
    requires forall e | e in db.facts && !db.facts[e].reverted :: e in db'.facts && !db'.facts[e].reverted
    ensures AppliedFacts(db) <= AppliedFacts(db')
  {
    forall n | n in AppliedFacts(db) ensures n in AppliedFacts(db') {
      var e :| e in db.facts && !db.facts[e].reverted && e.fact == n;
      assert e in db'.facts && !db'.facts[e].reverted;
    }
  }

  lemma SameCredits(s: Sys, s': Sys)
    requires s' == s.(db := s.db.(frozen := s'.db.frozen))
    ensures EveryDepositCredited(s) ==> EveryDepositCredited(s')
    ensures NotIngested(s') == NotIngested(s)
  {
    hide Missing, FinalizedFacts, Moved, AllCalls, CreditFits;
    forall n | NoRoomFor(s, n) ensures NoRoomFor(s', n) {
      var ev :| ev in FinalizedFacts(s.chain, Deposit) && ev.fact == n && !CreditFits(s.db.book, ev.user, ev.amount);
      assert ev in FinalizedFacts(s'.chain, Deposit);
    }
  }

  // A confirmation stands in the block it recorded, and that block stays canonical.
  lemma ConfirmedIsCanonical(s: Sys, n: Nonce)
    requires Inv(s) && n in s.db.intents && s.db.intents[n].state == StateConfirmed
    ensures CanonicalHash(s.chain, s.db.intents[n].height) == (s.db.intents[n].hash, true)
  {
    assert TruthfulAbout(s.chain, n);
  }

  /* ----- one pass of the resolver ----- */

  // The pass over a list of intents; `late` are those whose wall-clock deadline has passed.
  ghost function ResolveAll(s: Sys, order: seq<Nonce>, late: set<Nonce>): Sys
  {
    if order == [] then s
    else
      var before, n := ResolveAll(s, order[..|order| - 1], late), order[|order| - 1];
      if n in before.db.intents then Resolve(before, n, n in late) else before
  }

  // No answer along the way ended the pass.
  ghost predicate Smooth(s: Sys, order: seq<Nonce>, late: set<Nonce>)
  {
    if order == [] then true
    else
      var rest, n := order[..|order| - 1], order[|order| - 1];
      var before := ResolveAll(s, rest, late);
      Smooth(s, rest, late) && n in before.db.intents && GoesOn(ResolveAnswer(before, n, n in late))
  }

  // The intents in flight, oldest first.
  ghost predicate IsQueue(db: Db, queue: seq<Nonce>)
  {
    && (forall i | 0 <= i < |queue| :: queue[i] in db.intents && InFlight(db.intents[queue[i]]))
    && (forall n | n in Waiting(db) :: n in queue)
    && (forall i, j | 0 <= i < j < |queue| ::
          queue[i] != queue[j] && db.intents[queue[i]].created <= db.intents[queue[j]].created)
  }

  // A pass visits the first intents of the queue: all of them, or up to the first answer that ends it.
  ghost predicate IsPass(s: Sys, queue: seq<Nonce>, late: set<Nonce>, visits: nat)
  {
    && IsQueue(s.db, queue) && visits <= |queue|
    && (if Smooth(s, queue[..visits], late) then visits == |queue|
        else visits > 0 && Smooth(s, queue[..visits - 1], late))
  }

  // What an intent asks of the ledger when it is visited in this state finds room.
  ghost predicate VisitFits(s: Sys, n: Nonce)
  {
    n in s.db.intents ==>
      && (TxStatus(s.chain, n).finalized ==> ConfirmFits(s.db, n))
      && (RefundDue(s, n) ==> RefundFits(s.db, n))
  }

  // The pass is about to refund this withdrawal.
  ghost predicate RefundDue(s: Sys, n: Nonce)
    requires n in s.db.intents
  {
    !TxStatus(s.chain, n).processed && s.db.intents[n].kind == Withdraw &&
    s.chain.head > s.db.intents[n].expiry && IsExpired(s.chain, n)
  }

  // What ends a pass: a confirmation or a refund that a balance has no room for, and nothing else.
  lemma WhatEndsAPass(s: Sys, n: Nonce, late: bool)
    requires Inv(s) && n in s.db.intents && InFlight(s.db.intents[n])
    ensures !GoesOn(ResolveAnswer(s, n, late)) ==>
        ResolveAnswer(s, n, late) == Refused && Resolve(s, n, late).db == s.db
    ensures GoesOn(ResolveAnswer(s, n, late)) <==> VisitFits(s, n)
  {
    hide Inv, DbInv, Resolve, ResolveAnswer, Confirm, Expire, IsExpired, ConfirmFits, RefundFits, IntentStep,
         ExpiredStep, ConfirmedStep, TruthfulAbout, IntentRow, Shaped, ChainInv;
    var st := TxStatus(s.chain, n);
    PartsOf(s);
    IntentOf(s, n);
    FinalIsProcessed(s.chain, n);
    WithdrawalExpires(s, n);
    AnswerIs(s, n, late);
    if st.finalized {
      ConfirmKeeps(s.db, n, st.height, st.hash);
    } else {
      ExpireKeeps(s.db, n, s.chain.head);
      ExpireRefused(s.db, n, s.chain.head);
    }
  }

  lemma FinalIsProcessed(c: Chain, n: Nonce)
    requires TruthfulAbout(c, n)
    ensures TxStatus(c, n).finalized ==> TxStatus(c, n).processed
  {
  }

  // Which transaction of the store answers.
  lemma AnswerIs(s: Sys, n: Nonce, late: bool)
    requires n in s.db.intents && (s.db.intents[n].kind == Withdraw ==> s.db.intents[n].expiry > 0)
    ensures var answer, st, i := (Resolve(s, n, late).db, ResolveAnswer(s, n, late)), TxStatus(s.chain, n),
        s.db.intents[n];
      if st.processed then answer == if st.finalized then Confirm(s.db, n, st.height, st.hash) else (s.db, Done)
      else if i.kind == Withdraw then
        answer == if s.chain.head > i.expiry && IsExpired(s.chain, n) then Expire(s.db, n, s.chain.head)
            else (s.db, Done)
      else answer == Expire(s.db, n, s.chain.head) || answer == (s.db, Done)
  {
    CancelInForce(s.chain, n, s.db.intents[n].expiry);
    hide Confirm, Expire, CancelNonce, IsExpired;
  }

  lemma WithdrawalExpires(s: Sys, n: Nonce)
    requires Inv(s) && n in s.db.intents
    ensures s.db.intents[n].kind == Withdraw ==> s.db.intents[n].expiry > 0
  {
    hide Inv;
    IntentOf(s, n);
  }

  lemma ExpireRefused(db: Db, n: Nonce, observed: int)
    ensures Expire(db, n, observed).1 == Refused ==> Expire(db, n, observed).0 == db
  {
    hide Move;
  }

  // A cancellation is in force only if the chain says so before it is asked for.
  lemma CancelInForce(c: Chain, n: Nonce, expiry: int64)
    ensures CancelNonce(c, n, expiry).1 ==> IsExpired(c, n) && CancelNonce(c, n, expiry).0 == c
  {
    hide HeadState;
  }

  ghost function Waiting(db: Db): set<Nonce>
  {
    set n | n in db.intents && InFlight(db.intents[n])
  }

  lemma OtherRowKept(s: Sys, m: Nonce, late: bool, n: Nonce)
    requires Inv(s) && m in s.db.intents && InFlight(s.db.intents[m]) && n in s.db.intents && m != n
    ensures n in Resolve(s, m, late).db.intents && Resolve(s, m, late).db.intents[n] == s.db.intents[n]
  {
    assert IntentRow(s.db, m) && DbInv(s.db);
    hide Inv, DbInv, Resolve, Confirm, Expire, IntentRow;
    ResolveOutcome(s, m, late);
    ConfirmKeeps(s.db, m, TxStatus(s.chain, m).height, TxStatus(s.chain, m).hash);
    ExpireKeeps(s.db, m, s.chain.head);
  }

  // Resolving one intent leaves the others in flight.
  lemma OthersKeepWaiting(s: Sys, n: Nonce, late: bool, m: Nonce)
    requires Inv(s) && n in s.db.intents && InFlight(s.db.intents[n]) && m in s.db.intents &&
        InFlight(s.db.intents[m]) && m != n
    ensures m in Resolve(s, n, late).db.intents && InFlight(Resolve(s, n, late).db.intents[m])
  {
    hide Inv, Resolve, Progress, OnlyResolves;
    ResolveProgress(s, n, late);
    StillWaiting(s.db, Resolve(s, n, late).db, n, m);
  }

  lemma StillWaiting(db: Db, db': Db, n: Nonce, m: Nonce)
    requires Progress(db, db') && OnlyResolves(db, db', {n}) && m in db.intents && InFlight(db.intents[m]) && m != n
    ensures m in db'.intents && InFlight(db'.intents[m])
  {
  }
}
