/** The event inbox: the cursor never moves past a sequence number that has not been recorded. */
module Inbox {
  import opened GoVault
  import opened ChainModel
  import opened Ledger
  import opened Store
  import opened StoreInvariants
  import opened System
  import opened SystemInvariants
  import opened SystemRefunds

  // Every sequence number up to the cursor has been recorded.
  ghost predicate Covered(db: Db)
  {
    forall k: nat | 1 <= k <= db.cursor :: Recorded(db, k)
  }

  lemma StillRecorded(db: Db, db': Db, k: nat)
    requires Recorded(db, k) && forall e | e in db.events ::
        e in db'.events && db'.events[e].number == db.events[e].number
    ensures Recorded(db', k)
  {
    var e :| e in db.events && db.events[e].number == k;
    assert db'.events[e].number == k;
  }

  lemma AdvanceCovers(db: Db, number: nat)
    requires Covered(db) && forall k: nat | db.cursor < k <= number :: Recorded(db, k)
    ensures Covered(AdvanceCursor(db, number))
  {
    forall k: nat | 1 <= k <= AdvanceCursor(db, number).cursor ensures Recorded(AdvanceCursor(db, number), k) {
      StillRecorded(db, AdvanceCursor(db, number), k);
    }
  }

  // Recording a copy leaves its number recorded, and loses none.
  lemma RecordCovers(s: Sys, ev: Event)
    requires Inv(s) && CopyOf(s.chain.log, ev)
    ensures var db' := RecordEvent(s.db, ev);
      && Recorded(db', ev.number)
      && (forall k: nat | Recorded(s.db, k) :: Recorded(db', k))
      && (Covered(s.db) ==> Covered(db'))
  {
    hide Inv, Recorded;
    var db', e := RecordEvent(s.db, ev), EventIdOf(ev);
    TiesOf(s);
    if e in s.db.events {
      assert Witnessed(s.chain.log, e, s.db.events[e]);
      SameEventSameNumber(s.chain.log, s.db.events, ev);
    }
    RecordedUnder(db', e, ev.number);
    forall k: nat | Recorded(s.db, k) ensures Recorded(db', k) {
      StillRecorded(s.db, db', k);
    }
  }

  lemma RecordedUnder(db: Db, e: EventId, number: nat)
    requires e in db.events && db.events[e].number == number
    ensures Recorded(db, number)
  {
  }

  // An event id names one sequence number, even once its block is gone.
  lemma SameEventSameNumber(log: seq<Event>, events: map<EventId, EventRow>, ev: Event)
    requires NamedOnce(log) && CopyOf(log, ev) && EventIdOf(ev) in events &&
        Witnessed(log, EventIdOf(ev), events[EventIdOf(ev)])
    ensures events[EventIdOf(ev)].number == ev.number
  {
    var e := EventIdOf(ev);
    var i :| 0 <= i < |log| && (log[i] == ev || log[i] == ev.(kind := Orphaned));
    var i' :| 0 <= i' < |log| && Matches(log[i'], e, events[e]);
    assert i == i';
  }

  // Changing one event's status, or credits only, loses no recorded number.
  lemma StatusCovers(db: Db, db': Db, e: EventId)
    requires Covered(db) && db'.cursor == db.cursor && e in db.events && e in db'.events
    requires db'.events == db.events[e := db.events[e].(status := db'.events[e].status)]
    ensures Covered(db')
  {
    forall k: nat | 1 <= k <= db'.cursor ensures Recorded(db', k) {
      StillRecorded(db, db', k);
    }
  }

  /* ----- every step ----- */

  // Recorded events keep their numbers, and the cursor stays.
  ghost predicate InboxKept(db: Db, db': Db)
  {
    && db'.cursor == db.cursor
    && forall e | e in db.events :: e in db'.events && db'.events[e].number == db.events[e].number
  }

  lemma KeptCovers(db: Db, db': Db)
    requires Covered(db) && InboxKept(db, db')
    ensures Covered(db')
  {
    forall k: nat | 1 <= k <= db'.cursor ensures Recorded(db', k) {
      StillRecorded(db, db', k);
    }
  }

  predicate SameInbox(db: Db, db': Db)
  {
    db'.events == db.events && db'.cursor == db.cursor
  }

  lemma UserStepInbox(s: Sys, step: Step)
    requires Allowed(s, step)
    requires step.RequestsWithdraw? || step.Opens? || step.Closes? || step.PostsOutside?
    ensures SameInbox(s.db, Next(s, step).db)
  {
    hide RequestWithdraw, OpenPosition, ClosePosition, PostOutside;
    match step {
      case RequestsWithdraw(id, user, amount, request, expiry) => RequestFrame(s.db, id, user, amount, request, expiry);
      case Opens(id, user, market, side, size, request) => OpenFrame(s.db, id, user, market, side, size, request);
      case Closes(id, mark, liquidation) => CloseFrame(s.db, id, mark, liquidation);
      case PostsOutside(text, user, credit) => OutsideFrame(s.db, text, user, credit);
    }
  }

  lemma FactStepInbox(db: Db, e: EventId)
    ensures InboxKept(db, ApplyDeposit(db, e).0) && InboxKept(db, RevertFact(db, e).0)
  {
    hide ApplyDeposit, RevertFact;
    CreditFrame(db, e);
    RevertFrame(db, e);
  }

  lemma ResolveInbox(s: Sys, n: Nonce, deadlinePassed: bool)
    requires Inv(s) && n in s.db.intents && InFlight(s.db.intents[n])
    ensures SameInbox(s.db, Resolve(s, n, deadlinePassed).db)
  {
    hide Inv, DbInv, Resolve, Confirm, Expire;
    PartsOf(s);
    IntentOf(s, n);
    ResolveOutcome(s, n, deadlinePassed);
    ConfirmKeeps(s.db, n, TxStatus(s.chain, n).height, TxStatus(s.chain, n).hash);
    ExpireKeeps(s.db, n, s.chain.head);
  }

  lemma StepCovers(s: Sys, step: Step)
    requires Inv(s) && Allowed(s, step) && Covered(s.db)
    ensures Covered(Next(s, step).db)
  {
    hide Inv, Covered, InboxKept;
    if step.Records? {
      hide RecordEvent;
      CopyFrom(s, step.copy);
      RecordCovers(s, step.copy);
    } else if step.Advances? {
      AdvanceCovers(s.db, step.number);
    } else {
      hide Next, Allowed;
      OtherStepInbox(s, step);
      KeptCovers(s.db, Next(s, step).db);
    }
  }

  lemma OtherStepInbox(s: Sys, step: Step)
    requires Inv(s) && Allowed(s, step) && !step.Records? && !step.Advances?
    ensures InboxKept(s.db, Next(s, step).db)
  {
    hide Inv;
    if step.Resolves? {
      hide Resolve, Next;
      ResolveStepInbox(s, step);
    } else if step.Applies? || step.Reverts? {
      hide ApplyDeposit, RevertFact, InboxKept;
      FactStepInbox(s.db, step.event);
    } else if step.RequestsWithdraw? || step.Opens? || step.Closes? || step.PostsOutside? {
      hide Next;
      UserStepInbox(s, step);
    } else {
      hide Next;
      QuietStepInbox(s, step);
    }
  }

  lemma ResolveStepInbox(s: Sys, step: Step)
    requires Inv(s) && Allowed(s, step) && step.Resolves?
    ensures InboxKept(s.db, Next(s, step).db)
  {
    hide Inv, Resolve;
    ResolveInbox(s, step.intent, step.deadlinePassed);
  }

  lemma QuietStepInbox(s: Sys, step: Step)
    requires Allowed(s, step) && !step.Records? && !step.Resolves? && !step.Applies? && !step.Reverts? &&
        !step.Advances?
    requires !step.RequestsWithdraw? && !step.Opens? && !step.Closes? && !step.PostsOutside?
    ensures InboxKept(s.db, Next(s, step).db)
  {
    hide Mine, SubmitTx, HeadState, CollateralIn, OrphanedBlock, EscrowInFlight;
  }

  // In every reachable state, after any faults, crashes and reorderings, every sequence number up
  // to the cursor is in the inbox.
  lemma {:induction false} CursorNeverSkips(s: Sys, steps: seq<Step>)
    requires Inv(s) && Covered(s.db) && IsTrace(s, steps)
    ensures Covered(Final(s, steps).db)
    decreases |steps|
  {
    hide Inv, Covered, Next;
    if steps != [] {
      StepKeeps(s, steps[0]);
      StepCovers(s, steps[0]);
      CursorNeverSkips(Next(s, steps[0]), steps[1..]);
    }
  }
}
