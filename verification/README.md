# Prediction-margin reconciler: a verified model

The system keeps users' money in two places. A vault contract on a hostile chain holds custody;
a double-entry ledger off chain decides who owns it. The chain loses receipts, reorders and repeats
events, and takes back blocks that are not final yet. Between the two stand idempotent workers
(outbox, inbox, resolver, escrow worker) and a reconciler that claims every unit of difference
between ledger and vault is explained.

This project models that system in three layers and joins them in one step relation.

1. **Vault and chain.** `go_vault.dfy` and `rust_vault.dfy` hold the two implementations of the
   contract, `differential.dfy` the replay of one's history through the other and `trace_text.dfy` the
   text it travels as. The balance of the first has 64 bits, that of the second is unbounded here.
   `chain_model.dfy` is the simulator as functions, `sim.dfy` the simulator as the object it is,
   `chain_blocks.dfy` and `chain_invariants.dfy` what every call keeps, `deposits.dfy` the conservation
   of deposits, `refunds.dfy` the exact safety of refunds.
2. **Ledger, intents, positions.** `accounts.dfy`, `ledger.dfy` and `locks.dfy` hold account codes,
   posting and its lock order; `margin.dfy` and `prices.dfy` the truncated fixed-point arithmetic;
   `store.dfy` every database transaction as a function, `store_invariants.dfy` what each keeps, and
   `database.dfy` the same transactions statement by statement on tables updated in place.
   `integers.dfy` holds 64-bit wrap-around, `payouts.dfy` what positions cost and pay in plain numbers,
   `open_positions.dfy` who holds which, `markets.dfy` the life of a market, and `requests.dfy` what
   freezes and request keys mean over whole runs.
3. **Workers and reconciler.** `system.dfy` is the state machine of all committed transactions and
   chain calls, `system_invariants.dfy` its invariant, `residue.dfy` the reconciliation identity,
   `system_refunds.dfy` its consequences for refunds, `early_refund.dfy` a run in which the engine
   pays twice, `inbox.dfy` the event cursor, `resolution.dfy` the bound on settling withdrawals,
   `headroom.dfy` the room in the ledger that bound needs and `blocked_pass.dfy` a run that lacks it,
   `system_replay.dfy` the differential test over whole runs and `exported_file.dfy` the same through
   the text of the file, `app.dfy`, `escrow.dfy` and `escrow_worker.dfy` the loops of the workers.
   `escrow_resolution.dfy` and `escrow_convergence.dfy` say what becomes of an escrow instruction and
   how ledger and vault draw together. `sums.dfy` holds sums over tables.

The main results, in order of weight:

- **The residue is exact** (`Residue.ResidueIsExact`, `Engine.App.Reconcile`). In every reachable
  state, once provisional credits are settled, what the three terms leave unexplained equals the
  money posted from outside the protocol plus the refunded withdrawals the chain paid anyway. No
  hypothesis on faults is made, and the report computes that number to 64 bits. After a
  reconciliation every finalised deposit has exactly one standing credit, or no room for it in 64
  bits.
- **Paid or refunded, never both** (`SystemRefunds.PaidOrRefundedNeverBoth`), under hypothesis R
  below; then the residue is the outside money alone, and zero on every legitimate run
  (`SystemRefunds.EveryUnitIsExplained`).
- **When a refund is safe** (`Refunds.RefundSafetyIsExact`): an if-and-only-if.
- **The two contracts agree** on every finalised history of every run, up to the 64 bits of the
  simulator's balance: no call is refused, and the tool finds a mismatch exactly when the custody
  built up by then exceeds 2^63 - 1 (`SystemReplay.EveryRunReplays`, and through the text of the file
  `ExportedFile.ExportedFileReplays`).
- **The books stay sound** under a transfer exactly when its true sums fit 64 bits
  (`Ledger.PostKeepsSound`); two transfers that the store accepts and that break them are given.
- **Withdrawals settle** by expiry plus max(confirmations, 2) if, in every pass, the intents older
  than the withdrawal and the withdrawal itself find room in the balances they move
  (`Resolution.WithdrawalsResolve`; `Resolution.ServedIfClear` says that a pass serves the withdrawal
  only then). They do when all that users hold, and what the settlements due by then can pay out,
  fits 64 bits (`Headroom.WithdrawalsResolveInRoom`). Without room the bound fails, and for good
  (`BlockedPass.WithdrawalBlockedForEver`).
- **Money moves as stated**: what a close, a liquidation and a settlement pay, in plain quotients
  (`Payouts.ClosePays`, `Payouts.SettlementPays`), with opposite trades breaking even
  (`Payouts.OppositeTradesBreakEven`).
- **Escrow converges**: an instruction ends by its bound (`EscrowResolution.InstructionsResolve`), a gap
  that stands is instructed anew (`EscrowConvergence.LostInstructionIsReplaced`), and a final
  instruction leaves its level in the vault (`EscrowConvergence.InstructionClosesTheGap`).
- **A halt halts everybody** until it is lifted (`Requests.HaltedSystemTakesNothingIn`), and a request
  key answers for its own request for ever (`Requests.UsedKeyAnswers`).
- **The truthful tier is truthful** through any reorgs (`ChainInvariants.EveryRunKeeps`), and what is
  final stays (`ChainInvariants.FinalityIsForever`).

## Hypothesis R

The engine refunds a withdrawal on head state: head is past the expiry height and the contract, as of
head, has refused the nonce (internal/app/app.go:387-408). Head can move back in a reorg, and then the
withdrawal can still land. R says that no reorg takes head below the expiry height of a withdrawal
that has already been refunded (`SystemRefunds.KeepsRefunds`). It holds in every run without reorgs
and whenever finality has reached the expiry (`SystemRefunds.FinalityGivesR`).

The code does not ensure R. `EarlyRefund.EngineRefundsTooEarly` gives, for any user, amount and intent,
a run of the whole system from genesis with the default of three confirmations: the withdrawal is
requested with its expiry ten blocks ahead, its cancellation is mined and the resolver refunds it, a
reorg takes the cancellation back, and the withdrawal lands at its expiry height and becomes final.
`Refunds.RefundSafetyIsExact` gives the exact condition: never paid on any continuation if and
only if finality has reached the expiry height or the cancellation is itself final. Without R the
reconciliation identity still says to the unit what happens: the second payment is the residue.

## Reading the model

- One step is one committed database transaction or one chain call, so a crash is a run that stops
  between two steps. The harness runs workers one at a time (internal/app/app.go:3-7); accordingly one
  pass of the resolver over one intent, reads and transaction, is one step. The guards of promotions,
  compensations and confirmations are stable, so those steps need no such assumption; and the inbox
  writes down the copies it polled, so mining may come between the poll and the write.
- Randomness is a choice: fates of submissions, which events a poll withholds or repeats, depth and
  order of a reorg. Block hashes, intent ids and position ids are fresh; ids are numbers, and id order
  is numeric order.
- Idempotency keys and account codes are injective datatypes. For codes this is proved
  (`Accounts.CodesNameAccounts`); keys are derived from ids that are fresh.
- Amounts, legs, sizes, prices and collateral are 64-bit values. The balance check of a transfer, its
  net changes and the margin arithmetic wrap as the source's do, and an update that would take a
  cached balance out of its 64-bit column fails. So every transaction that moves money can be refused
  for want of room, and each says exactly when. `Refused` stands for every error of the ledger.
  The simulator's custody and the sums of the reports wrap as well; `TrueCustody` and `FinalCustody`
  are the numbers they stand for.
- The number of intents a store held when an intent was inserted, its rank, stands for its time of
  creation, by which the resolver orders its queue.
- Division truncates toward zero, as in the source. The plain numbers of `payouts.dfy` are for positions
  of up to `Margins.LARGEST_SAFE_SIZE`, the exact size up to which the program's products do not wrap
  at any price (`Margins.LargestSafeSize`); larger ones pay what the wrapped products say.
- Where documentation and code differ the code is followed. The comment at
  internal/chain/sim.go:530-532 says a reorg rebuilds the dropped blocks; the code drops them and mines
  one new block (internal/chain/sim.go:472-552).
  The comment at internal/core/ledger.go:98 says that a transfer's balance is enforced when it is
  written; in 64 bits it is enforced modulo 2^64 (`Ledger.BalanceCheckIsExact`).
- Outbox scheduling is over-approximated: any stored payload may be submitted at any time.
- A deposit event may be credited whether or not its block is still canonical, as the inbox may be
  late; the next pass over provisional credits compensates it.

## Model

| member | source | states |
|---|---|---|
| `GoVault.Contract.ApplyTx` | internal/chain/sim.go:184-247 | the contract, in place, in 64-bit arithmetic: dedupe before expiry, permanent and transient refusals, and the new storage for every kind of call |
| `GoVault.Contract.EscrowTotal` | internal/chain/sim.go:164-170 | the sum over all escrow entries as 64 bits hold it, whatever order the map is walked in |
| `GoVault.Contract.FreeFunds` | internal/chain/sim.go:174-174 | custody not earmarked for any market, both subtractions in 64 bits |
| `GoVault.Contract.Clone` | internal/chain/sim.go:143-162 | an independent copy with equal storage |
| `GoVault.HistoryDecides` | internal/chain/sim.go:176-247 | an accepted history decides the storage: a nonce is processed iff a non-cancel call for it landed, cancelled iff it was cancelled, never both |
| `GoVault.OncePerNonce` | internal/chain/sim.go:185-190 | no two accepted calls of a history share a nonce |
| `GoVault.RepeatIsNoOp` | internal/chain/sim.go:178-190 | repeating an executed call anywhere later, at any height, leaves the end state unchanged |
| `GoVault.RunKeepsSound` | internal/chain/sim.go:172-247 | after every call sequence with non-negative targets the balance is what 64 bits hold of the true custody, escrow stays within the true custody even when the balance has wrapped, settled markets hold none, no entry is zero, processed and cancelled are disjoint |
| `GoVault.EscrowWithinBalance` | internal/chain/sim.go:164-174 | as long as the true custody fits 64 bits the balance is the true custody and escrow is within the balance |
| `GoVault.TakenIffCovered` | internal/chain/sim.go:184-247 | while custody fits 64 bits a call is accepted iff it is timely, makes sense, and custody covers what it would pay out or the escrow there would be; the transient refusal is exactly for what is right but not covered, and every other refusal is for good |
| `GoVault.BalanceIsDepositsMinusPayouts` | internal/chain/sim.go:195-209 | the true custody is the accepted deposits less the accepted withdrawals, counted nonce by nonce, and the 64-bit balance is that number wrapped |
| `RustVault.Vault.Execute` | contracts/vault/src/lib.rs:201-301 | the contract in Rust: the result and the whole new storage of every call, receipts included |
| `RustVault.Vault.CheckInvariants` | contracts/vault/src/lib.rs:304-317 | `check` holds exactly when escrow is within custody, no entry is zero and no settled market holds escrow |
| `RustVault.Vault.EscrowTotal` | contracts/vault/src/lib.rs:152-154 | the sum of all escrow entries |
| `RustVault.Vault.Advance` | contracts/vault/src/lib.rs:181-183 | one block higher, nothing else changed; what this does to every outcome is in `RustVault.RepeatIsNoOp` |
| `RustVault.ExecKeepsSound` | contracts/vault/src/lib.rs:201-317 | every call, accepted or not, keeps the invariants the contract asserts and keeps processed and cancelled apart |
| `RustVault.ExecRecords` | contracts/vault/src/lib.rs:204-214 | an accepted call consumes exactly its own nonce; a refused one changes nothing |
| `RustVault.TakenIffCovered` | contracts/vault/src/lib.rs:189-301 | the same of the Rust contract, with every error tied to the first condition that fails |
| `RustVault.ReceiptTells` | contracts/vault/src/lib.rs:281-301 | the receipt says when the call was executed, what it paid out, and how custody then divides into free and earmarked; each user's deposits grow by that user's deposit alone |
| `RustVault.HistoryDecides` | contracts/vault/src/lib.rs:204-214 | over a whole run from the new vault: a nonce is processed iff a call for it was accepted, cancelled iff its cancellation was, never both |
| `RustVault.OncePerNonce` | contracts/vault/src/lib.rs:189-214 | two accepted calls of a run never share a nonce, whatever lies between them |
| `RustVault.BalanceIsDepositsMinusPayouts` | contracts/vault/src/lib.rs:220-239 | custody equals what the accepted deposits of a run paid in less what its accepted withdrawals paid out; the deposits by user and the receipts say the same |
| `RustVault.RepeatIsNoOp` | contracts/vault/src/lib.rs:189-211 | an executed call repeated anywhere later, across any number of blocks, leaves the end state unchanged |
| `Differential.Replay` | contracts/vault/src/bin/replay.rs:31-170 | the replay tool: advance, execute, check after every line, then compare; its verdict and its count of refusals |
| `Differential.AdvanceBlocks` | contracts/vault/src/bin/replay.rs:25-29 | the vault is moved up to the recorded height and never down |
| `Differential.Compare` | contracts/vault/src/bin/replay.rs:134-160 | an expectation is met exactly when the stored number equals it |
| `Differential.AgreementMeans` | contracts/vault/src/bin/replay.rs:125-170 | the tool agrees iff it refused nothing, compared something, and everything compared was met |
| `Differential.NeverMovedDown` | contracts/vault/src/bin/replay.rs:25-29 | the vault's height becomes the larger of its own and the recorded one, and nothing else changes |
| `Differential.Mirror` | contracts/vault/src/lib.rs:201-301 | at equal height and storage, the balance up to 64 bits, the two contracts accept the same calls and end in the same storage, for every call the simulator accepts and every call at all while custody fits 64 bits |
| `Differential.FinalisedHistoryReplays` | internal/chain/sim.go:514-526 | the exported history of any chain replays through the Rust contract with zero refusals into equal escrow, settled, processed and cancelled sets and the true custody; the tool agrees iff that custody fits the simulator's 64-bit balance, and reports a mismatch otherwise |
| `Differential.LargeDepositsDiverge` | internal/chain/sim.go:195-200 | two accepted deposits of 2^62: the simulator ends with a balance of minus 2^63, the Rust contract with 2^63, nothing is refused, and the tool reports a mismatch |
| `Differential.OutcomesReplay` | contracts/vault/src/lib.rs:264-277 | every settlement of an exported history stands in the Rust contract with its outcome after the replay |
| `SystemReplay.EveryRunReplays` | contracts/vault/src/bin/replay.rs:1-16 | the same, with the same condition, for every run of the whole system, with nothing assumed about the calls |
| `SystemReplay.SettledOutcomesReplay` | contracts/vault/src/bin/replay.rs:51-123 | in every run, a market the ledger has settled is settled in the replayed Rust contract, with the outcome the ledger has paid by |
| `TraceText.LineRoundTrip` | contracts/vault/src/bin/replay.rs:51-123 | a printed line reads back as the same line iff the name in it is a single non-empty word; in an expectation the name may even be empty |
| `TraceText.FieldsInOrder` | internal/chain/sim.go:311-367 | a printed call holds its tag, nonce, name, number, expiry and height in this order |
| `TraceText.FileRoundTrip` | internal/chain/sim.go:311-367 | the whole exported file reads back as exactly the lines written iff every name in it fits |
| `ExportedFile.ExportedFileReplays` | contracts/vault/src/bin/replay.rs:31-170 | for every run of the whole system, the text of the exported file reads back as the exported lines iff every user and market of the finalised history is one non-empty word; replaying what was read then refuses nothing, ends in the same storage, and agrees iff custody fits 64 bits |
| `Sim.Simulator.constructor` | internal/chain/sim.go:292-305 | the empty chain; a non-positive confirmation count becomes two |
| `Sim.Simulator.HeadLocked` | internal/chain/sim.go:388-396 | the executing state is final state plus every pending block replayed in order |
| `Sim.Simulator.Deposit` | internal/chain/sim.go:403-410 | a numbered deposit enters the mempool |
| `Sim.Simulator.Submit` | internal/chain/sim.go:421-443 | the three outcomes of a submission and the checks before them; what each reply tells is `ChainInvariants.RepliesAreTruthful` |
| `Sim.Simulator.Cancel` | internal/chain/sim.go:450-469 | when a cancellation is in force, impossible, already queued or queued now; what the answer tells is `ChainInvariants.CancelTells` |
| `Sim.Simulator.Mine` | internal/chain/sim.go:472-528 | one block after an optional reorg, then finality; the trace holds every finalised call in order |
| `Sim.Simulator.ReorgLocked` | internal/chain/sim.go:533-552 | dropped blocks lose hash and receipts, their events are marked, their transactions return shuffled in front of the mempool |
| `Sim.Simulator.FinaliseOldest` | internal/chain/sim.go:514-526 | the oldest block moves into final state, its calls into the trace, its receipts become final |
| `Sim.Simulator.PollEvents` | internal/chain/sim.go:559-582 | a batch is a reordering of the live events after the cursor, up to the limit, less the withheld and with the doubled ones |
| `Sim.PollIsBounded` | internal/chain/sim.go:559-582 | a poll never exceeds its limit by more than one event |
| `Sim.PollIsComplete` | internal/chain/sim.go:559-582 | until it reaches its limit a poll holds every live event after the cursor that is not withheld, twice if it is doubled, and no other |
| `Sim.Simulator.TxStatus` | internal/chain/sim.go:585-589 | the stored receipt, or the empty one; what a receipt means in every run is `ChainInvariants.EveryRunKeeps` |
| `Sim.Simulator.CanonicalHash` | internal/chain/sim.go:653-658 | the current block hash at a height, or none; that it is the canonical block's in every run is `ChainInvariants.EveryRunKeeps` |
| `Sim.Simulator.Expired` | internal/chain/sim.go:592-604 | true exactly when the nonce has not landed and its refusal or cancellation is on record |
| `Sim.Simulator.FinalFacts` | internal/chain/sim.go:615-628 | the finalised facts of a kind, read from chain state alone |
| `Sim.Simulator.SetFaults` | internal/chain/sim.go:375-382 | a non-positive confirmation count keeps the old one, so the count stays positive in every run, as `ChainInvariants.EveryRunKeeps` needs |
| `Sim.Shuffle` | internal/chain/sim.go:550-550 | a shuffle keeps every element with its multiplicity |
| `ChainInvariants.HeadIsFullReplay` | internal/chain/sim.go:386-396 | the executing state equals the replay of the whole canonical chain from the empty vault, with every stored transaction accepted again |
| `ChainInvariants.MineKeeps` | internal/chain/sim.go:472-552 | mining, with or without a reorg, keeps heights contiguous, receipts and hashes truthful, events marked, and only appends to finalised history |
| `ChainInvariants.EveryRunKeeps` | internal/chain/sim.go:585-658 | after any mix of calls a receipt is processed iff its nonce sits in a canonical block, with that height and hash, and final iff that block is |
| `ChainInvariants.FinalityIsForever` | internal/chain/sim.go:530-552 | final receipts and hashes at or below the finalised height never change on any continuation |
| `ChainInvariants.RepliesAreTruthful` | internal/chain/sim.go:412-443 | a submission hears that it is queued iff the call entered the mempool and its receipt came back; a lost receipt sounds like a dropped submission; a call enters iff it is not dropped and can still execute |
| `ChainInvariants.CancelTells` | internal/chain/sim.go:445-469 | a cancellation is reported in force iff the contract has recorded it, and is queued iff the call has not landed, is past its expiry, and none is queued yet |
| `ChainBlocks.RejectionsSpare` | internal/chain/sim.go:486-495 | a rejection never overwrites the receipt of a nonce that has landed |
| `ChainBlocks.IncludedAccepted` | internal/chain/sim.go:483-495 | the transactions put in a block are accepted again when the block is replayed |
| `ChainBlocks.RefusalIsFiled` | internal/chain/sim.go:483-495 | a refusal for good is put on record with its reason; a refusal for now and the repetition of a landed call leave no trace |
| `Deposits.NoDepositDropped` | internal/chain/sim.go:483-495 | executing the mempool drops no deposit |
| `Deposits.ReorgConserves` | internal/chain/sim.go:533-552 | a reorg moves transactions between blocks and mempool and loses none |
| `Deposits.DepositsConserved` | internal/chain/sim.go:403-410 | for every weighting of deposits, what was issued equals what mempool, pending blocks and history hold together |
| `Deposits.DepositInExactlyOnePlace` | internal/chain/sim.go:472-552 | from genesis an issued positive deposit is in exactly one of the three places, and the issued total is their sum |
| `Refunds.RefundSafetyIsExact` | internal/app/app.go:387-408 | an unpaid withdrawal can never be paid on any continuation iff finality has reached its expiry height or its cancellation is final |
| `Refunds.WaitingForFinalityIsSafe` | internal/app/app.go:75-78 | a withdrawal that has not landed when head is the confirmation count past its expiry is never paid on any continuation |
| `EarlyRefund.EngineRefundsTooEarly` | internal/app/app.go:382-408 | for any user, amount and intent a legitimate run of the whole system with three confirmations, in which the engine requests, cancels and refunds and the chain then pays: the intent is expired, its payment final, and the residue is the amount |
| `Accounts.CodesNameAccounts` | internal/core/ledger.go:15-53 | no two accounts share a code, whatever a user id contains, and the code alone tells whether the account is custody |
| `Accounts.CodesAre` | internal/core/ledger.go:15-53 | the code of every account, spelled out |
| `Accounts.Sort` | internal/core/ledger.go:135-135 | the same codes in strictly ascending text order |
| `Ledger.Tables.PostTx` | internal/core/ledger.go:89-185 | the outcome of a transfer and, when it posts or replays, the whole new ledger; the sum and the net changes wrap at 64 bits, and of several failing accounts the first in lock order decides the error |
| `Ledger.Tables.Post` | internal/core/ledger.go:77-84 | the same in a transaction of its own: an error rolls everything back |
| `Ledger.Tables.LockList` | internal/core/ledger.go:124-135 | each account of the legs once, in lock order |
| `Ledger.Tables.WriteEntries` | internal/core/ledger.go:149-162 | one entry per non-zero leg, and the net change per account in wrapping 64-bit arithmetic |
| `Ledger.Tables.UpdateBalances` | internal/core/ledger.go:163-183 | stops at the first account, in order, whose new balance leaves the 64-bit column or drives custody negative, and says which; otherwise adds the net changes |
| `Ledger.Tables.FindKey` | internal/core/ledger.go:112-118 | the one transfer that used the key |
| `Ledger.Tables.InternalTotal` | internal/core/ledger.go:209-217 | the sum of all balances but the external one |
| `Ledger.InternalIsMinusExternal` | internal/core/ledger.go:209-217 | the internal total is minus the external balance |
| `Ledger.PostKeepsSound` | internal/app/verify.go:50-152 | a post keeps cached balances equal to entry sums, transfers balanced, custody non-negative, balances within 64 bits and keys unique iff its true total and the true net change of every account fit 64 bits; one that does not post changes nothing |
| `Ledger.PostsKeepSound` | internal/app/verify.go:50-152 | any sequence of transfers whose sums fit keeps the books sound |
| `Ledger.LogOnlyGrows` | internal/core/schema.sql:20-21 | transfers and entries are only ever appended, for any book and any transfers |
| `Ledger.EntriesAreTheLegs` | internal/core/ledger.go:149-162 | the entries of a transfer are exactly its non-zero legs |
| `Ledger.PayerDecides` | internal/core/ledger.go:124-183 | when the paying account is locked first, too little money is reported as such, whatever room the other account has |
| `Ledger.ReplayIsNoOp` | internal/core/ledger.go:107-119 | a used key answers with the same transfer for ever and moves nothing, after posts of any kind on any book |
| `Ledger.BalanceCheckIsExact` | internal/core/ledger.go:93-100 | the check in 64-bit arithmetic accepts exactly the transfers whose true total is a multiple of 2^64 |
| `Ledger.UnbalancedSlipsThrough` | internal/core/ledger.go:93-100 | two legs of the smallest 64-bit number are posted on the opening books and leave them unsound |
| `Ledger.RepeatedLegsSlipThrough` | internal/core/ledger.go:155-183 | a balanced transfer with repeated accounts, whose net changes wrap, makes a user who holds nothing pay nearly 2^64 and end up with a balance of two |
| `Locks.PostsWaitInOrder` | internal/core/ledger.go:122-148 | key, then the two inserts of each account, then balance rows: the waits of a post are in one global order |
| `Locks.PostsNeverDeadlock` | internal/core/ledger.go:122-124 | for any number of concurrent posts and any schedule, while one is unfinished some unfinished one can move |
| `Locks.SchedulesAreFinite` | internal/core/ledger.go:102-148 | a schedule has at most as many moves as there are waits and ends |
| `Locks.UnsortedPostsDeadlock` | internal/core/ledger.go:122-135 | without the sorted order two posts over two accounts can block each other for good |
| `Margins.PnlIsBounded` | internal/core/market.go:41-56 | profit and loss lie between minus the worst case at entry and the other side's worst case |
| `Margins.SidesCancel` | internal/core/market.go:50-56 | long and short of one trade cancel exactly, truncation included |
| `Margins.WorstCasesSplitTheNotional` | internal/core/market.go:41-48 | the two worst cases add up to the size, less one micro-unit exactly when the price does not divide it |
| `Margins.FreshPositionIsSafe` | internal/core/market.go:159-159 | a position is not at risk at the price it was opened at |
| `Margins.OpenedPositionIsSafe` | internal/core/market.go:39-60 | the same of the program's wrapping arithmetic, for a position of any size that can be opened |
| `Margins.InsuranceOutlayIsBounded` | internal/core/market.go:218-225 | a close costs the insurance fund at most the other side's worst case and never pays a negative amount |
| `Margins.CushionGrowsWithTheMark` | internal/core/market.go:242-269 | as the mark moves in the position's favour equity less required margin falls by at most one micro-unit |
| `Margins.CushionCanShrinkByOne` | internal/core/market.go:242-269 | that one micro-unit does occur |
| `Margins.LargestSafeSize` | internal/core/market.go:39-60 | no intermediate overflows at any price, and the program computes the exact numbers at every price, iff the size is at most the largest 64-bit number over one million |
| `Payouts.OpeningTakesAQuarter` | internal/core/market.go:39-60 | for every safe size opening takes a quarter of what the position can lose, and the position is at risk iff less than fifteen percent of what it can still lose is left |
| `Payouts.PayoutIsDue` | internal/core/market.go:209-226 | for every safe size a close pays the collateral with the gain or less the loss, both rounded down, less two percent of the collateral when it is a liquidation, and never less than nothing; a settlement the same without the penalty |
| `Payouts.ClosePays` | internal/core/market.go:184-240 | a close changes the balances by exactly that: margin loses the collateral, the user gets what is due, the insurance fund the rest, and nobody else moves |
| `Payouts.LiquidationCosts` | internal/core/market.go:211-219 | a liquidation pays two percent of the collateral less than a close at the same mark, as far as there is that much, and the insurance fund has the difference |
| `Payouts.OppositeTradesBreakEven` | internal/core/market.go:50-56 | two opposite equal trades closed at one mark, neither capped, return both collaterals to the micro-unit, each side getting what the other loses, and cost the insurance fund nothing |
| `Payouts.SettlementPays` | internal/core/market.go:274-330 | a settlement gives every user the sum of what is due to that user's open positions of safe size in the market at the outcome, and the insurance fund the rest of the collateral |
| `Prices.PricesHold` | internal/core/market.go:62-79 | in every run marks stay prices, outcomes are zero or one, and each position carries the collateral the program computed at its entry price, wrap-around of oversized positions included |
| `Prices.MarksAreClamped` | internal/core/market.go:69-79 | a new mark is the nearest price between 0.001 and 0.999, taken only while the market is open |
| `Prices.SettlementOutlayIsCovered` | internal/core/market.go:274-330 | settling a market costs the insurance fund at most the summed risks of its positions: the opposite side's worst case, or for an oversized position the largest number a product can come out as |
| `Postgres.Database.RequestWithdraw` | internal/core/intent.go:58-128 | reservation, intent row, request key and outbox row together or not at all; replays, conflicts and freezes, as `Requests.NewKeyAnswers` and `Requests.UsedKeyAnswers` spell out |
| `Postgres.Database.RequestSettlement` | internal/core/intent.go:132-181 | at most one settlement per market, replayed only for the same outcome; not found when the key belongs to a withdrawal |
| `Postgres.Database.RequestEscrowSet` | internal/core/intent.go:400-442 | a new instruction unless one is in flight for the market; that its payload carries the level is part of the invariant (`EscrowConvergence.FinalInstructionStands`) |
| `Postgres.Database.Confirm` | internal/core/intent.go:198-251 | the payout or the settlement, then the state, height and hash; any failure rolls everything back |
| `Postgres.Database.Expire` | internal/core/intent.go:256-304 | a refund only past the expiry height; a settlement is only re-armed |
| `Postgres.Database.OpenPosition` | internal/core/market.go:120-182 | collateral, computed with the source's wrap-around, out of available into margin and a position row, or one of the refusals; when it opens is `OpenPositions.OpensIff` |
| `Postgres.Database.ClosePosition` | internal/core/market.go:187-240 | the payout in wrapping arithmetic, capped at zero, the liquidation penalty, the insurance leg and the final state; what that pays in plain numbers is `Payouts.ClosePays` |
| `Postgres.Database.SettleMarketTx` | internal/core/market.go:274-330 | every open position paid out in id order, then the market closed; or the first failure; what that pays in plain numbers is `Payouts.SettlementPays` |
| `Postgres.Database.ApplyDeposit` | internal/core/inbox.go:95-124 | the credit, the fact row and the event status together |
| `Postgres.Database.RevertFact` | internal/core/inbox.go:269-323 | clawback, insurance shortfall, compensation, freeze |
| `StoreInvariants.MoveIs` | internal/core/ledger.go:89-185 | a balanced keyed move whose net changes fit 64 bits succeeds iff every new balance fits its column and no custody account is overdrawn, and then moves exactly its legs; under a used key it is a no-op |
| `StoreInvariants.RequestWithdrawOutcome` | internal/core/intent.go:58-128 | a request succeeds iff the amount is positive, the key new, neither the user nor the system frozen, the funds available and the pending balance has room |
| `StoreInvariants.RequestWithdrawKeeps` | internal/core/intent.go:53-57 | a request keeps the books sound, `external` explained and every reservation backed |
| `StoreInvariants.ReservationCovers` | internal/core/intent.go:346-349 | a user's pending balance covers each of the user's withdrawals in flight |
| `StoreInvariants.ConfirmWithdrawal` | internal/core/intent.go:217-231 | confirming a withdrawal in flight moves its reservation to `external`, nothing else; it is refused, whole, iff that balance would leave 64 bits |
| `StoreInvariants.ExpireWithdrawal` | internal/core/intent.go:272-287 | a refund past expiry returns the reservation to its user, and is refused iff that balance would leave 64 bits; before expiry nothing happens |
| `StoreInvariants.ConfirmKeeps` | internal/core/intent.go:198-251 | confirming any intent in flight changes only that intent, its market and the payouts; it is refused, whole, iff something it moves does not fit |
| `StoreInvariants.ExpireKeeps` | internal/core/intent.go:256-304 | expiring fails exactly for a withdrawal observed too early or whose refund does not fit |
| `StoreInvariants.TerminalAnswers` | internal/core/intent.go:185-304 | an intent that has ended, or never was, is left alone by confirmation and expiry, and the answer says which |
| `StoreInvariants.MarginCovers` | internal/app/verify.go:127-139 | a user's margin balance covers each of the user's open positions |
| `StoreInvariants.OpenPositionKeeps` | internal/core/market.go:117-182 | opening keeps margin equal to open collateral for every user; a refusal changes nothing |
| `StoreInvariants.ClosePositionKeeps` | internal/core/market.go:184-240 | closing or liquidating an open position succeeds iff every balance has room for its part; a closed one is left alone |
| `StoreInvariants.CloseAnswers` | internal/core/market.go:187-240 | a close that is not done changes nothing, and the answer tells a missing position, an ended one and a lack of room apart |
| `StoreInvariants.CloseAsKeeps` | internal/core/market.go:227-237 | a close moves exactly the posted collateral to the payout and the insurance leg, and never fails for lack of funds |
| `StoreInvariants.SettleMarketKeeps` | internal/core/market.go:274-330 | settling closes the open positions of the market and no other and pays each account exactly what they were owed; it is refused, whole, iff some balance along the payouts in id order would leave 64 bits |
| `StoreInvariants.ApplyDepositKeeps` | internal/core/inbox.go:95-124 | the first application of an event credits it, every later one does nothing to the ledger; only a first credit that does not fit is refused |
| `StoreInvariants.RevertFactKeeps` | internal/core/inbox.go:228-325 | compensation is exact, never drives the user negative, and freezes the user iff the insurance fund had to pay; it is refused, whole, iff a balance has no room for its part |
| `StoreInvariants.CompensationIsExact` | internal/core/inbox.go:262-310 | the user pays what the user has, up to the amount, the insurance fund pays the rest, and the user is frozen iff there was a rest |
| `StoreInvariants.PostOutsideKeeps` | internal/httpapi/http.go:268-291 | a phantom credit keeps the ledger itself sound, and is counted as outside money |
| `Requests.HaltIsExact` | internal/core/inbox.go:340-353 | a positive request under a new key is halted iff its user or everybody is frozen, and then nothing changes |
| `Requests.HaltedSystemTakesNothingIn` | internal/core/intent.go:90-98 | from a freeze of the whole system until it is lifted, in every run and whoever asks, no withdrawal is taken in |
| `Requests.NewKeyAnswers` | internal/core/intent.go:58-128 | what a request under a new key answers, read off the amount, the freezes and the two balances |
| `Requests.UsedKeyAnswers` | internal/core/intent.go:65-91 | after any run, a used key answers a replay of its own request iff user and amount are the same, and a conflict otherwise, and changes nothing |
| `Requests.SettlementKeyConflicts` | internal/core/intent.go:65-91 | the key of a settlement never stands for a withdrawal |
| `Requests.NewSettlementAnswers` | internal/core/intent.go:132-181 | a settlement under a new key is done iff the outcome is zero or one and the market open |
| `Requests.SettlementKeyAnswers` | internal/core/intent.go:137-163 | after any run, a settlement requested again is a replay iff the outcome is the same, and a conflict otherwise |
| `Requests.RanksStayUnique` | internal/core/intent.go:349-353 | in every run no two intents have the same rank of creation, so the order of the resolver's queue is that of their creation and no other |
| `Requests.FinalPaymentIsTheUsers` | internal/core/intent.go:119-123 | a withdrawal that is final on the chain was executed there as a payment of its amount to its user |
| `OpenPositions.OpensIff` | internal/core/market.go:120-182 | a position is opened iff the size is positive, the key new, the market open, the collateral positive and available, and the user has no open position in the market; then exactly its row and its collateral move |
| `OpenPositions.OpenAnswers` | internal/core/market.go:120-182 | what a request under a new key answers: the first thing that is wrong with it, or done |
| `OpenPositions.UsedKeyOpensNothing` | internal/core/market.go:131-148 | a used key opens nothing: it answers done for exactly the position it opened and a conflict for any other |
| `OpenPositions.PositionsStayUnique` | internal/core/schema.sql:162-168 | in every run no user has two open positions in one market, and no key belongs to two positions |
| `SystemInvariants.LiveFactIsExact` | internal/app/app.go:292-302 | the truthful test of a credit decides exactly whether its block is canonical |
| `SystemInvariants.LiveEventTells` | internal/chain/sim.go:497-512 | a live event tells exactly what a canonical transaction did: which call, for whom, how much, which market, and where it landed |
| `SystemInvariants.OrphansAreDead` | internal/app/app.go:309-315 | only credits whose block has left the chain are compensated |
| `SystemInvariants.MinesKeeps` | internal/chain/sim.go:472-552 | a block or a reorg keeps every tie between store and chain |
| `SystemInvariants.RecordsKeeps` | internal/app/app.go:230-242 | writing down a polled copy keeps every recorded event true, even when its block is gone by then |
| `SystemInvariants.RecordTells` | internal/core/inbox.go:40-56 | a copy is written down once, as it was read, still to be dealt with; a second copy of an event changes nothing |
| `SystemInvariants.ConfirmsKeeps` | internal/app/app.go:363-372 | confirming a finalised intent succeeds iff what it moves fits, and a market settled in the ledger is settled in the finalised vault |
| `SystemInvariants.FinalPayload` | internal/app/app.go:362-364 | a finalised nonce of an intent is that intent's own payload in the finalised history |
| `SystemInvariants.ResolvesKeeps` | internal/app/app.go:361-416 | one pass of the resolver over one intent keeps the invariant |
| `SystemInvariants.StepKeeps` | internal/app/app.go:3-7 | every step of the system keeps the invariant |
| `SystemInvariants.EveryTraceKeeps` | internal/app/app.go:3-7 | every state any run can reach satisfies it |
| `Residue.PayoutsAreIntents` | internal/app/reconcile.go:84-91 | the vault's finalised payouts are the confirmed, the unrecognised and the refunded withdrawals |
| `Residue.MissingAreDeposits` | internal/app/reconcile.go:97-107 | the deposits counted as not ingested are exactly the finalised deposits without a standing credit, each once |
| `Residue.FinalFactOnce` | internal/chain/sim.go:615-628 | no finalised fact is listed twice |
| `Residue.OneStandingCredit` | internal/app/app.go:282-317 | after the pass over provisional credits a fact has at most one standing credit |
| `Residue.DepositsAreCredits` | internal/app/reconcile.go:97-111 | finalised deposits are standing credits less provisional ones plus the ones not ingested |
| `Residue.ResidueIsExact` | internal/app/reconcile.go:65-129 | in every reachable settled state, ledger less true custody less the three terms is outside money plus refunded withdrawals the chain paid anyway; the unexplained part the 64-bit report computes is that number wrapped |
| `Residue.ResidueOfEveryRun` | internal/app/reconcile.go:44-64 | the same said of every run from the start |
| `SystemRefunds.RefundIsJustified` | internal/app/app.go:379-408 | a refund is granted only when the chain does not hold the withdrawal and head is past its expiry |
| `SystemRefunds.FinalityGivesR` | internal/chain/sim.go:530-552 | hypothesis R holds while finality covers every refunded expiry, and in every step that is not a reorg |
| `SystemRefunds.RefundsAlwaysHold` | internal/app/app.go:382-408 | under R no refunded withdrawal is on the canonical chain at any moment of any run |
| `SystemRefunds.PaidOrRefundedNeverBoth` | internal/core/intent.go:12-21 | once refunded a withdrawal never lands, once confirmed it stays final in the recorded block |
| `SystemRefunds.TerminalIsForever` | internal/core/intent.go:12-28 | a confirmed or expired intent never changes again |
| `SystemRefunds.TermsAreForever` | internal/core/intent.go:12-28 | an intent keeps its kind, user, market, amount and expiry through every run |
| `SystemRefunds.EveryUnitIsExplained` | internal/app/reconcile.go:44-64 | under R the residue is the outside money, as 64 bits hold it, and zero on every legitimate run |
| `Inbox.CursorNeverSkips` | internal/core/inbox.go:31-38 | in every reachable state every sequence number up to the cursor is recorded; that the cursor moves only over recorded numbers is the guard of its step here and is what `Engine.App.Ingest` establishes |
| `Engine.App.RequestWithdraw` | internal/app/app.go:80-86 | the withdrawal is stamped with head plus ten |
| `Engine.App.OutboxTick` | internal/app/app.go:156-187 | the due payloads are submitted in order, each with its own outcome; every one that gets through and that the chain still needs waits in the mempool; exactly their reserved intents are marked, whatever the submission reports |
| `Engine.AllSubmitted` | internal/app/app.go:156-187 | submitting only grows the mempool, and adds every payload that is not lost and not refused |
| `Engine.App.RevertBlock` | internal/core/inbox.go:236-325 | every standing credit of an orphaned block is compensated and no other; or the pass stops at one that is refused |
| `Engine.App.SettleFacts` | internal/app/app.go:282-317 | afterwards every provisional credit is live and not yet final; or a compensation was refused because a balance has no room for it |
| `Engine.App.ReorgCheck` | internal/app/app.go:321-344 | a confirmed intent in a lost block is never found |
| `Engine.App.ContiguousEnd` | internal/app/app.go:212-223 | the end of the longest contiguous run after the cursor |
| `Engine.App.Ingest` | internal/app/app.go:225-247 | exactly the polled events up to the gap are recorded, in order, and only then the cursor moves to the end of the contiguous run |
| `Engine.RunEndsOnce` | internal/app/app.go:212-223 | the new cursor depends on the batch as a set only |
| `Engine.App.PendingEvents` | internal/core/inbox.go:57-84 | the received events with the lowest sequence numbers, in order, as many as the limit allows |
| `Engine.App.ApplyPending` | internal/app/app.go:249-269 | exactly those events are dealt with: deposits credited, others set aside, everything else untouched; a deposit stays pending only if its credit does not fit, and then it does not fit afterwards either |
| `Engine.App.InboxTick` | internal/app/app.go:198-271 | the state after each phase: provisional credits settled, the polled batch recorded up to its gap, the pending events applied; a refused compensation ends the tick after the first phase |
| `Engine.App.SumUnrecognised` | internal/app/reconcile.go:84-91 | the finalised withdrawals among the intents in flight, as the 64-bit loop adds them up |
| `Engine.App.SumProvisional` | internal/core/inbox.go:177-183 | the standing credits above the finalised height |
| `Engine.App.FindMissing` | internal/app/reconcile.go:93-107 | the finalised deposits without a standing credit and their total, as the 64-bit loop adds it up |
| `Engine.App.Measure` | internal/app/reconcile.go:72-129 | the 64-bit report describes the state it measured, and its status is shortfall, surplus or balanced as outside money plus refunded payouts, wrapped, is positive, negative or zero; there is no report iff a sum the database takes leaves the 64-bit column it is read into |
| `Engine.App.Heal` | internal/app/reconcile.go:131-148 | every missing deposit ends with a standing, final credit, or has no room for one; the number of healed ones is exact |
| `Engine.App.Reconcile` | internal/app/reconcile.go:65-174 | every line of the report is tied to the state after the pass over provisional credits; the residue is exact to 64 bits, a shortfall is reported and freezes the system, so that no withdrawal is taken in any more, iff outside money plus refunded payouts, wrapped, is positive, and every finalised deposit ends with exactly one standing credit or no room for one; there is no report only when a compensation was refused or a sum is too large |
| `Engine.App.ResolveOne` | internal/app/app.go:361-416 | the resolver's loop body; what a visit does to an instruction and to a settlement is `EscrowResolution.EscrowVisit` and `EscrowResolution.SettlementVisit` |
| `Engine.App.ResolverTick` | internal/app/app.go:354-418 | the pass visits the intents in flight oldest first, each at most once, up to and including the first whose answer does not go on; it is reported complete iff every answer went on |
| `Engine.WhatEndsAPass` | internal/app/app.go:361-416 | a visit ends the pass iff the confirmation or refund it asks for finds no room in a balance, decided before the visit; the intent is then as it was |
| `Resolution.CancelLands` | internal/chain/sim.go:450-469 | a queued cancellation takes effect in the next block past the expiry |
| `Resolution.LandsInTime` | internal/chain/sim.go:191-193 | a withdrawal lands no later than its expiry height |
| `Resolution.LateSubmissionIsEvidence` | internal/chain/sim.go:483-495 | a submission past the expiry is evidence: the block that refuses it leaves the withdrawal expired for the resolver, without any cancellation |
| `Resolution.ServedIfClear` | internal/app/app.go:361-372 | a pass reaches the withdrawal and its own answer goes on iff every visit up to and including its own finds room |
| `Resolution.WithdrawalsResolve` | internal/app/app.go:346-418 | without reorgs and with fixed confirmations a withdrawal is settled by expiry plus max(confirmations, 2), if in each pass the visits to older intents and its own find room |
| `Resolution.FreshWithdrawalIsOnTrack` | internal/app/app.go:75-86 | a new withdrawal meets the condition of that bound |
| `EscrowResolution.EscrowVisit` | internal/app/app.go:361-416 | a visit confirms an instruction that is final, expires one that is not on the chain and past its expiry whatever the clock says, leaves every other alone, and changes nothing else |
| `EscrowResolution.SettlementVisit` | internal/core/intent.go:289-304 | a settlement is never given up: until it is final a visit does nothing |
| `EscrowResolution.PassEndsInstruction` | internal/app/app.go:354-418 | in any state after a block, whatever reorgs came before, a pass whose older visits find room ends every instruction whose expiry lies the confirmation count or more behind head |
| `EscrowResolution.InstructionsResolve` | internal/app/app.go:354-418 | without reorgs every instruction is confirmed or expired by expiry plus the confirmation count, if in each pass the older visits find room |
| `EscrowResolution.FreshInstructionIsInTime` | internal/app/escrow.go:118-126 | a new instruction meets the condition of that bound, with its expiry six blocks ahead and the collateral as its level |
| `Headroom.WithdrawalFits` | internal/core/intent.go:217-287 | a withdrawal in flight can be both confirmed and refunded whenever all that users hold fits 64 bits and insurance and fees together are above the smallest 64-bit number |
| `Headroom.SolventHouseIsEnough` | internal/core/intent.go:217-287 | that is so, in every state with sound books, whenever insurance and fees together are positive |
| `Headroom.SettlementHasRoom` | internal/core/market.go:274-330 | a due settlement is paid out whole if what users hold and what the open positions of the due markets can gain fit 64 bits, and leaves that room for the other markets that are due |
| `Headroom.RoomClearsTheWay` | internal/app/app.go:361-416 | that guard, checked once before a pass, makes every visit up to and including the withdrawal's own find room |
| `Headroom.WithdrawalsResolveInRoom` | internal/app/app.go:346-418 | with that guard before each pass every withdrawal is settled by expiry plus max(confirmations, 2) |
| `BlockedPass.SettlementDoesNotFit` | internal/core/market.go:274-330 | a user who holds almost 2^63 wins a bet: the payout has no room and the settlement cannot be confirmed |
| `BlockedPass.WithdrawalBlockedForEver` | internal/app/app.go:367-371 | for any user a legitimate run from genesis into that state, after which a younger withdrawal stays in flight through any number of rounds, past its bound and although the chain has finally paid it |
| `Escrow.MissesMeanStandstill` | internal/app/escrow.go:131-146 | the counter reaches k only over k passes with the same unequal pair and nothing in flight for it |
| `Escrow.AlarmIsExact` | internal/app/escrow.go:175-185 | the alarm is never false and is raised by the ninth standing pass |
| `Escrow.MovementResets` | internal/app/escrow.go:92-146 | a match, a cover or any movement resets the counter |
| `Escrow.RowLife` | internal/app/escrow.go:96-151 | a drift row appears with a gap nobody works on, at zero, stays while the gap does, and goes when the two sides agree |
| `Escrow.EscrowWithinCustody` | internal/app/escrow.go:156-162 | summed escrow never exceeds the true custody, which is the balance while it fits 64 bits, and a settled market has no finalised escrow and no open position |
| `EscrowTick.Worker.ReconcileEscrow` | internal/app/escrow.go:66-164 | the pass: the counts are the numbers of markets in line, with a gap that an instruction in flight closes exactly, and with any other gap; totals, drift rows and report lines for every live market; exactly one new instruction, carrying the collateral, for every gap that has none in flight; the custody error is raised iff the 64-bit total of escrow exceeds the balance, and never while the true custody fits 64 bits |
| `EscrowTick.ListedSays` | internal/app/escrow.go:96-151 | the report lists exactly the markets out of line, with both sides, and with the whole gap as unexplained unless an instruction in flight closes exactly that gap |
| `EscrowConvergence.OneInstructionEach` | internal/core/intent.go:392-412 | in every run at most one instruction per market is in flight |
| `EscrowConvergence.StandingGapIsInstructed` | internal/app/escrow.go:118-126 | after an issuing pass somebody works on every gap of a live market the vault has not settled: who did before, or a new instruction whose payload carries exactly the collateral |
| `EscrowConvergence.LostInstructionIsReplaced` | internal/app/escrow.go:118-126 | by its bound an instruction makes way: the next issuing pass finds or puts another one on a gap that stands then |
| `EscrowConvergence.FinalInstructionStands` | internal/chain/sim.go:213-230 | a final instruction was executed with its market and level, and the finalised vault holds that level unless a later call moved it |
| `EscrowConvergence.InstructionClosesTheGap` | internal/app/escrow.go:118-126 | from the pass that issues it, through any run: once the instruction is final and no later call moved the escrow, the vault holds the collateral the pass saw |
| `EscrowTick.RowsAreFolds` | internal/app/escrow.go:92-146 | after any number of issuing passes the drift row of a market is the fold of what the passes that processed it saw |
| `EscrowTick.StuckMeansStuck` | internal/app/escrow.go:175-199 | a market is reported stuck only after eight passes that saw the same gap with nobody working on it, and is after nine |
| `EscrowTick.SettledRowStays` | internal/core/intent.go:443-466 | passes look at unsettled markets only, so the drift row of a market that is settled while stuck stays, and is reported, for ever |
| `EscrowTick.SettledStaysUnseen` | internal/core/intent.go:443-466 | a market settled at one pass is settled at every later one of the run |
| `Markets.MarketsNeverGoBack` | internal/core/intent.go:288-299 | in every run a market moves from open to settling to settled and never back, and once it has left the open state its mark and outcome are fixed |
| `Markets.SettlementNeedsItsKey` | internal/core/intent.go:137-163 | in every reachable state an open market can be settled iff no withdrawal was given the request key of its settlement |
| `Markets.TakenForEver` | internal/core/intent.go:137-163 | once a withdrawal has that key, settling the market answers not found in every later state and does nothing |
| `Markets.SettlementCanBeBlocked` | internal/core/intent.go:65-91 | a legitimate run in which a withdrawal takes that key |
| `EscrowTick.Worker.NoteDrift` | internal/app/escrow.go:92-146 | the delete, the reset and the upsert of one drift row |
| `EscrowTick.Worker.InFlightEscrowTargets` | internal/core/intent.go:471-489 | the level in flight per market |
| `EscrowTick.Worker.SumCollateral` | internal/core/intent.go:446-466 | the collateral of a market's open positions |

## Left out

- RustVault.Vault.Execute: custody, escrow and the deposits by user are unbounded; the crate's 128 bits would be exceeded only after 2^65 deposits of the largest size.
- Inbox.CursorNeverSkips: progress of the cursor is not claimed. Orphaned events are skipped by the stream, so their sequence numbers can stay holes; the reconciler supplies the deposits.
- EscrowTick.Worker.ReconcileEscrow: markets are visited in any order, and the lines of the report are a table by market rather than a sorted list; collateral sums and heights are taken to fit 64 bits, as the callers' integers do.
- Postgres.Database.Expire: wall-clock deadlines are a free choice; re-arming the outbox row of a settlement changes nothing in the model, where any payload may be submitted at any time.
- `Revert` of a confirmed intent (internal/core/intent.go:309-344): unreachable, since `Engine.App.ReorgCheck` finds nothing to revert. Conservation across confirm, revert, confirm is not claimed: the second confirmation would reuse its key.
- Transfer kinds, metadata, versions, attempt counters, error texts, transfer references of intents, and timestamps other than the creation of an intent: they decide nothing.
- Outbox leases, backoff and batch limits, and the row locks of the outbox: scheduling only.
- Lock order of transactions that post several times or lock other rows first: the deadlock claim is about single posts.
- Persistence of the chain to disk, and the text of idempotency keys: values are carried instead of text. In the exported trace a number stands for the random text of an intent id.
- Sorting of the markets in the exported expectations: the comparison does not depend on their order.
- The price feed, the price and liquidation ticks (`Margins.AtRisk` models their test), the chaos driver, benchmarks, HTTP panel, Redis, the TypeScript watcher, USD formatting and logging.
- The `system_state` table and the stored reconciliation reports: written, never read by the logic.
