# Ledger verification

A Dafny model of a double-entry ledger service and proofs about it. The service keeps
accounts and an append-only journal, moves money between ledgers with a saga, posts in
single and batched forms over PostgreSQL, and publishes every committed posting through
an outbox, a broker and an inbox into daily totals.

Every critical section of the program (a mutex-held section, or one database
transaction or statement) is one atomic step over maps and sequences. Runs are finite
sequences of such steps in any order, taken by any number of callers and workers, and
the main theorems hold after every run. Where the program updates state in place there
is a class whose methods carry loops and are proved equal to the step functions.

| file | contents |
|---|---|
| `Sums.dfy` | sums over finite sets |
| `Domain.dfy` | accounts, entries, the double-entry rule, the journal |
| `Memory.dfy`, `MemoryInvariant.dfy`, `MemoryTheorems.dfy`, `MemoryConservation.dfy` | the in-memory store and its transfer saga as a state machine, what every step keeps, and what follows for every run |
| `MemoryStore.dfy` | the in-memory store as a class |
| `Posting.dfy`, `PostingStore.dfy` | single and batched posting over PostgreSQL |
| `Transfers.dfy`, `TransferStore.dfy` | source debits and destination credits over PostgreSQL |
| `Overdraft.dfy`, `Boundaries.dfy` | over all posting paths together: no overdraft, and no transaction or transfer outside its ledgers |
| `CreditWorkers.dfy`, `CreditConservation.dfy` | any number of destination-credit workers at once, and what clearing accounts hold meanwhile |
| `LockOrder.dfy`, `RowOrder.dfy` | account row locks; taking rows oldest first |
| `Projection.dfy`, `ProjectionStore.dfy` | daily totals and the batch that maintains them |
| `Pipeline.dfy`, `PipelineTheorems.dfy`, `OutboxStore.dfy` | outbox leases, publishing, delivery, and the totals at the far end |
| `EndToEnd.dfy` | postings and pipeline joined: balances read off the daily totals |
| `Waiters.dfy` | waiting for a completion |
| `IdempotencyClaim.dfy` | idempotency keys under concurrency |
| `Canonical.dfy` | the canonical form a key's digest is taken of |
| `Batcher.dfy` | the posting micro-batcher |

Identifiers are integers (a UUID read as a number, so the nil UUID is 0); amounts are
integer cents; times are integers supplied by the environment. New identifiers, the
clock, the destination-failure hook, broker acknowledgements, serialization failures and
the choice among rows that another transaction has locked are parameters of the steps. A new
identifier is one nobody has used, as `uuid.New` gives.

## Where the code differs from its documentation

Five promises turn out to hold only under a condition. In each case the model follows
the code, the condition is proved to be exact, and a lemma exhibits a failing input.

- The posting batch uses the nil UUID for "no ledger seen yet" (internal/ledger/posting_batch.go:122),
  but the nil UUID is also the default ledger (internal/ledger/store.go:68). A posting
  that starts in the default ledger and continues in one other ledger is refused by the
  single path and accepted by the batch. `Posting.BatchRefinesSequential` shows that the
  two paths agree if and only if no such posting occurs; `Posting.SlipExample` is one.
- The per-leg balance statements (internal/ledger/postgres_transfer.go:122,347,353) do
  not net to zero when an endpoint is its own ledger's clearing account, while the journal
  and the batched statement do: `Transfers.LegAgreesIff`, `Transfers.SourceAgreesIff`,
  `Transfers.BulkRefinesOneByOne`. Such transfers are accepted:
  `Transfers.ClearingSourceExample`, `Transfers.ClearingDestinationExample`.
- Repeating a transfer request replays it only under two conditions. A key that parses as
  a UUID is looked up as a saga id (internal/ledger/postgres_transfer.go:306), so the
  repeat is refused unless the key happens to be the saga's own id. And the caller's text
  is compared with text read back from UUID columns (internal/ledger/transfer.go:211-213),
  so a request that does not spell its four identifiers canonically is accepted once and
  then called a conflict. `Transfers.RepeatReplaysIff`, `Transfers.UuidKeyExample`,
  `Transfers.OtherSpellingConflicts`. The source is never debited twice.
- A waiter is notified only under the canonical spelling of its identifier
  (internal/ledger/transfer_batch.go:143, internal/ledger/postgres_transfer.go:286); under
  any other spelling it sleeps until its timeout: `Waiters.WokenIffCanonical`,
  `Waiters.OtherSpellingSleeps`.
- A projection is complete for one consumer, but waiting and notifying go by transaction
  alone (internal/ledger/streaming.go:447-449,532-536). A waiter may come back
  empty-handed, with no timeout and no failure, but only if another consumer had applied
  the same event: `Waiters.AnswersAreHonest`, `Waiters.OtherConsumerWakes`.

## Model

| member | source | states |
|---|---|---|
| `Domain.ValidateTransaction` | internal/ledger/validators.go:21-44 | accepts exactly the balanced requests (two lines or more, each a positive debit or a positive credit, equal totals) and names the first faulty line's fault |
| `Domain.ApplyEntries` | internal/ledger/store.go:189-205 | posting line by line moves every account by its net amount and touches nothing else |
| `Domain.JournalNetPermutes` | internal/ledger/store.go:122-140 | the balance read off the journal does not depend on the order the sort leaves equal timestamps in |
| `Memory.FirstDue` | internal/ledger/transfer.go:102-109 | the event a worker takes is due and everything before it is not |
| `Memory.RefusalMeans` | internal/ledger/transfer.go:51-63 | a first use is refused for the first of: source not in its ledger, destination not in its ledger, one ledger, or short funds, which is a debit-normal source holding less than the amount or a credit-normal one whose stored balance exceeds it |
| `Memory.RefusedTurn` | internal/ledger/transfer.go:115-131 | a credit turned down is tried again after 10, 20, 40 and 80 milliseconds; a permanent failure or the fifth fails the transfer and queues its refund at once; no money moves |
| `MemoryInvariant.CreateTransactionKeeps` | internal/ledger/store.go:88-116 | a post, replay or refusal keeps the whole-store invariant (books, sagas, legs, keys, outbox) |
| `MemoryInvariant.CreateTransferKeeps` | internal/ledger/transfer.go:36-79 | starting a transfer keeps the invariant |
| `MemoryInvariant.DestinationPosts` | internal/ledger/transfer.go:144-164 | crediting a pending transfer cannot be refused and moves exactly that transfer to completed |
| `MemoryInvariant.CompensationPosts` | internal/ledger/transfer.go:165-180 | refunding a failed transfer cannot be refused and moves exactly that transfer to compensated |
| `MemoryInvariant.TurnKeeps` | internal/ledger/transfer.go:95-138 | a worker turn keeps the invariant, whatever the failure hook answers, and never ends in an error |
| `MemoryInvariant.RunKeeps` | internal/ledger/transfer.go:36-185 | the invariant holds after every run from the empty store |
| `MemoryTheorems.SagaSafety` | internal/ledger/transfer.go:36-185 | in every reachable state a transfer is in one of four shapes with matching legs, journal transactions and open events; never both credited and refunded |
| `MemoryTheorems.LegsAreDistinct` | internal/ledger/transfer.go:140-185 | every transaction no caller posted is exactly one leg of one transfer, so no leg is posted twice |
| `MemoryTheorems.KeyMakesOneTransfer` | internal/ledger/transfer.go:42-49 | a key stands for one transfer and asking again under it changes nothing |
| `MemoryTheorems.KeyDebitsOnce` | internal/ledger/transfer.go:42-78 | from its first use to any later moment of a run a key names one transfer, with one source transaction, which the journal holds once |
| `MemoryTheorems.NewTransferIsFunded` | internal/ledger/transfer.go:61-78 | in any run the step that makes a transfer finds a debit-normal source with the amount, and leaves it short of exactly the amount and not below zero |
| `MemoryTheorems.NewTransferIsRecorded` | internal/ledger/transfer.go:65-78 | that step adds one transaction, dated now, in the source ledger, crediting the source and debiting clearing; the transfer under its key; and its credit, due at once |
| `MemoryTheorems.SagaForever` | internal/ledger/transfer.go:140-185 | from one moment of a run to any later one a transfer keeps its identity, amount and legs and its status only moves forward |
| `MemoryTheorems.WorkBound` | internal/ledger/transfer.go:95-138 | at most six worker turns go into one transfer in any run: five destination attempts and one refund |
| `MemoryTheorems.Quiescence` | internal/ledger/transfer.go:110-138 | with no open event every transfer is completed or compensated, and no reachable turn reports an error |
| `MemoryTheorems.BooksBalance` | internal/ledger/store.go:166-229 | every transaction balances within one ledger, every stored balance is the journal's debit minus credit, and every ledger sums to zero |
| `MemoryConservation.ClearingBalance` | internal/ledger/transfer.go:65-77 | a ledger's clearing balance is its outgoing transfers not refunded minus its incoming ones completed, while callers keep away from clearing accounts |
| `MemoryConservation.InTransitConservation` | internal/ledger/transfer.go:140-196 | clearing balances over all ledgers sum to the pending and failed transfers |
| `MemoryStore.MemoryStore.constructor` | internal/ledger/store.go:51-60 | a new store is the empty state |
| `MemoryStore.MemoryStore.CreateAccountInLedger` | internal/ledger/store.go:70-86 | adds one account at zero and nothing else, or refuses a nameless one |
| `MemoryStore.MemoryStore.PostEntries` | internal/ledger/store.go:166-216 | each refusal exactly when its fault is there, changing nothing; otherwise one transaction, dated now, in its accounts' own ledger, and each balance moved by its net |
| `MemoryStore.MemoryStore.FindTransaction` | internal/ledger/store.go:218-225 | finds a journal transaction if and only if there is one with that id |
| `MemoryStore.MemoryStore.CreateTransaction` | internal/ledger/store.go:88-116 | a used key replays its own transaction or conflicts, otherwise the request is posted and its key recorded, or refused |
| `MemoryStore.MemoryStore.ClearingAccount` | internal/ledger/transfer.go:187-196 | the ledger's one clearing account, made on first use |
| `MemoryStore.MemoryStore.CreateTransfer` | internal/ledger/transfer.go:36-79 | bad request, replay or conflict by the five compared fields, each refusal in order with the funds rule for all five account types, or source debit plus queued credit |
| `MemoryStore.MemoryStore.ProcessEvent` | internal/ledger/transfer.go:140-185 | handles one event as the step function does, error included |
| `MemoryStore.MemoryStore.WorkOnce` | internal/ledger/transfer.go:101-135 | one turn of the worker loop, with retry, failure and hand-over to compensation |
| `MemoryStore.MemoryStore.ProcessOutbox` | internal/ledger/transfer.go:95-138 | with any other calls between its turns, the loop is a run of the store within its limit, and stops early only when nothing is due |
| `MemoryStore.MemoryStore.BeginTransfer` | internal/ledger/transfer.go:65-78 | the source debit, saga and queued credit of an accepted request |
| `MemoryStore.MemoryStore.GetBalance` | internal/ledger/store.go:150-163 | asset and expense accounts show the stored balance, liability, equity and revenue accounts its negation; not found otherwise |
| `MemoryStore.MemoryStore.GetAccountEntries` | internal/ledger/store.go:118-148 | for any timestamp sort, the account's lines in the window, each as often as the journal has it, in timestamp order, and their net; over all time that net is the stored balance |
| `MemoryStore.HistoryCount` | internal/ledger/store.go:122-146 | a line occurs in a window's history exactly as often as in the transactions of that window |
| `LockOrder.SortedKeys` | internal/ledger/transfer_batch.go:220-227 | the ascending list of a set, each element once |
| `LockOrder.WaitClimbs` | internal/ledger/postgres_store.go:415-438 | along a wait the row waited for grows |
| `LockOrder.NoDeadlock` | internal/ledger/posting_batch.go:66-83 | no interleaving of any number of lock-in-order transactions reaches a circle of waits |
| `LockOrder.SomeoneMoves` | internal/ledger/transfer_batch.go:117-118 | whenever any transaction is active, one of them is not blocked |
| `Posting.SentinelExact` | internal/ledger/posting_batch.go:113-128 | the batch's ledger check passes exactly the one-ledger postings and those that leave the nil ledger once |
| `Posting.BatchRefinesSequential` | internal/ledger/posting_batch.go:109-166 | the batch accepts the same indices and gives the same balances, journal and events as posting in index order, if and only if no posting slips through the nil-ledger check |
| `Posting.SlipShows` | internal/ledger/posting_batch.go:122-128 | a posting that slips through leaves an event only the batch has |
| `Posting.NoStraddleNoSlip` | internal/ledger/posting_batch.go:122-128 | it is enough that no posting mixes the nil ledger with another in the accounts the batch starts from |
| `Posting.SlipExample` | internal/ledger/posting_batch.go:122-128 | a two-line posting only the batch accepts |
| `Posting.AcceptsMeans` | internal/ledger/postgres_store.go:446-488 | a posting is accepted if and only if it balances, names known accounts of one ledger, and leaves no asset or expense account below zero and no liability, equity or revenue account above |
| `PostingStore.Aggregate` | internal/ledger/postgres_store.go:406-413 | the per-account changes stand for the whole posting |
| `PostingStore.CheckRows` | internal/ledger/postgres_store.go:446-488 | the scan succeeds exactly when all rows exist, share a ledger and stay non-negative |
| `PostingStore.LockPostingAccounts` | internal/ledger/postgres_store.go:405-490 | succeeds exactly when the posting is known, within one ledger and affordable; returns its ledger and rows in ascending lock order, or an error that names a missing account, two ledgers or an overdrawn account the posting has |
| `PostingStore.ShiftIsApply` | internal/ledger/postgres_store.go:288-297 | moving balances by merged changes is moving them line by line |
| `PostingStore.TryPosting` | internal/ledger/posting_batch.go:111-153 | the running check of one posting accepts exactly what the batch rule accepts, and blames a refused one for a fault it has |
| `PostingStore.FundsSuffice` | internal/ledger/posting_batch.go:138-150 | checking merged changes is checking every account's final displayed balance |
| `PostingStore.MergeTotals` | internal/ledger/posting_batch.go:154-163 | one posting's changes are added to the batch totals, account by account |
| `PostingStore.PostgresStore.CreateTransaction` | internal/ledger/postgres_store.go:214-268 | accepted if and only if the rule of `Posting.AcceptsMeans` allows it, leaving one transaction dated now in its accounts' ledger, its event and moved balances; otherwise refused without effect for a fault it has |
| `PostingStore.PostgresStore.CreateTransactionsBatch` | internal/ledger/posting_batch.go:40-183 | sizes outside 1 to 64 are refused; otherwise every named row is locked in ascending order, the database is the batch fold's and each index is accepted by its rule or blamed for a fault it has then |
| `PostingStore.RowsAre` | internal/ledger/posting_batch.go:47-82 | the rows to lock are exactly the accounts named by the valid postings |
| `PostingStore.PostgresStore.WritePostingBatch` | internal/ledger/posting_batch.go:185-239 | writing all rows with merged balances at once yields the folded database |
| `Transfers.CreditAllBalances` | internal/ledger/postgres_transfer.go:336-360 | one-at-a-time legs move each account by the sum of their CASE movements |
| `Transfers.MergeGap` | internal/ledger/transfer_batch.go:182-186 | merged deltas differ from the legs' movements by exactly the self-credits |
| `Transfers.BulkRefinesOneByOne` | internal/ledger/transfer_batch.go:148-218 | the multi-saga statement does what crediting one transfer at a time does, if and only if no destination is its own clearing account |
| `Transfers.LegAgreesIff` | internal/ledger/postgres_transfer.go:342-354 | a leg keeps balances and journal together if and only if its account is not the clearing account |
| `Transfers.BulkAgrees` | internal/ledger/transfer_batch.go:160-200 | the batch always keeps balances and journal together |
| `Transfers.SourceAgreesIff` | internal/ledger/postgres_transfer.go:111-143 | the source debit keeps balances and journal together if and only if the source is not the clearing account |
| `Transfers.RepeatReplaysIff` | internal/ledger/postgres_transfer.go:61-68 | a repeated request replays its own transfer if and only if its key does not read as another UUID and its four identifiers are spelled canonically; it never debits again |
| `Transfers.UuidKeyExample` | internal/ledger/postgres_transfer.go:301-316 | an accepted request with a UUID-shaped key whose repeat is refused as a duplicate |
| `Transfers.OtherSpellingConflicts` | internal/ledger/transfer.go:211-213 | an accepted request in another spelling whose repeat is a conflict |
| `Transfers.ReplyMeans` | internal/ledger/postgres_transfer.go:32-109 | which request gets which answer, on the fields alone: blank, unreadable, one ledger, replay by identifiers and spelling, missing account, either account outside its ledger, short funds for all five types, used key, or created |
| `Transfers.SourceWrites` | internal/ledger/postgres_transfer.go:111-143 | the saga as asked for and pending, its command due at once, and one transaction in the source ledger crediting the source and debiting clearing |
| `Transfers.BulkWrites` | internal/ledger/transfer_batch.go:148-218 | row by row: each picked transfer completed, its command done with one more attempt, its leg journaled in its ledger debiting the destination and crediting clearing; every other row unchanged |
| `Transfers.ClearingSourceExample` | internal/ledger/postgres_transfer.go:121-123 | an accepted transfer out of the clearing account after which balance and journal differ |
| `Transfers.ClearingDestinationExample` | internal/ledger/postgres_transfer.go:348-354 | an accepted transfer into the clearing account on which bulk and single legs differ |
| `TransferStore.EnsureClearing` | internal/ledger/postgres_transfer.go:328-335 | the ledger's clearing account, inserted at zero only when absent |
| `TransferStore.FindSaga` | internal/ledger/postgres_transfer.go:301-316 | lookup by key, or by saga id when the key parses as a UUID |
| `TransferStore.MergeDeltas` | internal/ledger/transfer_batch.go:182-186 | the merged deltas are the batch's total movement of every account |
| `TransferStore.TransferStore.CreateTransfer` | internal/ledger/postgres_transfer.go:32-109 | the answer is decided by blank text, parsing, the lookup with its text comparison and the refusals in order, the default ledger included; a created one had both accounts in its two ledgers; only a created transfer changes the database, by the source debit |
| `TransferStore.TransferStore.WriteSourceTransfer` | internal/ledger/postgres_transfer.go:111-143 | journal, balances, saga and the two outbox rows written together |
| `TransferStore.TransferStore.ProcessDestinationCreditBatch` | internal/ledger/transfer_batch.go:30-146 | the oldest due commands of pending transfers that nobody holds are picked, clearing accounts resolved, rows locked in ascending order, then the bulk credit; a missing row abandons everything |
| `TransferStore.TransferStore.PickDue` | internal/ledger/transfer_batch.go:37-68 | the picking query: due credits of pending transfers by creation time and id, locked rows skipped, left out only for the limit, each item read off its own saga |
| `TransferStore.PickedMeans` | internal/ledger/transfer_batch.go:37-45 | what is picked, on the fields: open credit commands whose time has come, of pending transfers, oldest first, and one left out is younger than all that were picked |
| `CreditWorkers.StepKeeps` | internal/ledger/transfer_batch.go:30-146 | picks, commits, aborts, new transfers and other postings keep commands, sagas, locks and credits consistent |
| `CreditWorkers.NoTransferCreditedTwice` | internal/ledger/transfer_batch.go:37-45 | under any number of concurrent workers a transfer is completed exactly when credited, once, with its own amount, and the journal has the leg |
| `CreditConservation.StepConserves` | internal/ledger/transfer_batch.go:148-218 | debits, bulk credits, aborts and other postings keep clearing equal to what is in transit, per ledger and in all |
| `CreditConservation.ClearingHoldsWhatIsPending` | internal/ledger/postgres_transfer.go:96-143 | over every run that keeps away from clearing accounts, a ledger's clearing balance is its outgoing minus its completed incoming transfers, and all together hold exactly the pending ones |
| `TransferStore.TransferStore.WriteDestinationCreditBatch` | internal/ledger/transfer_batch.go:148-218 | the loops over items and deltas write the bulk credit |
| `Overdraft.NeverOverdrawn` | internal/ledger/postgres_store.go:448-473 | in every run of posts, batches, source debits, destination batches and refunds from non-negative balances, no asset or expense account but a clearing account goes negative |
| `Overdraft.CreatedIsEnabled` | internal/ledger/postgres_transfer.go:71-102 | every source debit the program writes is one of those steps, whatever its ledgers |
| `Overdraft.DeltaFloor` | internal/ledger/transfer_batch.go:182-186 | destination batches take only from clearing accounts |
| `Overdraft.BatchSolvent` | internal/ledger/posting_batch.go:138-163 | a posting batch keeps every guarded account non-negative |
| `Boundaries.DebitsStayInTheirLedger` | internal/ledger/postgres_transfer.go:84-96 | over every run each source-debit transaction names only accounts of its own ledger |
| `Boundaries.TransfersStayInTheirLedgers` | internal/ledger/postgres_transfer.go:84-89 | over every run each saga's source and destination lie in its two different ledgers |
| `Boundaries.TransactionsStayInTheirLedger` | internal/ledger/postgres_store.go:475-480 | over every run whose batches mix no ledger with the default one and whose credits name their transfers' accounts, every transaction names only accounts of its own ledger |
| `EndToEnd.RunRecorded` | internal/ledger/postgres_store.go:303 | over every run of the posting paths each transaction, and nothing else, has queued its event, and balances |
| `EndToEnd.BalancesAreTheJournal` | internal/ledger/postgres_store.go:288-297 | over every run that keeps single legs off clearing accounts every stored balance is the journal's |
| `EndToEnd.EverythingCanBeProjected` | internal/ledger/streaming.go:117-185 | whatever the posting paths wrote is a run of pipeline commits that can be published and applied in full |
| `EndToEnd.BalanceIsItsDays` | internal/ledger/streaming.go:412-436 | once drained, an account's stored balance is the sum of its aggregate debits minus credits over any days that cover the journal's UTC dates |
| `Projection.ApplyOneExact` | internal/ledger/streaming.go:402-437 | applying one event keeps every total equal to the sum over the inbox |
| `Projection.ExactUnique` | internal/ledger/streaming.go:402-437 | the inbox alone decides both tables, row for row |
| `Projection.DeliveryInvariance` | internal/ledger/streaming.go:342-437 | any batching, order and repetition of the same events gives the same inbox and totals |
| `ProjectionStore.OrderById` | internal/ledger/streaming.go:364 | a permutation of the batch in ascending event id |
| `ProjectionStore.InsertMarks` | internal/ledger/streaming.go:371-401 | the multi-row insert adds exactly the unseen ids, reports them, and leaves other consumers' rows alone |
| `ProjectionStore.MergeAddEntries` | internal/ledger/streaming.go:419-436 | accumulating deltas and writing once equals writing entry by entry |
| `ProjectionStore.UpsertDeltas` | internal/ledger/streaming.go:453-477 | upserting the delta rows adds them to the table, in any key order |
| `ProjectionStore.Aggregate` | internal/ledger/streaming.go:402-437 | the deltas and flags after the loop are those of applying the ordered batch event by event |
| `ProjectionStore.AggregateStore.ApplyTransactionPostedBatch` | internal/ledger/streaming.go:342-451 | a refused batch changes nothing; an accepted one equals one-at-a-time application, and the true flags number the inbox rows added |
| `ProjectionStore.FlagsAreNewEvents` | internal/ledger/streaming.go:406-411 | every flag is a new event, no id is flagged twice, every new id is flagged |
| `Pipeline.StepKeeps` | internal/ledger/streaming.go:117-265 | commits, expiry, claims, reads, publishing, acknowledgements, completion, release and delivery each keep the pipeline invariant |
| `Pipeline.SettleKeeps` | internal/ledger/streaming.go:250-260 | a publisher that completes owns nothing afterwards |
| `PipelineTheorems.PipelineSafety` | internal/ledger/streaming.go:117-265 | in every run: owner exactly while processing; inbox within published within committed; processed only after an acknowledged publish; totals are the sums over the inbox |
| `Pipeline.AcksKeep` | internal/ledger/streaming.go:163-178 | every step keeps processed events acknowledged |
| `PipelineTheorems.ProcessedIsFinal` | internal/ledger/streaming.go:250-265 | a processed row never changes again |
| `PipelineTheorems.StalePublisherIsHarmless` | internal/ledger/streaming.go:187-265 | a publisher that lost a row never owns it again and cannot complete, reschedule or release it |
| `PipelineTheorems.LiveLeaseIsExclusive` | internal/ledger/streaming.go:187-209 | until its expiry is reached nobody but the owner can change a leased row, in any run |
| `PipelineTheorems.ClaimLastsTenSeconds` | internal/ledger/streaming.go:192-200 | a due row that is claimed stays with its claimant for ten seconds in any run, unless it completes or gives up itself |
| `PipelineTheorems.CommittedIsDue` | internal/ledger/postgres_store.go:303 | a committed posting's event can be claimed at once |
| `Pipeline.DayIs` | internal/ledger/streaming.go:412 | the day an event is counted on is the one whose 24 UTC hours hold its time |
| `Pipeline.RetryDelays` | internal/ledger/streaming.go:256-258 | a failed event waits 100 milliseconds, doubled by each earlier attempt, and 25.6 seconds from the eighth on |
| `PipelineTheorems.TotalsAreJournalTotals` | internal/ledger/streaming.go:342-477 | at any moment every total of day d is the journal's own sum over the postings applied so far, each once, whose time lies within the 86,400,000 milliseconds of that UTC day |
| `PipelineTheorems.DrainedTotalsAreTheJournal` | internal/ledger/streaming.go:342-477 | once every event is in the inbox the totals are the raw journal's, by UTC day |
| `PipelineTheorems.LedgerDaysBalance` | internal/ledger/streaming.go:413-436 | a ledger's daily debits and credits are always equal |
| `PipelineTheorems.MarkedIffCounted` | internal/ledger/streaming.go:494-530 | an event is marked exactly when its transaction is counted in the totals, and stays so |
| `PipelineTheorems.NothingIsLost` | internal/ledger/streaming.go:187-265 | from every reachable state, whoever crashed, a continuation publishes and applies everything outstanding |
| `RowOrder.InOrder` | internal/ledger/streaming.go:192-200 | the oldest rows of a set up to a limit, in order |
| `OutboxStore.GroupUndoesJoin` | internal/ledger/streaming.go:211-248 | grouping the joined rows gives back one event per outbox row with all its entries |
| `OutboxStore.PublishErrors` | internal/ledger/streaming.go:131-155 | batch results are mapped back to their own events; a wrong result count fails them all |
| `OutboxStore.Publish` | internal/ledger/streaming.go:135-162 | an event fails exactly when it could not be encoded or its own publication, single or batched, failed |
| `OutboxStore.SplitOutcomes` | internal/ledger/streaming.go:163-177 | every event lands on exactly one of the succeeded and failed lists |
| `OutboxStore.OutboxStore.ClaimTransactionOutboxEvents` | internal/ledger/streaming.go:187-209 | row by row: lapsed leases are freed, then due unlocked rows are leased for ten seconds, and one is left out only for a full limit of rows no younger |
| `OutboxStore.ClaimMeans` | internal/ledger/streaming.go:187-209 | freeing and leasing, said on the fields of each row |
| `OutboxStore.OutboxStore.HydrateClaimedTransactionEvents` | internal/ledger/streaming.go:211-248 | exactly the events of the owner's rows, by creation time and id, each with its transaction's ledger, UTC day and lines |
| `OutboxStore.OutboxStore.CompleteTransactionOutboxClaim` | internal/ledger/streaming.go:250-260 | row by row: owned and succeeded becomes processed, owned and failed waits out its backoff, anything else is unchanged |
| `OutboxStore.OutboxStore.ReleaseTransactionOutboxClaim` | internal/ledger/streaming.go:262-265 | the owner's rows become pending and free, the others stay |
| `OutboxStore.OutboxStore.PublishCommittedEvents` | internal/ledger/streaming.go:117-185 | the whole routine with any work of other processes between its statements: it publishes the rows it still owns on reading back, settles by each event's own publication the rows it still owns then, or releases them when reading fails, with the right count |
| `OutboxStore.OtherKeeps` | internal/ledger/streaming.go:187-265 | no statement of another process gives a row to this owner |
| `OutboxStore.OutboxStore.GetTransactionProjectionStatus` | internal/ledger/streaming.go:498-530 | the transaction's event and whether the inbox has it, or why there is no answer |
| `Waiters.CompletionWaiters.Subscribe` | internal/ledger/completion_wait.go:22-31 | a new open channel, registered under its key only |
| `Waiters.CompletionWaiters.Unsubscribe` | internal/ledger/completion_wait.go:32-41 | forgets one channel and drops an emptied key; harmless after a notification |
| `Waiters.CompletionWaiters.Notify` | internal/ledger/completion_wait.go:44-52 | closes exactly the channels under the key, each of them open |
| `Waiters.WokenIffCanonical` | internal/ledger/completion_wait.go:54-74 | once a completion is durable and notified, a blocked waiter's channel is closed if and only if it waits under the canonical spelling |
| `Waiters.ChannelsAreSafe` | internal/ledger/completion_wait.go:44-52 | in every interleaving no channel is closed twice, none before some consumer's completion of its identifier, none outlives its waiter |
| `Waiters.AnswersAreHonest` | internal/ledger/completion_wait.go:54-74 | a waiter reports completion only when durable for its own consumer, and comes back without it only after a timeout, a failed read, or another consumer's completion; never unreleased where there is one consumer |
| `Waiters.ReadDecides` | internal/ledger/completion_wait.go:54-74 | whichever of the three reads first sees the completion settles the answer; one that does not leads on to subscribing, blocking and leaving |
| `Waiters.OtherConsumerWakes` | internal/ledger/streaming.go:532-536 | a run in which another consumer's notification sends a waiter back empty-handed |
| `Waiters.OtherSpellingSleeps` | internal/ledger/postgres_transfer.go:278-287 | a run in which a waiter under another spelling misses its notification |
| `IdempotencyClaim.StepKeeps` | internal/ledger/postgres_store.go:214-268 | every claim, write, commit, abort and retry keeps rows, locks and answers consistent |
| `IdempotencyClaim.OneTransactionPerKey` | internal/ledger/postgres_store.go:225-243 | at most one transaction is ever committed for a key |
| `IdempotencyClaim.RowsAreCompleted` | internal/ledger/postgres_store.go:298-302 | a key row exists exactly when a transaction was committed for it, completed and with its request's checksum, so aborts leave none |
| `IdempotencyClaim.AnswersAreTrue` | internal/ledger/postgres_store.go:118-155 | every answer is true of the database and takes at most four attempts |
| `IdempotencyClaim.FourAttempts` | internal/ledger/postgres_store.go:130-154 | in any run a request meets at most four serialization failures, and gives up if and only if it has met four |
| `IdempotencyClaim.CommitsAreAnswered` | internal/ledger/postgres_store.go:258-268 | a commit that is heard of is answered with its own transaction, and its key points there; one that is not changes the database all the same |
| `IdempotencyClaim.LaterRequestsReplayOrConflict` | internal/db/queries.sql.go:15-21 | once committed a key's row never changes, and later requests replay it, conflict with it, or fail without effect |
| `IdempotencyClaim.CreateTransaction` | internal/ledger/postgres_store.go:130-154 | the first attempt that is not a serialization failure decides; four of those give up |
| `IdempotencyClaim.KeyStore.CompletedIdempotentTransaction` | internal/ledger/postgres_store.go:161-212 | the read-only look decides as the state machine does, and misses only absent keys |
| `IdempotencyClaim.KeyStore.CreateTransactionAttempt` | internal/ledger/postgres_store.go:214-268 | one attempt posts its entries, replays, conflicts or leaves no trace, exactly by the key's row and the posting's own checks, the accounts, journal and row changing together |
| `Canonical.CentsRounds` | internal/ledger/idempotency.go:44-45 | amounts go to the nearest cent, halves away from zero |
| `Canonical.ReadsFixed` | internal/ledger/idempotency.go:44-45 | fixed notation can be read back, so different cents are written differently |
| `Canonical.Lower` | internal/ledger/idempotency.go:43 | capital letters become their small letters and nothing else changes |
| `Canonical.FixedForm` | internal/ledger/idempotency.go:44-45 | an amount is written with an optional minus, digits without leading zeros, a point and two digits |
| `Canonical.SameMeaning` | internal/ledger/idempotency.go:42-46 | two lines mean the same exactly when only letter case and fractions of a cent tell them apart |
| `Canonical.BelowIsByteOrder` | internal/ledger/idempotency.go:48-57 | texts compare at the first place they differ, a proper prefix first |
| `Canonical.LessIsByteOrder` | internal/ledger/idempotency.go:48-57 | lines compare by account, then debit, then credit |
| `Canonical.TiesAreEqual` | internal/ledger/idempotency.go:48-57 | lines the comparator cannot order are the same line |
| `Canonical.SortedUnique` | internal/ledger/idempotency.go:48-57 | the sorted arrangement is unique, whatever the sort |
| `Canonical.Canonicalise` | internal/ledger/idempotency.go:39-62 | the lines of the request, normalised and sorted |
| `Canonical.SameFormIffSameBag` | internal/ledger/idempotency.go:36-62 | two requests have one canonical form if and only if same ledger and same bag of lines after lower-casing and rounding |
| `Batcher.StepKeeps` | internal/ledger/posting_batch.go:280-333 | sends, gathering, sealing, posting, replying, stopping, closing and postings elsewhere each keep requests, calls, answers and journal paired, both ways |
| `Batcher.EveryAnswerIsItsOwn` | internal/ledger/posting_batch.go:293-333 | every call carries 1 to maxBatch requests with their own entries, and an answered request was answered once with its own position's outcome |
| `Batcher.PostedMeansJournaled` | internal/ledger/posting_batch.go:324-331 | a caller told it was posted has its own lines in the journal under that transaction, which nobody else was told |
| `Batcher.AnswersMatchTheJournal` | internal/ledger/posting_batch.go:324-331 | over every run an answer says what the journal holds under its position's id: a rejected caller has nothing there, and what is there has the caller's own lines and, in a committed call, was announced to it |
| `Batcher.EveryRowIsAnnounced` | internal/ledger/posting_batch.go:324-331 | every row a committed call adds to the journal is announced at the position of the request whose lines it carries |
| `Batcher.AnnouncedIsAnswered` | internal/ledger/posting_batch.go:325-332 | over every run the request at an announced position has the row's lines, and its answer, once given, is that row |
| `Batcher.FailureTellsNothing` | internal/ledger/posting_batch.go:324-331 | a call reported as an error gives all its callers the same failure, and leaves the database as a heard call would or untouched |
| `Batcher.OnlyBalancedAreCarried` | internal/ledger/posting_batch.go:263-289 | a request is refused if and only if its lines do not balance, no call carries unbalanced lines, and the queue never exceeds maxBatch per worker |
| `Batcher.OnePositionEach` | internal/ledger/posting_batch.go:300-315 | no request is posted in two positions |
| `Batcher.WorkersNeverStick` | internal/ledger/posting_batch.go:293-333 | a worker that has taken something always has a next step |
| `Batcher.CloseLeavesNothing` | internal/ledger/posting_batch.go:275-278 | when Close returns everything accepted has been answered |
| `Batcher.Collect` | internal/ledger/posting_batch.go:296-315 | with requests arriving meanwhile, a batch is the first 1 to maxBatch of them, and stops short only for the timer or an empty closed channel |
| `Batcher.Answers` | internal/ledger/posting_batch.go:325-332 | answers go out position by position, or one failure for all |

## Left out

- HTTP handlers, routing, JSON and timestamp parsing, process wiring, diagnostics and benchmark tooling: request plumbing and measurement.
- SQL text, row scanning, JetStream and PostgreSQL internals: each statement is its effect, each database transaction atomic with row locks, and the broker keeps every stored message.
- Text that does not parse as a UUID: modelled for transfer requests; elsewhere identifiers have already been parsed, so those error returns are left out.
- Amounts with more than two decimals and overflow of NUMERIC(20,2): postings are in whole cents, because the columns round what the balance check sees; only `Canonical.dfy` works on unrounded amounts.
- Entry identifiers and `updated_at` columns: nothing modelled depends on them. Entries of one transaction are listed in one fixed order.
- `last_event_id` on aggregate rows: a display cursor, decided by map order among events of one batch.
- Several consumer names feeding the same aggregate tables: the tables are not keyed by consumer, so totals are stated for one consumer; `ProjectionStore` keeps other consumers' inbox rows apart.
- The destination-failure arm of the PostgreSQL compensation worker (internal/ledger/postgres_transfer.go:200-225,253-260): no event reaches it; failure and refund are taken from the in-memory saga.
- SHA-256 and JSON encoding: the digest is taken to be injective on canonical requests; the in-memory store compares bags of entries and the key protocol compares abstract checksums.
- Unicode lower-casing: `Canonical.Lower` lower-cases ASCII letters, which covers UUID text.
- Wrap-around of the 64-bit subscription number: subscription numbers are unbounded.
- Retry jitter and delays between serialization retries: only their number matters here.
- Transfer creation in the lock-order argument: it locks its source row first and the clearing row later, so it does not follow ascending order.
- Waking of waiters in another process: notification is in-process, so waiting is modelled for one process.
- MemoryStore.MemoryStore.CreateTransaction: compares the bags of entries where the program compares digests of lower-cased text and rounded amounts, because identifiers there are one number per text and amounts whole cents; `Canonical.SameFormIffSameBag` states what the digests compare.
