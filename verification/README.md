# Payment pipeline of the spice harvester

The service watches accounts on the TON blockchain and decides which invoices have been paid. This
project models the path that money takes through it, and proves what that path guarantees when the
process may die between any two steps.

* **Loader.** It walks the hash-linked history of an account backwards from the head, in batches sent
  by a lite server that is not trusted, and stores row by row. A crash can leave a hole, which the
  next start finds by a query and refills. While it does so, `lastLt` moves down.
* **Indexer.** It walks the same history forwards, by looking up the child of its cursor, while the
  loader is still filling in from the top. The money and the stored cursor move in one database
  transaction, the notifications after it.
* **Ledger.** Invoices wait, and are then paid, cancelled or expired, by payments, requests and
  sweeps that carry times. Keys for encrypted metadata are accepted by payments.
* Around it: the notifier, the reconciliation of tracked accounts at start-up, schema migrations.

## How the model is laid out

| file | content |
|---|---|
| `Connections.dfy` | the database connection: what becomes of each statement is an input |
| `Chain.dfy`, `Client.dfy` | account history; checking a server answer |
| `Transactions.dfy`, `Loader.dfy` | the transaction table as a class, the loader as a class with its loops |
| `SyncSteps.dfy` | the loader as single steps, one per stored row, and sequences of them |
| `Payments.dfy`, `Indexer.dfy` | payments read out of transactions; the indexer as a class |
| `Invoices.dfy` | one invoice: row updates, timed histories, what a history means |
| `Ledger.dfy`, `LedgerRuns.dfy`, `Disclosure.dfy` | the ledger tables as a class; every sequence of committed operations; metadata and keys |
| `Pipeline.dfy` | all of it as one step machine with crashes, and its invariant |
| `Simulation.dfy` | the classes do what the machine does |
| `Retries.dfy`, `Repetitions.dfy` | which transactions are committed again and how often; executions in which that happens |
| `EndToEnd.dfy` | the main theorems |
| `Interleaving.dfy` | processPayment split into its SELECT and its writes |
| `Notifier.dfy`, `NotificationRuns.dfy`, `MissedStatus.dfy` | the sender as a class; queue and sender as a step machine; a status that is never announced |
| `Accounts.dfy`, `Migrations.dfy` | reconciliation of accounts at start-up; schema migrations |

The classes keep the form of the source: fields that methods reassign, loops, early returns. What the
outside world does is an input: the reply to every database statement (`Connection.replies`), every
answer of the lite server (`LoaderWorker.server`), every acknowledgement of the web hook
(`NotifierWorker.sender`), the heads and wallets that the chain reports. So each contract says not only
what an error leaves behind but what it takes: an error is reported for the causes named, and for no
other. An early return stands for an error, a panic and the death of the process at that point. The
contract of each method is stated over
functions and predicates on values; lemmas and step machines then reason about those. The loader's
methods return, as a ghost result, the sequence of machine steps that they amount to, wherever they
stop; `Simulation.dfy` ties a pass and a restart of the indexer to steps of the machine. Positions in
a chain stand for lts wherever a statement is about history (`LtAt` converts them).

Main results, hardest first:

1. `EndToEnd.ExactlyOnce`: in every execution the settlements of an account are exactly its chain
   transactions above its start up to its stored cursor, read with the account's own recipient and
   jetton, each once and in order, if and only if no error behind a commit was followed by another
   commit before a crash. `NothingSkipped` says what is true in any case, with the number of
   repetitions of each transaction; `NeverThreeTimes` bounds it when no answer to a COMMIT is lost, and
   `Repetitions.LostAnswersRepeat` shows that nothing else would.
2. `EndToEnd.ReceivedIsOnChain`: what an invoice has received is what the chain carries for it, from
   the moment of its creation up to the stored cursor.
3. `EndToEnd.NeverPastTheHole` and `SyncSteps.LoaderStepKeepsInvariant`: at most one hole, ever, and
   no cursor above it. `Loader.LoaderWorker.Recover` closes it from any such state, by such steps.
4. `EndToEnd.EveryInvoiceExplained`: each row follows from the payments, cancellations and sweeps of
   its own history, by rules that do not mention statuses (`Invoices.Explained`).
5. `Interleaving.MoneyIsConserved` and `FinishedIsFinalUnlessOvertaken`: without a lock on the SELECT no
   money is lost, and an execution keeps to the status diagram exactly as long as no write is overtaken.
6. `NotificationRuns.NotificationsNeverRegress` and `CoveredUnlessMissed`: messages about an invoice
   never go back, and the exact condition under which its present status is lost to the queue.
7. `Payments.NativePaymentsRead`, `Payments.JettonPaymentsRead`, `Disclosure.KeyThenPaymentDiscloses`:
   what a transaction pays, in terms of its messages, and what the payment discloses.
8. `Client.AcceptedIsChainSegment`, `Disclosure.DisclosureIsStable`, `Accounts.StartTwice`,
   `Migrations.Database.Migrate`.

## Assumptions

* The transaction hash is injective (`Digest` is a constructor), and lt strictly increases along the
  previous-transaction links of one account (`IsChain`).
* An account state from the server is a real one: the hash and lt at which some number of the
  account's transactions end (`IsHead`). It may be old. The start of an account is such a position.
* The clock never goes back, and one process runs at a time.
* An internal message has a source address.
* Each database statement is atomic, and one that is reported as failed has done nothing, except where
  the contract tells the two apart: a saved transaction row, a migration, and the COMMIT of SavePayments,
  whose answer may be lost (`Lost`); then it has taken place before the next pass of that worker. A
  database transaction is all or nothing and takes place at one instant. Only `Interleaving.dfy` goes
  below it.
* Wallet addresses differ for different jetton masters and from the recipient's address.

## Properties that do not hold as documented

* A failed notification insert after the commit makes the indexer repeat the transaction
  (pkg/db/invoices.go:298-303, pkg/indexer/indexer.go:54-60), and so does a lost answer to the COMMIT
  (pkg/db/invoices.go:294-297): `Repetitions.FailedNotificationRepeats`,
  `Repetitions.OneTransferBookedTwice`, `Repetitions.LostAnswersRepeat`; exact condition in
  `EndToEnd.ExactlyOnce`.
* README.md draws `cancelled` and `expired` as final states. Because the row is read without a lock
  (pkg/db/invoices.go:322), a payment in progress can still turn them into `paid`:
  `Interleaving.CancelledInvoiceIsPaid`; exact condition in `Interleaving.FinishedIsFinalUnlessOvertaken`.
* A lifetime is multiplied to nanoseconds in 64 bits (pkg/api/handlers.go:371), so a long one can give
  an invoice that has expired when it is created: `Invoices.LongLifeTimeExpiresAtOnce`; exact
  condition in `Invoices.ExpiresAfterCreation`.
* README.md promises a notification for every transition. Rows are deleted by invoice id
  (pkg/db/invoices.go:188-193), so a row queued after the invoice was read goes with the row of the
  older message: `MissedStatus.PaidIsNeverAnnounced` is an execution in which a payment is never
  announced, and `NotificationRuns.NeverAnnounced` says for good. A DELETE meets an invoice whose present
  status has been announced exactly if that status is the one in the message just sent
  (`NotificationRuns.PostedIsPresent`); exact condition for every step in
  `NotificationRuns.CoveredUnlessMissed`.

## Model

| member | source | states |
|---|---|---|
| Chain.LtOrdersPositions | pkg/core/accounts.go:29-38 | along a chain linked by previous lt, comparing lts is comparing positions |
| Client.GetTransactions | pkg/blockchain/client.go:121-140 | an error exactly when the call failed or a hash link breaks before the depth limit; otherwise the part before the first transaction at or below the limit |
| Client.AcceptedIsChainSegment | pkg/blockchain/client.go:127-138 | whatever the server sent, the accepted part is the consecutive chain segment below the requested hash, all above the limit |
| Client.HonestAnswerAccepted | pkg/blockchain/client.go:127-138 | an answer that is a true backward segment is never refused |
| Transactions.TransactionTable.SaveTransactions | pkg/db/transactions.go:47-72 | rows are inserted one by one and existing hashes left alone; an error iff a statement is not answered, and then exactly a prefix is there |
| Transactions.TransactionTable.GetTransactionByParentLt | pkg/db/transactions.go:14-26 | finds a row of the account with that previous lt iff there is one; an error iff the statement fails |
| Transactions.TransactionTable.NewestLt | pkg/db/transactions.go:97-109 | the largest stored lt of the account below a bound, 0 if none |
| Transactions.TransactionTable.GetGaps | pkg/db/transactions.go:74-111 | one gap for each row whose predecessor is missing, none twice, with the newest lt below it, and the newest lt of all; an error iff a statement fails |
| Transactions.SavedSegment | pkg/db/transactions.go:47-72 | saving a verified answer fills exactly its positions and loses or changes no row |
| Transactions.NewestPosition | pkg/db/transactions.go:96-109 | on faithful rows the newest lt is that of the last stored position below the bound |
| Transactions.GapPosition | pkg/db/transactions.go:76-103 | on a well-shaped table every reported gap starts at a stored transaction without stored predecessor and ends at the newest one stored below it |
| Transactions.GapsOfShape | pkg/db/transactions.go:76-103 | such a gap is the hole with both its ends, or the empty boundary at the start of the account |
| Transactions.OrphansAreUnjoined | pkg/db/transactions.go:76-79 | the query reports a stored transaction iff its predecessor in the chain is missing, so a hole is always reported |
| Transactions.OtherHistoryUntouched | pkg/db/transactions.go:47-72 | the loaders share one table, but saving for one account changes nothing in the history of another |
| Loader.BatchStaysAbove | pkg/indexer/loader.go:77-105 | a non-empty verified batch ends at or above the requested lower end and names the next hash and lt to fetch |
| Loader.LoaderWorker.FetchBatch | pkg/indexer/loader.go:79-95 | the first useful answer of the server, cut at the lower end; an error exactly after 200 useless ones |
| Loader.LoaderWorker.SyncGapIteration | pkg/indexer/loader.go:77-105 | a block right below the start has been added, complete on success; on a reversed gap an error that adds nothing; errors only for a silent server or a failing database |
| Loader.LoaderWorker.SyncHistoryGap | pkg/indexer/loader.go:54-75 | terminates; success fills everything between the start and the deeper of end and starting depth, nothing else, and sets lastLt to the start unless the gap was empty; failure, which takes a silent server or a failing database, adds a block hanging from the start |
| Loader.GapPositions | pkg/db/transactions.go:74-111 | the positions of all gaps of one query |
| Loader.UnjoinedIsListed | pkg/db/transactions.go:74-111 | every stored transaction without stored predecessor is among them |
| Loader.QueryIsStart | pkg/indexer/loader.go:30-38 | what the query brings is the starting step of the machine: all gaps, and the newest stored lt |
| Loader.LoaderWorker.QueryGaps | pkg/indexer/loader.go:30-38 | the query is tried twice and fails only with the database |
| Loader.LoaderWorker.Refill | pkg/indexer/loader.go:39-44 | refilling a gap, even one that is closed already, is a sequence of steps that takes it from the queue, complete or stopped after any row |
| Loader.LoaderWorker.Recover | pkg/indexer/loader.go:29-44 | from any well-shaped table, gaps in any order: a sequence of machine steps, wherever it stops; success leaves no hole and everything up to lastLt stored; failure leaves a well-shaped table |
| Loader.LoaderWorker.RefreshAccount | pkg/indexer/loader.go:107-131 | refused, with nothing written, iff the state could not be had, is older than lastLt, or could not be recorded; a panic takes a newer state and a silent server or failing database; otherwise exactly what lies between lastLt and the reported head is filled; in each case a sequence of machine steps |
| Loader.LoaderWorker.RefreshAll | pkg/indexer/loader.go:45-51 | without a panic or failing statement every reported state has been reached |
| Loader.LoaderWorker.Run | pkg/indexer/loader.go:29-52 | a whole life of the loader is a sequence of machine steps; it leaves a well-shaped table, and unless it panicked, which takes a silent server or a failing database, there is no hole; every reported state has been reached unless something failed |
| SyncSteps.LoaderStepKeepsInvariant | pkg/indexer/loader.go:29-131 | every single step, including one row of a batch after lastLt was rewound, keeps one lower interval and at most one upper one |
| SyncSteps.CrashKeepsInvariant | pkg/indexer/loader.go:29-44 | so does a crash, and growth of the chain |
| SyncSteps.RefreshingIsContiguous | pkg/indexer/loader.go:38-51 | whenever the refresh loop is idle there is no hole and everything up to lastLt is stored, though lastLt may have moved down |
| SyncSteps.GapsCanBeTaken | pkg/indexer/loader.go:39-61 | every queued gap starts at or above the deeper of its end and the starting depth |
| SyncSteps.LeadsKeepsInvariant | pkg/indexer/loader.go:29-131 | so does every sequence of steps, and it only adds rows |
| SyncSteps.SavesLead | pkg/indexer/loader.go:98-101 | a table in which a batch has filled any part of its block is reached row by row |
| SyncSteps.SyncLeads | pkg/indexer/loader.go:54-75 | whatever syncHistoryGap promises, complete or not, is a sequence of steps, and lastLt is where the steps put it |
| Payments.ToInt64 | pkg/indexer/indexer.go:106-110 | the conversion of an unsigned value to int64, congruent modulo 2^64 |
| Payments.ExtractNativePayments | pkg/indexer/indexer.go:66-130 | computes what the function says and what the message says |
| Payments.NativePaymentsRead | pkg/indexer/indexer.go:66-130 | only a successful internal transfer that names an invoice pays: once in TON, the value of the message, and in each extra currency with a non-zero amount, from its sender; an error iff such a transfer has an undecodable reference |
| Payments.ExtractJettonPayments | pkg/indexer/indexer.go:132-231 | computes what the function says and what the messages say |
| Payments.JettonPaymentsRead | pkg/indexer/indexer.go:132-231 | the first notification behind internal messages decides: it pays its own amount from its own sender if it names an invoice and went to the recipient, and is an error iff it cannot be decoded or lacks amount, sender or destination; otherwise nothing is paid |
| Payments.PaymentsServed | pkg/indexer/indexer.go:105-128 | all payments of a transaction name one invoice and are in a currency and for a recipient that the account serves |
| Payments.CurrenciesDiffer | pkg/indexer/indexer.go:105-128 | no two payments of a transaction are in the same currency |
| Payments.JettonPaymentsServed | pkg/indexer/indexer.go:219-228 | at most one payment, in the account's jetton, for its recipient |
| Payments.NativeAmountsSigned | pkg/indexer/indexer.go:106-110 | native amounts are non-negative exactly for values below 2^63 |
| Invoices.ConvertNewInvoice | pkg/api/handlers.go:349-398 | an accepted request gives a waiting invoice with positive amount, no overpayment and no receipt |
| Invoices.ExpiresAfterCreation | pkg/api/handlers.go:357-371 | the invoice ends after its creation iff the product, wrapped to 64 bits, is positive; the end is exact iff the lifetime is at most 9223372036 seconds |
| Invoices.LongLifeTimeExpiresAtOnce | pkg/api/handlers.go:371 | a concrete lifetime for which it ends before it begins |
| Invoices.ReplayExplained | pkg/db/invoices.go:202-383 | every timed history ends in the row that its payments, cancellations and sweeps prescribe; overpayment plus paid amount is the sum of all payments |
| Invoices.StatusIsDeclarative | pkg/db/invoices.go:344-363 | paid iff some payment by expire_at, with no cancellation in time before it, completes the amount, with the receipt of the first such payment; cancelled and expired in the same way |
| Invoices.WaitingIsShort | pkg/db/invoices.go:352-358 | a waiting invoice is short of its amount until its end has passed; paying and sweeping are never both possible |
| Invoices.PaidRecord | pkg/db/invoices.go:360-363 | paid iff each receipt column is set, and created_at <= paid_at <= expire_at |
| Invoices.FinishedIsFinal | pkg/db/invoices.go:202-383 | after any further events a finished invoice differs only in overpayment and updated_at |
| Invoices.UpdatedAtLastChange | pkg/db/invoices.go:202-383 | updated_at is the time of the creation or of an event; no payment is later, and what is later changed nothing |
| Invoices.SumDecides | pkg/db/invoices.go:344-363 | without cancellation and with non-negative payments on time, paid iff the sum reaches the amount, and the overpayment is the rest |
| Invoices.OrderDoesNotMatter | pkg/db/invoices.go:344-363 | the outcome then depends on the multiset of amounts only |
| Invoices.NegativeAmountsDependOnOrder | pkg/db/invoices.go:344-363 | why the sign condition is needed |
| Ledger.LedgerTables.ProcessPayment | pkg/db/invoices.go:307-383 | one payment inside the transaction: the row and key updates of `Booked`, and a notification iff it completed a waiting invoice; an error iff a statement fails |
| Ledger.LedgerTables.BookPayments | pkg/db/invoices.go:272-288 | all payments in order, or an error, iff a statement fails, before anything is committed |
| Ledger.LedgerTables.CommitPayments | pkg/db/invoices.go:265-297 | the transaction up to its COMMIT, with the three replies to that |
| Ledger.LedgerTables.SavePayments | pkg/db/invoices.go:265-305 | nothing committed and nothing changed; or books, cursor and parsing error committed together, and then the answer lost with nothing queued, some due notification missing, or all queued; success iff every statement is answered |
| Ledger.LedgerTables.SaveCurrencies | pkg/db/currencies.go:75-83 | all configured currencies are tracked, besides those that were, or a statement failed |
| Ledger.LedgerTables.CreateInvoice | pkg/db/invoices.go:18-63 | a fresh row under an unused id and in a tracked currency, or no change; a failure may leave the row without its notification; refused iff not creatable or a statement fails |
| Ledger.LedgerTables.CancelInvoice | pkg/db/invoices.go:202-224 | succeeds only on a waiting invoice before its end and changes only its status and time; "not found" changes nothing; fails iff a statement does |
| Ledger.LedgerTables.MarkExpired | pkg/db/invoices.go:226-263 | all overdue waiting invoices in one statement; each of them is queued unless a statement fails |
| Ledger.LedgerTables.GetInvoiceNotifications | pkg/db/invoices.go:161-186 | the oldest rows up to the limit in order of their time, each with its invoice as it is now |
| Ledger.LedgerTables.DeleteInvoiceNotification | pkg/db/invoices.go:188-193 | removes the rows of the invoice and keeps all others in their order |
| Ledger.WithoutKeepsOthers | pkg/db/invoices.go:188-193 | no row of the invoice is left, and every other one as often as before |
| Ledger.LedgerTables.DeleteOldNotifications | pkg/db/invoices.go:195-200 | removes the rows that are more than five days old |
| Ledger.RecentKeepsOthers | pkg/db/invoices.go:195-200 | exactly those, whatever they announce |
| Ledger.LedgerTables.SaveEncryptionKey | pkg/db/keys.go:12-19 | stored unaccepted under its time if the address has none; the first key of an address is kept |
| Ledger.LedgerTables.GetEncryptionKey | pkg/db/keys.go:21-33 | the key of an address iff it has been accepted |
| Ledger.LedgerTables.DeleteExpiredKeys | pkg/db/keys.go:35-41 | exactly the keys that are accepted or at most an hour old remain, unchanged |
| LedgerRuns.BookedEvents | pkg/db/invoices.go:281-287 | booking a list of payments acts on each invoice as the payments with its id, currency and recipient |
| LedgerRuns.AppliedEvents | pkg/db/invoices.go:202-383 | every operation acts on each invoice as its own events |
| LedgerRuns.RowIsReplay | pkg/db/invoices.go:202-383 | in every reachable state the row of an invoice is the replay of its own history from its creation |
| LedgerRuns.HistoryTimed | pkg/db/invoices.go:321 | that history runs forward in time |
| LedgerRuns.EveryRowExplained | pkg/db/invoices.go:202-383 | every row of every reachable state is explained by its history; no money appears or is lost |
| LedgerRuns.EveryWaitingRowIsShort | pkg/db/invoices.go:352-358 | the threshold property in every reachable state |
| LedgerRuns.EveryReceiptComplete | pkg/db/invoices.go:360-363 | the receipt property in every reachable state |
| LedgerRuns.FinishedRowsStay | pkg/db/invoices.go:202-233 | paid, cancelled and expired rows keep status and receipt in every later state |
| LedgerRuns.RunPreserves | pkg/db/invoices.go:18-63 | no operation removes an invoice or changes its currency, recipient or metadata |
| LedgerRuns.RequestTakesEffect | pkg/api/handlers.go:349-398 | a request makes an invoice iff amount and lifetime are positive, the currency is tracked, a merchant is named and the category code has at most four digits |
| LedgerRuns.RequestMeetsPayment | pkg/api/handlers.go:349-398 | the invoice of an accepted request is paid by the first payment sent for it iff that reaches the amount asked for within the lifetime; payer, surplus and metadata follow |
| Disclosure.GetEncryptedData | pkg/api/handlers.go:177-223 | metadata and accepted key of the payer of a paid invoice, or the reason why not; unavailable iff a statement fails |
| Disclosure.PayerIsKnown | pkg/api/handlers.go:195-199 | the dereference of paid_by never fails |
| Disclosure.AcceptedKeysStay | pkg/db/keys.go:12-41 | an accepted key is never replaced or deleted |
| Disclosure.AcceptedKeysAreEarned | pkg/db/invoices.go:336-342 | every stored key was committed, and acceptance takes a later credited payment from its address |
| Disclosure.SettledKeys | pkg/db/invoices.go:336-339 | a settlement accepts exactly the keys of its credited payers and changes nothing else of the keys |
| Disclosure.KeyThenPaymentDiscloses | pkg/api/handlers.go:195-212 | who commits a key and then pays the invoice, enough and in time, gets the metadata of the request for that key |
| Disclosure.FreshKeysSurvive | pkg/db/keys.go:35-41 | a committed key is kept unchanged for an hour without payment |
| Disclosure.DisclosureIsStable | pkg/api/handlers.go:195-207 | metadata once retrievable stays retrievable, with the same key and the same content |
| Disclosure.SeparateReadsAgree | pkg/api/handlers.go:187-199 | reading row and key at different times discloses what one reading would |
| Indexer.ChildOf | pkg/db/transactions.go:14-26 | the child of a position is the next chain transaction, found iff it is stored |
| Indexer.IndexerWorker.LoadCursor | pkg/indexer/indexer.go:21-34 | a starting worker takes over the stored cursor; it fails iff there is none or the statement fails |
| Indexer.IndexerWorker.RunOnce | pkg/indexer/indexer.go:36-63 | advances by one stored transaction, parsable or not, with books and stored cursor; never over a missing one; after an error, which takes a failing statement, the cursor stays, and nothing has changed or all has been committed |
| Indexer.IndexerWorker.Run | pkg/indexer/indexer.go:36-64 | unless an error followed a commit, the books have seen exactly the next transactions of the chain, in order; if every statement is answered, one for each pass until one is missing |
| Pipeline.FirstCommitOk | pkg/db/invoices.go:265-305 | a commit at the stored cursor extends the settled segment by one transaction |
| Pipeline.RepeatedCommitOk | pkg/indexer/indexer.go:54-61 | a commit behind it repeats the last settlement and leaves the indexer at most one behind |
| Pipeline.NextKeepsInvariant | pkg/indexer/manager.go:83-93 | every step of loaders, indexers, ledger and chain, and every crash, keeps the system invariant |
| Pipeline.ExecutionKeepsInvariant | pkg/indexer/manager.go:83-93 | it holds in every state of every execution |
| Simulation.PassIsCommit | pkg/indexer/indexer.go:36-63 | a pass of the indexer class is a commit of the machine with the same outcome, or changes nothing |
| Simulation.RestartIsCrash | pkg/indexer/indexer.go:21-34 | a worker made anew from the stored cursor is what a crash leaves |
| Simulation.LeadsIsExecution | pkg/indexer/loader.go:29-131 | the steps that the loader's methods report make up an execution of the machine |
| Retries.LagStep | pkg/indexer/indexer.go:54-61 | the indexer's cursor falls behind by an error after a commit, until the next commit or a crash |
| Retries.RepeatsAreRedone | pkg/indexer/indexer.go:54-61 | a transaction is committed again iff such an error is followed by another commit before a crash |
| Retries.Multiplicity | pkg/indexer/indexer.go:36-64 | each settled transaction was committed once, and once more for each repetition |
| Retries.RepeatsGetThrough | pkg/db/invoices.go:294-303 | if no answer is lost, a repeated commit finds its invoice paid, has nothing to notify and succeeds |
| EndToEnd.ExactlyOnce | pkg/indexer/indexer.go:36-64 | the settlements of an account, with its own account data, equal the chain segment, each once and in order, iff no error behind a commit was followed by another commit before a crash |
| EndToEnd.SettlementsAreOwn | pkg/indexer/manager.go:83-93 | every settlement in the books is of a tracked account and was read with that account's own data |
| EndToEnd.NothingSkipped | pkg/indexer/indexer.go:36-64 | in any case the settlements are that segment in order with immediate repetitions, as many of each transaction as were redone |
| EndToEnd.NeverThreeTimes | pkg/indexer/indexer.go:54-61 | if no answer to a COMMIT is lost, nothing is settled more than twice |
| EndToEnd.CleanRunsAreExact | pkg/db/invoices.go:265-305 | exactly once when SavePayments fails only before its commit or the process dies |
| EndToEnd.EveryInvoiceExplained | pkg/db/invoices.go:265-383 | in every state of every execution each invoice is the one its history prescribes |
| EndToEnd.ReceivedIsOnChain | pkg/db/invoices.go:307-383 | what an invoice has received is the sum that the chain transactions of its account carry for it, from its creation up to last_processed_lt |
| EndToEnd.NeverPastTheHole | pkg/indexer/loader.go:29-131 | at most one hole in every state, and both cursors at or below it |
| EndToEnd.IdleMeansDone | pkg/indexer/indexer.go:36-64 | loader at the head and no child found: last_processed_lt is that of the head |
| Repetitions.FailedNotificationRepeats | pkg/db/invoices.go:298-303 | whenever a notification is due, its failure leads to booking all payments a second time |
| Repetitions.LostAnswersRepeat | pkg/db/invoices.go:294-297 | any transaction can be committed any number of times when answers to COMMIT are lost |
| Repetitions.OneTransferBookedTwice | pkg/indexer/indexer.go:54-61 | a concrete execution: one transfer of 5 pays an invoice of 5 and leaves an overpayment of 5 |
| Interleaving.WriteKeeps | pkg/db/invoices.go:344-366 | the writes of one worker disturb no reading of another |
| Interleaving.MoneyIsConserved | pkg/db/invoices.go:307-366 | with SELECT and writes apart, overpayment plus paid amount is the sum of the committed payments in every state |
| Interleaving.WriteIsAtomicUnlessOvertaken | pkg/db/invoices.go:321-366 | a write equals one atomic step, and leaves a final status alone, iff the invoice was not cancelled or expired behind a reading that pays it |
| Interleaving.FinishedUnlessOvertaken | pkg/db/invoices.go:202-233 | a step takes a finished invoice out of its status iff it is such a write, and then into paid |
| Interleaving.PaidIsFinal | pkg/db/invoices.go:352-363 | a paid invoice keeps status and receipt in every execution |
| Interleaving.FinishedIsFinalUnlessOvertaken | pkg/db/invoices.go:202-233 | from any state to any later one a finished invoice keeps status and receipt iff no overtaken write on it came in between |
| Interleaving.CancelledInvoiceIsPaid | pkg/db/invoices.go:352-363 | a concrete execution in which a cancelled invoice becomes paid |
| Notifier.NotifierWorker.Notify | pkg/notifier/notifier.go:68-85 | sends all printable messages of the batch in order and leaves the queue without their rows; a batch ends early iff a message is not acknowledged or a statement fails, and then only the rows of the last message may remain |
| Notifier.PrintedAre | pkg/notifier/notifier.go:68-75 | exactly the messages that can be printed are sent, each as often as it is in the batch |
| Notifier.SentAreDequeued | pkg/notifier/notifier.go:68-85 | exactly the invoices that were sent are then not queued any more |
| Notifier.NotifierWorker.RunOnce | pkg/notifier/notifier.go:42-66 | the invoices of the ten oldest rows are read as they are now, then sent in that order |
| NotificationRuns.LiveRowsAdvance | pkg/db/invoices.go:150-159 | what has been read is never ahead of the live rows |
| NotificationRuns.NotificationsNeverRegress | pkg/notifier/notifier.go:38-85 | the messages about an invoice are waiting ones followed by repetitions of one final status |
| NotificationRuns.DueAreChanges | pkg/db/invoices.go:298-303 | SavePayments queues a row for an invoice iff it has moved it to paid |
| NotificationRuns.PostedIsPresent | pkg/db/invoices.go:188-193 | before the DELETE the present status has been announced iff it is the one in the message just sent |
| NotificationRuns.CoveredUnlessMissed | pkg/notifier/notifier.go:68-85 | a step leaves the present status announced or still to be iff it is not a DELETE behind a newer status, the loss of the last row, or the purge of too old ones |
| NotificationRuns.PresentStatusCovered | pkg/notifier/notifier.go:38-85 | in an execution without such steps the present status of every invoice is announced or still going to be |
| NotificationRuns.NeverAnnounced | pkg/notifier/notifier.go:38-85 | a final status that has been lost to the queue is never announced later |
| MissedStatus.PaidIsNeverAnnounced | pkg/db/invoices.go:188-193 | a concrete execution in which the payment of an invoice is never announced |
| Accounts.AccountTables.GetTrackedAccounts | pkg/db/accounts.go:12-68 | exactly the stored recipient and the wallets of configured jettons, with their stored starts |
| Accounts.AccountTables.CreateAccount | pkg/db/accounts.go:79-131 | account and wallet row together, both cursors at the start; an error iff the address is stored or a statement fails |
| Accounts.FindMissing | cmd/api/accounts.go:16-51 | in any order of the currencies, an account for each one that has none, and the stored ones untouched; an error only for a wallet that cannot be looked up |
| Accounts.CreateMissing | cmd/api/accounts.go:52-71 | creates them at the heads that the chain reports, start_tx_lt and last_processed_lt alike, and tracks them from there; stored accounts keep their start; a failure leaves consistent tables and takes a missing head, a stored address or a failing statement |
| Accounts.GetAccountsForTracking | cmd/api/accounts.go:11-72 | the result is what the tables then say; they are complete, stored accounts are kept, new ones start at their heads; complete tables are left alone and only a failing statement stops the start |
| Accounts.CompleteCovers | cmd/api/accounts.go:16-51 | complete tables track exactly one account for each jetton, one for TON, and no other |
| Accounts.TrackedIsUnique | pkg/db/accounts.go:12-68 | the tables determine what is tracked |
| Accounts.StartTwice | cmd/api/accounts.go:11-72 | a second start leaves the tables as they are and, unless a statement fails, returns the same accounts from the same positions, whatever the heads are by then |
| Accounts.TrackedAccountsDisjoint | pkg/indexer/manager.go:83-93 | the accounts of one start credit disjoint sets of invoices |
| Migrations.Database.ApplyScript | pkg/db/connection.go:84-103 | one script between the two marks, stopped anywhere |
| Migrations.Database.Migrate | pkg/db/connection.go:41-106 | stopped anywhere, the version row is sound and no script runs twice; refused iff dirty, then left alone, or the directory is not in order; stopped iff a statement is not answered; otherwise clean at the highest version |
| Migrations.Database.StartRepeatedly | pkg/db/connection.go:41-106 | the same over any sequence of starts with any directories, with the causes of each refusal |
| Migrations.CleanVersionCounts | pkg/db/connection.go:81-103 | a clean version v: scripts 1 to v ran, each once and in order; a dirty one leaves only script v open |

## Left out

- HTTP routing, authentication, JSON, the web hook transport, logging, sleeping and time-outs.
- The lite client, TVM, cells and message decoding, payloads and links, signatures and encryption: a
  message carries its decoded invoice reference, amount and sender, or the fact that they are missing.
- The trusted masterchain block, and the columns last_tx_lt, last_tx_hash and last_checked_block,
  which nothing reads back.
- The lookup of the currency of a new jetton wallet or of a queued invoice finds it: the currencies are
  saved first (cmd/api/main.go), and an invoice refers to a stored one.
- The truncation of times to microseconds by the database, against which Go compares nanoseconds.
- Waiting of a cancellation for a row lock held by a running payment: such a cancellation comes after it.
- Loader.LoaderWorker.Run: takes the list of reported heads instead of looping forever, and the chain
  as it finally is instead of as it grows; `Pipeline.dfy` has the growing chain.
- Indexer.IndexerWorker.Run: takes a list of passes instead of looping forever.
- Ledger.LedgerTables.SavePayments: one instant for all payments of a transaction; they are in different
  currencies (`Payments.CurrenciesDiffer`), so at most one of them is booked on a given invoice.
- Parsing of extra-currency ids with 32 signed bits (pkg/db/currencies.go:60): invoices are only made
  in TON and jettons.
