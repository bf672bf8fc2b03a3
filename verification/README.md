# FastKit: five state machines, modelled and proved

FastKit turns subscriptions into grants, grants and purchases into credits and owned products, keeps uploaded files
exactly as long as a row names them, believes gateways whose words arrive out of order, and answers a client's named
write once. This project models those five machines in Dafny and proves what they promise, over every input, every
interleaving and every run.

| file | what it models |
|---|---|
| `dates.dfy` | the calendar arithmetic of `helpers/dates.py` |
| `schedule.dfy` | the walk of a recurring benefit: landing, missed-cycle policies, pause and resume, due passes |
| `ledger.dfy` | balances and the append-only ledger, for one caller and for any number of them |
| `commerce.dfy` | ownership, product credits and purchases moved by compare-and-set |
| `idempotency.dfy` | client keys: claim, take over, give back, settle |
| `delivery.dfy` | grants, claims, bounded attempts and crashes between the ledger and the grant |
| `entitlements.dfy` | what a subscription gives access to, under every transaction that touches it |
| `reconciliation.dfy` | gateway words, stamps and whole answers |
| `uploads.dfy` | mentions, releases, cascading deletes and sweeps, one request at a time |
| `upload_protocol.dfy` | the same statements interleaved by any number of workers, several on one row too |
| `lost_file.dfy` | a run of three crossing saves that leaves a file behind |

Services that update rows in place are classes whose methods are proved against functions of the state; where calls
meet, a step function gives one event per statement or per commit, an event whose moment has not come changes nothing,
and a run is any sequence of events. The theorems named `EveryRun...` hold of all of them.

## Assumptions

- The database is READ COMMITTED and row locks are held to the commit (`helpers/db.py:44-45`). A conditioned UPDATE or
  DELETE reads its own row again after waiting; a sub-select in it sees the statement's own snapshot.
- The clock does not go back. A grant or client key past its window has no live worker (`services/delivery_service.py:39`,
  `helpers/idempotency.py:20`); the models let time pass only that far while a worker lives. Two stamps given to one file differ.
- In the engine, the held-already check of `run_cycle` and its insert are one step, picking a grant of the retry pass is
  one step, and a transfer is one step. Delivering is two: the checks under the hold with what the handler commits, then the
  status of the grant with the move of the schedule. A worker may die between them.
- Identifiers of new files cannot be named before the upload answers. An upload's row and its object appear in one step.
- Idempotency and cycle keys are values with the parts their strings are made of.

## What does not hold

The code is modelled as it is. Where a promise fails, a lemma shows how and when.

- A due slot whose key is held by a grant of a replaced cycle is never advanced past, because the schedule moves only for
  a grant of the row's own cycle (`services/delivery_service.py:370-371`). Under catch-up the row then stays due for good:
  `Schedule.DuePassMovesExactlyWhen` says when for one pass, `Schedule.DuePassesSettle` for all the passes over a backlog,
  and `Schedule.TransferInsidePaidCycleStopsCatchUp` how a receipt transfer gets there.
- "A benefit that is not active has no date" fails under one transaction, the unconditioned date a skipping pass writes on
  a row that stopped after it was loaded: `Entitlements.DatesFailExactlyUnderALateSkip`. The date is harmless on an
  eligible return: `Entitlements.LateDateIsForgotten`.
- Words that leave a purchase waiting take the stamp and say nothing, so their order can matter:
  `Reconciliation.OrderMattersExactlyWhen` says when, and `Reconciliation.WaitingWordsDependOnOrder` is a pair that does.
- Clamping keeps the order of days and not of times of day: `Dates.ClockOrderHoldsExactlyWhen` says when, and
  `Dates.TimeOfDayIsNotMonotone` is a pair that breaks it.
- A key met already committed for another account is refused by the unique key rather than answered:
  `Ledger.AnswerIsSequential` says when, `Ledger.TwoAccountsOneKey` is a run.
- A file can be left behind without a crash when three saves of one row cross, because a mention found instead of written
  is not locked (`services/upload_service.py:117-118`): `UploadProtocol.SaveLosesExactly` says when, `LostFile` is a run.
  Saves of one row cross only where no row lock is held while the mentions are read: an edit whose flush writes nothing,
  and a deletion, which forgets before it locks (`services/crud_service.py:373-379`).

## Model

| member | source | states |
|---|---|---|
| Dates.OrdinalOrders | helpers/dates.py:43-57 | The day count every statement about dates is made in orders valid dates by year, month and day and names each day once, so "later" and "a day" mean what they mean on the calendar. |
| Dates.MonthStartsAt | helpers/dates.py:48 | The days before each month of a year, summed from the month lengths, are those of the closed formula of the calendar, leap years included, so no month can be longer or shorter. |
| Dates.AddMonthsLands | helpers/dates.py:43-50 | The result is a valid date exactly that many months on, on the asked day or the last one the month has; stepping by 0 is the identity. |
| Dates.AddMonthsMonotone | helpers/dates.py:43-50 | A later day never steps to an earlier day, clamped or not. |
| Dates.AddMonthsComposes | helpers/dates.py:43-50 | Stepping a then b months lands in the month of a+b on a day no later than the one long step, and on the same date if and only if the stop between did not clamp below it. |
| Dates.AddYearsLater | helpers/dates.py:10-50 | k years are at least 365k days, from the 29th of February too. |
| Dates.AddDaysCounts | helpers/dates.py:57 | Carrying days over month ends, in either direction, moves the day count by exactly that many. |
| Dates.AddIntervalLater | helpers/dates.py:53-57 | n units walk forward at least n times the shortest the unit can be (1, 7, 28, 365 days), in days and on the clock, and by exactly that for days and weeks. |
| Dates.AddIntervalMonotoneByDay | helpers/dates.py:53-57 | A walk step keeps the order of days for every unit and value. |
| Dates.AddIntervalLands | helpers/dates.py:10-57 | A day step is that many days on and a week step seven times as many; a month step is that many months on and a year step twelve times as many, on the same day or the last one there is; the time of day stays. |
| Dates.ClockOrderHoldsExactlyWhen | helpers/dates.py:43-57 | Two instants in order stay in order under every day and week step, for every value, and under a month or year step if and only if it is not so that they share a month, the earlier date is later in its day, and both dates clamp to that month's last day. |
| Schedule.WalkKeysDiffer | services/delivery_service.py:263-264 | Although a cycle key drops the fraction of the second, no two slots of one walk share a key. |
| Schedule.ActivationKeysDiffer | services/delivery_service.py:92-98 | The activation of a cycle opened again, or of a benefit that does not recur, has a key no slot has and no other cycle has, whatever the slot. |
| Schedule.BehindCounts | services/delivery_service.py:240-250 | The number of slots a row is behind is the number of slots of its walk at or before the moment, so both loops of the engine end where the walk says. |
| Schedule.Landing | services/delivery_service.py:100-108 | The loop ends on the last slot reached by the moment, or on the start when that is still ahead; it is the only such slot of the walk. |
| Schedule.LandingComposes | services/delivery_service.py:100-108 | Landing at t2 from the landing at t1 is landing at t2 from the start for t1 <= t2, and landing again at the same moment changes nothing. |
| Schedule.LandingOwesOne | services/delivery_service.py:100-108 | The landing is not before the start, the slot after it is past the moment, and at most that one slot is owed. |
| Schedule.SubscriptionBenefit.ResolveDueSlot | services/delivery_service.py:240-261 | The loop over missed slots answers the slot the policy grants and writes the date the policy leaves, both counted from how many slots the row is behind. |
| Schedule.SubscriptionBenefit.Resume | services/delivery_service.py:351-363 | A running row is untouched; one that was not comes back to the slot it lands in, walked from one interval after its last grant, or from its anchor. |
| Schedule.ComingBackOwesOne | services/delivery_service.py:351-363 | A row that was away comes back dated at the last slot reached by the moment of the walk that starts one interval after its last grant, or at its anchor, or at that start when it is still ahead; so the date is not before that start, the moment is before the slot after it, and at most one slot is owed. |
| Schedule.PausingTwiceIsPausingOnce | services/delivery_service.py:66-70 | A resume and a pause in between leave the very row that one resume at the end leaves, so any number of pairs owes what one does. |
| Schedule.CatchUpPaysInOrder | services/delivery_service.py:209-264 | Under catch-up n passes over slots no replaced cycle holds leave exactly the first n slots owed granted, each once, closed, in the row's cycle and under its own key, whether the grant was there before or is new, keep every grant there was, and leave the date on the n-th slot of the walk. |
| Schedule.DuePassesSettle | services/delivery_service.py:209-264 | With k slots due, grants of some of them possibly there already, and every new grant closing, the row is no longer due after k passes if and only if a replaced cycle holds none of the slots the policy pays; then catch-up has paid all of them, latest-only the last one, skip the only one if k = 1 and otherwise none, no slot twice, and all three stand on the same first slot after the moment. |
| Schedule.BlockedPassesStop | services/delivery_service.py:302-309 | Otherwise the passes stop: catch-up pays everything before the first slot a replaced cycle holds and stands on it, still due, and the other policies change nothing. |
| Schedule.DuePassMovesExactlyWhen | services/delivery_service.py:226-235 | A pass moves the date of a row if and only if it skips, the slot's key is free, or the grant that holds it is of the row's own cycle. |
| Schedule.ReplacedCycleStopsCatchUp | services/delivery_service.py:302-309 | A catch-up row whose due slot is keyed by a grant of a replaced cycle is due for ever and no pass at any later moment changes anything. |
| Schedule.TransferInsidePaidCycleStopsCatchUp | services/reconciliation_service.py:348-369 | A transfer that lands on a slot the account before was granted leaves a catch-up row exactly there, unless an activation grant moves it on. |
| Schedule.FirstSlot | services/delivery_service.py:110-115 | A recurring benefit new to the subscription is owed the slot it lands in, another one its anchor if activation grants it, and otherwise nothing. |
| Schedule.TwoDoorsOneGrant | services/delivery_service.py:92-98 | In the first cycle the activation and the due pass write the same book for the same slot at the same moment; whichever comes second, at any later moment, writes no grant and leaves the date, and when the grant closed it moves the moment of the last grant, which a later return walks from, to its own. |
| Ledger.SignedAmount | services/credit_transaction_service.py:23-34 | A credit adds its amount, a debit and a reversal take it, an adjustment carries its own sign, and a negative magnitude is refused, for directed kinds and only for them. |
| Ledger.MovedKeepsBalanced | services/credit_transaction_service.py:65-101 | One movement keeps every balance the sum of its entries and every balance_after the prefix sum, all within 0..BIG_INTEGER_MAX with no key twice, adds its signed amount to its own account and nothing to any other. |
| Ledger.MoveDecides | services/credit_transaction_service.py:71-101 | Under a new key a movement is written if and only if the account may hold the currency, a directed amount is not negative and the balance stays within 0..BIG_INTEGER_MAX; the entry is then the signed request with the balance it leaves, and each refusal names its own reason and changes nothing. |
| Ledger.KeyRepeats | services/credit_transaction_service.py:66-83 | Any request under a key that was settled changes nothing and answers the original entry. |
| Ledger.CreditTransactionService.SettledByKey | services/credit_transaction_service.py:59-63 | The entry of a key when there is one, and nothing otherwise. |
| Ledger.CreditTransactionService.Move | services/credit_transaction_service.py:65-101 | The tables and the answer, refusals included, are those of the movement specification, and the ledger stays balanced. |
| Ledger.CommitIsSequential | services/credit_transaction_service.py:80-101 | The commit of a mover holding the balance row writes what the sequential movement writes on the tables at that moment, and no other mover's read goes stale. |
| Ledger.EventIsSequential | services/credit_transaction_service.py:65-101 | Any one step of any mover leaves the tables alone or applies the sequential movement of the mover that commits, keeps the ledger a prefix of what follows and never changes an answer given. |
| Ledger.AnswerIsSequential | services/credit_transaction_service.py:65-101 | An answer is what the sequential movement answers at the moment it is given if and only if the mover did not crash and its commit did not meet its key; it is a duplicate refusal exactly in that last case, and then the key is another account's. |
| Ledger.TwoAccountsOneKey | services/credit_transaction_service.py:66-101 | Two credits under one key for two accounts, both looked up before either commits: the second is refused by the key rather than answered. |
| Ledger.EveryRunIsBalanced | services/credit_transaction_service.py:65-101 | With any number of movers, in any interleaving and with any crashes, the ledger is balanced and only grew, and all callers answered for one key hold the same entry. |
| Ledger.EveryRunRereadsUnderTheLock | services/user_balance_service.py:27-35 | In every run, whoever holds a balance row is the only one to hold it, reread under the lock the committed balance, and is about to write its signed amount on top of exactly that. |
| Ledger.EveryRunLetsGo | services/credit_transaction_service.py:65-101 | In every run nobody who was answered or died keeps a balance row: whoever waits for a row nobody is moving gets it at once, with the committed amount. |
| Commerce.WordsNeverUnsettle | services/commerce_service.py:53-59 | Over any words: pending is never re-entered, refunded is absorbing, the settled set is closed, and the end is the start or one of the words. |
| Commerce.WordsThatMove | services/commerce_service.py:53-59 | Which word moves which status where: pending, canceled and declined to anything but pending, paid to refunded or charged back, charged back to refunded or, a dispute won, to paid, refunded nowhere. |
| Commerce.CreditsOncePerOwner | services/commerce_service.py:22-37 | The ledger holds at most one entry of a product's credits per user and product, whatever mix of purchases, won disputes and plan grants pays for it, and never without the ownership row. |
| Commerce.GrantKeepsExplained | services/commerce_service.py:22-37 | Handing over writes exactly one ownership row, says so if and only if it did, enters the product's credits in its currency exactly then when it has any, and keeps every ownership row explained by a source that pays for it and every product entry by its product. |
| Commerce.GrantFailsExactlyWhen | services/commerce_service.py:22-37 | A product is not handed over if and only if it is not owned yet, has credits and a currency, and the ledger refuses the movement of those credits under the key of what paid. |
| Commerce.WinKeepsValid | services/commerce_service.py:51-74 | A status that moved keeps the shop valid; the word paid leaves the product owned in the same commit, and any other word hands over and enters nothing. |
| Commerce.CommerceService.Grant | services/commerce_service.py:22-37 | Ownership and credits land together or, when the ledger refuses, neither does; a second grant of an owned product changes nothing. |
| Commerce.CommerceService.OpenPurchase | services/commerce_service.py:39-49 | A purchase waits if and only if the product is not owned yet. |
| Commerce.CommerceService.SettlePurchase | services/commerce_service.py:51-74 | A word that does not move the status the caller had read ends the call; any other one moves the status the row really has by the sequential transition, however stale that read was, and hands the product over exactly when the row becomes paid. |
| Commerce.SettlingDecides | services/commerce_service.py:51-74 | What a settling does, by the transition alone: a word that does not move the status read ends it, any other one moves the status there is, ownership grows exactly when that becomes paid, and a refusal of the ledger leaves everything. |
| Commerce.EventKeepsInv | services/commerce_service.py:51-74 | Every step of every concurrent call, of other purchases, of new ones and of plan grants keeps the shop valid and the linearization built so far. |
| Commerce.ShopStepKeepsValid | services/delivery_service.py:457-471 | A plan grant, another purchase settling or opening keeps every owned product explained and leaves the payment in question where it is. |
| Commerce.EveryRunLinearizes | services/commerce_service.py:51-74 | Concurrent calls about one payment end where the sequential transition function takes their words in one order that counts each answered call once; with n calls none goes back more than n-1 times; what was ever paid stays owned and every product credit explained. |
| Idempotency.ClientRequests.Claim | helpers/idempotency.py:47-83 | A free key is taken, an answered one answers, another endpoint's is refused, one in flight is refused inside its window and taken over after it, and no other key is touched. |
| Idempotency.ClientRequests.Once | helpers/idempotency.py:25-100 | One call alone, case by case over the row there was: it works on a free key, or on one of its endpoint unanswered for over five minutes; it is refused as reused if and only if the endpoint differs, and as in flight if and only if the key is its endpoint's, unanswered and younger; answered keys answer; a failure leaves no row and an answer stays in it. |
| Idempotency.FailureFreesTheKey | helpers/idempotency.py:34-42 | Among any callers, a call that fails leaves no row, and the next call to arrive, of whatever endpoint, gets to work under a row of its own. |
| Idempotency.DeathKeepsTheKey | helpers/idempotency.py:76-83 | A call that dies leaves its row, and the next call gets to work if and only if it is of the same endpoint and the claim is older than five minutes. |
| Idempotency.AnswerIsKept | helpers/idempotency.py:95-100 | A call that answers leaves that answer in the row it worked under, and nothing else in it changes. |
| Idempotency.EventKeepsInv | helpers/idempotency.py:25-100 | Each statement of each caller keeps a single worker, a single recorded answer and an untouched answered row. |
| Idempotency.EveryRunAnswersOnce | helpers/idempotency.py:25-100 | From a fresh key, through failures, give-backs, crashes and take-overs in any order: at most one caller works, at most one answer is ever recorded, the row as it is once answered stays so to the end, and every caller that returns an answer returns that one. |
| Idempotency.NextCallWorksExactlyWhen | helpers/idempotency.py:47-83 | The next call gets to work if and only if the key is free, or it is of the same endpoint, unanswered and past its window. |
| Idempotency.SentAgainAnswersAlike | helpers/idempotency.py:67-68 | Sending an answered write again, at any time and whatever the work would answer by then, returns the first answer and leaves the row alone. |
| Delivery.EveryRunCreditsEachGrantOnce | services/delivery_service.py:299-349 | In every run with workers dying anywhere, also between the ledger commit and the grant commit: at most one ledger entry per grant key, of exactly the quantity the benefit was snapshot with, and exactly one once a credit grant is completed. |
| Delivery.EveryRunCreditsAPersonOnce | services/delivery_service.py:266-275 | A once-per-user benefit is credited at most once per person and catalog benefit over all subscriptions, even when a crash follows the credit, the grant is dropped or given up and its key freed, and another subscription runs it later. |
| Delivery.EveryRunBoundsAttempts | services/delivery_service.py:513-530 | Attempts stay within 1..MAX_ATTEMPTS and a committed failed grant always has one left. |
| Delivery.EventKeepsInv | services/delivery_service.py:299-349 | Every event keeps unique grant and person keys, one credit per key, grants that name their person while their cycle is current, and workers inside their window. |
| Delivery.BeginKeepsInv | services/delivery_service.py:311-349 | Beginning a cycle keeps it all: a person already credited is skipped, a key already held loses, and a new grant takes the key only when no entry credited that person. |
| Delivery.CreditKeepsInv | services/delivery_service.py:429-438 | Crediting a claimed grant enters it once, under the person its key names, and meets its own entry when it was credited by an attempt that died. |
| Delivery.DeliverKeepsInv | services/delivery_service.py:382-418 | A delivery, dropped or not, keeps unique keys, one credit per key, grants that name their person and completed credits entered. |
| Delivery.DeliveryDecides | services/delivery_service.py:387-438 | A delivery hands over anything only while the benefit runs, the subscription is trialing, active or in grace with running benefits, the grant is of the current cycle and the policy of a trial or a grace lets the kind through; otherwise it is dropped and the ledger untouched; and then an access is delivered, a credit is the ledger's movement, and either ends delivered if and only if nothing raises or refuses. |
| Delivery.CreditIs | services/delivery_service.py:429-434 | The movement of a credit is the snapshot quantity, in the benefit's currency, to the person the subscription is of, under the grant's key and id. |
| Delivery.MarkDecides | services/delivery_service.py:558-563 | A delivered grant is completed, a dropped one skipped, one that raised failed below five attempts and skipped at the fifth, and only a skipped one loses the person's key. |
| Delivery.EveryCreditWasInForce | services/delivery_service.py:382-438 | In every run each credit of a grant was entered by a delivery at a moment the grant was in force so, to the person, in the currency and in the amount that were then its. |
| Delivery.BeginningDecides | services/delivery_service.py:299-337 | A cycle nobody wrote: skipped for a once-per-user benefit the person holds by a completed grant or a ledger entry, left alone while another grant has the person's key, skipped where withheld, and otherwise begun with one attempt for the slot in the current cycle. |
| Delivery.CycleEndsAs | services/delivery_service.py:299-337 | A whole cycle by a worker that lives: completed if and only if it is in force and neither handler nor ledger refuses, failed if and only if it is in force and one does, and otherwise skipped with nothing entered. |
| Delivery.PickDecides | services/delivery_service.py:538-556 | A grant that failed or outlived its window is closed where it is not owed, with the schedule left, closed and moved past at the fifth attempt, and otherwise claimed for one more attempt at this moment. |
| Delivery.RetryEndsAs | services/delivery_service.py:532-568 | A retry: completed, failed with attempts left or skipped, exactly by whether the grant is in force, whether this attempt succeeds and whether it is the fifth; outside that nothing is entered. |
| Delivery.EventGrows | services/delivery_service.py:299-349 | No event rewrites a ledger entry or what was snapshot of a benefit, renames a grant, lowers its attempts or reopens it once it is closed. |
| Delivery.OpenIsSelectableInTime | services/delivery_service.py:513-534 | An open grant is selectable if and only if it failed or its window is over, so a live worker's never is and a dead one's always becomes so. |
| Delivery.HandlingSpendsBacklog | services/delivery_service.py:532-585 | Picking a selectable grant lowers the sum of (MAX_ATTEMPTS + 1 - attempts) over open grants by at least one, whatever comes of it, and no other worker step raises it. |
| Delivery.BatchIsSelectable | services/delivery_service.py:534-538 | A pass reads the first selectable grants by id, all of them unless the batch is full. |
| Delivery.RetryPassSpends | services/delivery_service.py:532-568 | A pass lowers that sum or finds nothing to pick, and leaves no open grant the next pass could not read. |
| Delivery.RetryPassesDrain | services/delivery_service.py:532-585 | As many passes as the sum leave nothing selectable, however often the handlers raise. |
| Delivery.NoGrantHoldsItsBenefit | services/delivery_service.py:212-213 | Once no live worker is inside a window, that many passes leave no benefit waiting on a grant, so none is kept out of the due pass for good. |
| Delivery.DeliveryService.RunHandler | services/delivery_service.py:387-438 | The checks and the handler commit exactly what the delivery event commits, for a handler that raises before, after or not at all. |
| Delivery.DeliveryService.DeliverGrant | services/delivery_service.py:382-418 | Delivering and committing a claimed grant is the delivery event followed by the commit of what came of it, the move of the schedule included. |
| Delivery.DeliveryService.BeginCycle | services/delivery_service.py:299-349 | The first commit of a cycle: nothing for one met again or lost to another holder of the person's key, a closed grant where nothing is owed, a claimed one otherwise. |
| Delivery.DeliveryService.RunCycle | services/delivery_service.py:299-337 | A whole cycle is the run of begin, deliver and commit of the state machine, with the schedule moved past a grant met again, skipped or closed, so every invariant of the runs holds of the method. |
| Delivery.CycleRefinesTheSchedule | services/delivery_service.py:299-374 | What one cycle of the engine does to the row and the grants of a recurring benefit is what the schedule says of a cycle whose grant ends as this one did, and no other benefit's schedule moves. |
| Delivery.DuePassRefinesTheSchedule | services/delivery_service.py:226-235 | A due pass of the engine over a row that owes a slot is the due pass of the schedule, so what is proved of repeated passes there holds of the engine's rows and grants. |
| Delivery.DeliveryService.HandleGrant | services/delivery_service.py:538-564 | One grant of a retry pass is dropped where it stands, closed and moved past, or claimed, delivered, committed and moved past, as the events say. |
| Delivery.DeliveryService.RetryFailedGrants | services/delivery_service.py:532-568 | The loop handles exactly the batch it read, is the retry pass of the specification, and spends at least one attempt per grant it worked. |
| Entitlements.SubscriptionRows.ExpireEntitlements | services/delivery_service.py:507-511 | Every entitlement of the subscription is expired and none is lost. |
| Entitlements.SubscriptionRows.EndBenefits | services/delivery_service.py:498-505 | Every benefit is ended with no date and every entitlement expired. |
| Entitlements.SubscriptionRows.ReconcileEntitlements | services/delivery_service.py:127-154 | The rows are the old ones and the promised ones, granted if and only if the plan promises them. |
| Entitlements.SubscriptionRows.SnapshotBenefits | services/delivery_service.py:156-203 | Owed benefits keep their snapshot and run, new ones are written with their first date, and every other one is ended with no date. |
| Entitlements.SubscriptionRows.Activate | services/delivery_service.py:62-76 | The two loops, or the pause of an ineligible subscription, leave the rows of the activation specification. |
| Entitlements.SubscriptionRows.Close | services/reconciliation_service.py:452-467 | A closing ends the subscription and everything under it, and closing again as the same changes nothing. |
| Entitlements.ActivationIsExact | services/delivery_service.py:62-76 | After an activation of an eligible subscription exactly the entitlements and benefits of the plan it is on now are active, and under any other none is. |
| Entitlements.EligibleActivation | services/delivery_service.py:62-76 | Under an eligible subscription each entitlement is granted if and only if the plan promises it; an owed benefit that was there comes back, a new one starts with its first date, and every other one ends with no date. |
| Entitlements.IneligibleActivation | services/delivery_service.py:67-72 | Under any other every entitlement is expired, a running benefit is paused with no date, and one that is not running is left as it is. |
| Entitlements.CameIsResumed | services/delivery_service.py:351-363 | Coming back is the resume of the schedule for a recurring row, date included, and for another one no more than running again. |
| Entitlements.EventKeepsInv | services/delivery_service.py:420-423 | Every transaction, a late access delivery and a late skip write included, keeps nothing active under a subscription that is not eligible and exactly the plan active under one activated since it moved. |
| Entitlements.EveryRunGivesWhatIsOwed | services/delivery_service.py:473-511 | From a fresh subscription, over any order of activate, gateway word, close, expire, repoint, transfer, new cycle, deliver and advance: nothing is active under one that is not eligible, and exactly the plan is under one activated since it moved. |
| Entitlements.DatesFailExactlyUnderALateSkip | services/delivery_service.py:258-261 | A transaction on rows whose stopped benefits carry no date leaves them so if and only if it is not a skip write that lands on a row that stopped since the pass loaded it. |
| Entitlements.EveryRunIsDated | services/delivery_service.py:420-511 | Over every run of a fresh subscription in which no skip came late, a benefit that is not active has no date. |
| Entitlements.LateDateIsForgotten | services/delivery_service.py:362-363 | An activation of an eligible subscription reads nothing from such a date and leaves no date on a row that does not run. |
| Reconciliation.ReconciliationService.Hold | services/reconciliation_service.py:261-277 | A word is heard if and only if it carries no stamp or one not older than the row's, and then takes the stamp. |
| Reconciliation.ReconciliationService.Adopt | services/reconciliation_service.py:322-346 | A transaction that is none, the row's own or another account's changes nothing; any other one is the row's, and the row of the account that carried it loses it and is closed. |
| Reconciliation.ReconciliationService.Repoint | services/reconciliation_service.py:279-300 | The row follows the product bought if and only if that is listed and active and not its own already; it is refused, with nothing changed, if and only if another row of the account has it. |
| Reconciliation.ReconciliationService.Align | services/reconciliation_service.py:395-415 | A refund or a period over closes this row alone; anything else is carried whole, with the transaction taken over as an adoption does. |
| Reconciliation.ReconciliationService.HandOver | services/reconciliation_service.py:348-369 | The transfer is refused, with nothing changed, if and only if the receiving account already has a row of the product; otherwise the row goes to it with what the purchase says and no other row moves. |
| Reconciliation.ReconciliationService.Open | services/reconciliation_service.py:371-393 | A purchase that is over, unmapped or names no transaction leaves every row alone; a live one is refused exactly when the account already has the product it would put there, and otherwise is carried, field by field, by the row that had its transaction or by one new row of the product's plan. |
| Reconciliation.ReconciliationService.Hear | services/reconciliation_service.py:239-252 | An unheeded word changes nothing, and a heeded one leaves exactly the row the word specification leaves, under the product and plan of the word when sold, with the transaction taken over as an adoption does. |
| Reconciliation.ReconciliationService.Settle | services/reconciliation_service.py:229-259 | The row an answer speaks of, by product or by transaction, is heard as the word specification says and leaves the leftovers; no other row does. |
| Reconciliation.ReconciliationService.Apply | services/reconciliation_service.py:200-221 | After a complete answer every row of the account listed under a product that is still eligible is one the answer names or one carrying a strictly newer stamp; a row no purchase names is at most relieved of its transaction, and after a complete answer stamped and expired unless its stamp is greater. |
| Reconciliation.WordLeaves | services/reconciliation_service.py:395-476 | What a word makes of a row, over its fields: revoked by a refund; expired by a named closing status, or, when it names none, by a grace end that is reached or, without one, a period end that is; and otherwise the named status, or suspended, grace period, trialing or active in that order, with the dates and flags of the word and no expiry. |
| Reconciliation.WordIsHeard | services/reconciliation_service.py:239-277 | A word under a lower stamp than the row's changes nothing, a waiting one on a row that does not wait moves the stamp alone, and any other one takes the stamp and effect. |
| Reconciliation.LastWordDecides | services/reconciliation_service.py:229-277 | Words about one open purchase, in any order and with any repetition, waiting ones and ones that name no state among them, take the row to the greatest stamp at or above its own; when that word names its state the row has its status and benefit status, and its whole snapshot when it does not close; when none reaches it the row is untouched. |
| Reconciliation.OrderDoesNotMatter | services/reconciliation_service.py:229-277 | Any two deliveries of the same words agree on the stamp, and when the last word that reaches the row names its state also on status, benefit status and, when it is not ended, the whole snapshot. |
| Reconciliation.StampNeverFalls | services/reconciliation_service.py:261-277 | No sequence of words of any kind lowers the stamp. |
| Reconciliation.ClosedAgainIsNoChange | services/reconciliation_service.py:452-467 | Any run of words that close a row the way it is closed moves its stamp and nothing else, the date it expired on included. |
| Reconciliation.OrderMattersExactlyWhen | services/reconciliation_service.py:229-277 | For words that all name a state, waiting or not, all deliveries agree on status and benefit status if and only if the last word that reaches the row names a state past waiting, or no word that reaches it and could move it says anything else than where that last word leaves it. |
| Uploads.UuidsAreUuids | helpers/storage.py:20-26 | Whatever value is scanned, what is found are lower-case identifiers. |
| Uploads.PatternIs | helpers/storage.py:21 | A match is eight hexadecimal digits of either case, three times four and twelve, with dashes between, and nothing else is. |
| Uploads.ScanTakesLeftmost | helpers/storage.py:24-26 | What a scan finds is exactly the lower case of the leftmost matches that do not overlap. |
| Uploads.EveryMatchIsFound | helpers/storage.py:24-26 | Wherever an identifier stands in a value, it is found, or a match that overlaps it and stands before it is. |
| Uploads.KeyNamesItsFile | helpers/storage.py:34-44 | A key whose identifier stands between a slash and a dot or another slash names it, and beside it only what its folder or its file name does. |
| Uploads.UuidNamesItself | helpers/storage.py:24-26 | An identifier scanned again names itself and nothing else, so a set of names may be handed on as values. |
| Uploads.NamedAgain | services/upload_service.py:27-29 | Reading the names of a set of names gives the set back. |
| Uploads.MentionedIsNamed | services/upload_service.py:93-124 | A stored file has a mention if and only if some row's columns name it, read from the rows themselves. |
| Uploads.ColumnsAreMentioned | services/crud_service.py:418-427 | A stored file is mentioned by a row if and only if a file column or a text of the row has its identifier in it. |
| Uploads.LetThroughExactlyWhen | services/upload_service.py:111-115 | A save is let through if and only if every key of a file column with an identifier the row newly names is the key of a stored file. |
| Uploads.ReleasedKeepsValid | services/upload_service.py:135-153 | Handed at least every claimed file that stopped being named, a release leaves exact mentions, an object under each stored file, and no claimed file unnamed. |
| Uploads.ReleaseTakes | services/upload_service.py:145-161 | A release takes exactly the files of its set no mention names, their objects and no other, and leaves rows, mentions and the other files as they are. |
| Uploads.DependentsGoExactly | services/crud_service.py:400-416 | Deepest branch first and reading thinned rows at each statement, exactly the rows the declared tree leads to from the rows as they were are gone, as long as no branch clears a table another still goes through. |
| Uploads.ChildrenGo | services/crud_service.py:408-414 | A row that points at the root through a declared dependent is at the end of its path, and so is one that points at a row at the end of the path before. |
| Uploads.OnlyChildrenGo | services/crud_service.py:408-414 | A row at the end of a path points at the root or at a row at the end of the path before. |
| Uploads.TreeDooms | services/crud_service.py:404-412 | The rows at the end of the path of each dependent, whichever it is and however deep, are doomed. |
| Uploads.FileService.Keep | services/upload_service.py:73-91 | A new file keeps every mention exact and gets its object. |
| Uploads.FileService.Mention | services/upload_service.py:93-124 | Refused if and only if a file column newly names a key no stored file has; otherwise the owner's mentions become what it names of what is stored, the dropped set is exactly the old minus the new, the newly named are stamped, and no other owner's mention moves. |
| Uploads.FileService.Release | services/upload_service.py:135-161 | The loop discards the rows and objects of exactly those files of the set that nothing mentions. |
| Uploads.FileService.DiscardOrphans | services/sweep_service.py:32-53 | Batch after batch, exactly the files nothing ever claimed that outlived the grace are gone with their objects, and the store stays valid. |
| Uploads.FileService.Create | services/crud_service.py:314-334 | The row lands with its mentions, or nothing does. |
| Uploads.FileService.Update | services/crud_service.py:336-366 | A refused edit changes nothing; one that lands keeps the mention table exact and removes precisely the files the old row named and no row names now, objects included. |
| Uploads.FileService.DeleteDependents | services/crud_service.py:400-416 | The loop and its recursion clear the rows of the threaded specification, drop exactly their mentions and answer exactly what those named. |
| Uploads.FileService.Delete | services/crud_service.py:368-383 | A row goes with its dependents, and precisely the files the removed rows named and no row names now go with them. |
| UploadProtocol.SaveLandsOrIsRefused | services/upload_service.py:93-124 | With releases, sweeps and any other saves running, of the same row too: a save whose statements ran is refused if and only if a file column newly names a key no stored file has; one that lands has the row and the object of each such key, moves no other owner's mention, and leaves its owner's mentions equal to what it names of what is stored if and only if nobody who crossed it brought a name it does not have or took one it has. |
| UploadProtocol.EveryUncrossedSaveIsExact | services/upload_service.py:93-124 | In every run in which saves of one row do not cross, each save that lands leaves the mentions of its row at exactly what it names of what is stored. |
| UploadProtocol.DroppedIsGone | services/upload_service.py:100-104 | Crossed or not, a save that lands hands over what it read and does not name, with its other candidates, and each mention row it read of those is gone unless another commit replaced it. |
| UploadProtocol.SaveFinishes | services/upload_service.py:93-124 | A save no other open transaction stands in the way of comes to its end by its own statements: it lands, or a key it newly names is of no stored file. |
| UploadProtocol.EventKeepsInv | services/upload_service.py:93-161 | Every statement of every worker, with any number of writers of one row, keeps mentioned files stored, rows written by one worker at a time, a started deletion blind only to names whose stamp it will see move, and somebody on duty for every claimed file nothing names and no save lost. |
| UploadProtocol.CheckIsSafe | services/upload_service.py:145-149 | A deletion that saw its stamp and no mention is still right to delete when it gets the row and the stamp is the one it read. |
| UploadProtocol.SaveCommitIsSafe | services/upload_service.py:106-122 | A save landing between the check of a deletion and its turn at the row moves the stamp, so the deletion finds it changed. |
| UploadProtocol.SweepIsSafe | services/sweep_service.py:35-46 | The sweep conditions on the stamp alone, and a file without one has no mention. |
| UploadProtocol.SaveCommitLeaves | services/crud_service.py:376-383 | A file whose last mention goes with a save is handed to a release, or still has somebody on duty. |
| UploadProtocol.EveryRunKeepsWhatIsNamed | services/upload_service.py:135-161 | No interleaving of saves, releases, sweeps and crashes, any number of them on one row, ends with a committed mention of a file whose row or object is gone. |
| UploadProtocol.EveryRunLeaksNothing | services/upload_service.py:93-153 | When no save, release or sweep is pending and none died, every file ever claimed has a mention or is one a save lost, so the last of several concurrent droppers deleted it; with the bucket answering, it holds the stored files and nothing else. |
| UploadProtocol.SaveLosesExactly | services/upload_service.py:106-122 | A save leaves a file it stamped with nobody to delete it if and only if it found a mention of it instead of writing one, that mention is gone as it commits, and no release handed the file has yet to read it. |
| LostFile.CrossingSavesLoseAFile | services/upload_service.py:93-153 | A run of three saves of one row that ends so: nobody died, and the file is stored, claimed, unmentioned and nobody's duty. |
| UploadProtocol.EveryRunWithoutCrossingLosesNothing | services/crud_service.py:354-359 | When no save of a row begins while another one of it is open, which the row lock gives edits that change the row, no run loses a file. |
| UploadProtocol.NamedFileStays | services/upload_service.py:106-109 | Once a save named a file, only another save of the same owner ever takes the mention, the row or the object away, whatever everyone else does. |

## Left out

- Dates.AddInterval: no overflow past year 9999 and no year below 1, where Python raises.
- Schedule.Landing: a recurring benefit repeats at least every one of its unit, as `services/benefit_service.py:48-54` requires of its catalog row; an interval of zero is not modelled.
- Schedule.DuePassesSettle: a grant that holds the key of an owed slot is of that very slot, so two slots of different walks within one second, which share a key, are not modelled; open grants are, since they keep the row from being due.
- Delivery.EveryRunCreditsEachGrantOnce: access and credit benefits; a product handed over by a plan is the plan grant of `commerce.dfy`.
- Delivery.EveryRunCreditsAPersonOnce: of what a person already holds, completed grants and ledger entries are modelled; ownership rows of products are in `commerce.dfy`.
- Entitlements.EveryRunGivesWhatIsOwed: the catalog does not change during a run, and a plan that moved is exact again from its next activation.
- Reconciliation.ReconciliationService.Apply: one account at a time; the hold taken again after a commit in the middle of a word (`services/reconciliation_service.py:248-250`, `402-404`) meets no newer word, and a transfer takes no stamp, as the service takes none.
- Reconciliation.LastWordDecides: words about the one purchase a row carries; a stamp names one word.
- Reconciliation.OrderMattersExactlyWhen: words that leave their state to the dates are not among them, since what they say depends on when they are heard.
- Uploads.FileService.DiscardOrphans: the moment the grace is measured from is read once a pass, and `find_orphans` only lists.
- Uploads.FileService.DeleteDependents: whether a table has mention columns at all is not asked; a table without them has no mention to forget.
- Uploads.FileService.Delete: a refusal by a row that still points at it is a parameter and rolls everything back.
- UploadProtocol.SaveLandsOrIsRefused: what the row in memory holds of its own columns is taken as given, however old it is; a key names one file and a path, and keys that carry two identifiers are in `uploads.dfy` only.
- The signed word of a gateway, its parsing and its pacing: what reaches `apply` and `settle` is the input.
- `services/webhook_service.py` is not part of this model.
- HTTP routes, schemas, sign-in, consent, tenancy confinement, mail, event queues and system logs.
- Storage back ends, image decoding and upload limits: the bucket is a set of keys.
- The identity map of the ORM, SQLite savepoints and SQL dialects.
- Erasure, retention, and cascades of users and tenants beyond the declared dependents.
- Money, slugs, document numbers, nesting, bounded windows and pagination, which would only add easy members.
