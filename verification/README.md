# Turbo payment and upload services: a verified model

A Dafny model of the parts of the Turbo services where money, names and data can be lost or doubled, with proofs
about all of their runs.

**The payment ledger** (`packages/payment-service/src/database/postgres.ts`). Users hold winc balances and lend credits
through delegated approvals. A charge is split over an ordered payer list, then over each payer's approvals, with the
signer as fallback; a refund reverses it from the recorded `overflow_spend`. Around it stand credits, quotes, receipts,
gifts, chargebacks, crypto payments, reservations and ArNS purchases. `Database.dfy` is the class whose fields are the
tables and whose methods are the transactions, loop by loop. Each method is proved against a specification function on
the tables' content, and the object keeps its history: its tables are always those of the service's run of the
transactions so far, so the theorems about runs hold of it at every moment (`Database.PostgresDatabase.Keeps`):

- `Ledger`, `Approvals`, `Allocation`, `Spending`: tables, greedy drawing, the allocator, applying a plan
- `Turns`: which payer pays what, and in which order
- `Debt`: payers with less than nothing, where the order of payers, conservation and the readable log can fail
- `Lending`, `Refunds`, `RoundTrip`, `RefundExact`, `Returns`: creating, revoking and expiring approvals; refunds in
  sum and row by row; spend then refund
- `Expiry`, `Lapses`: which approvals expire, and what ends an approval over a run
- `AuditLog`, `Loans`: the log, and that approvals are never lost; `Runs`: every run of balance operations; `Service`:
  every run of all operations over all tables
- `Witnesses`: runs from empty tables on which an expected property fails
- `Payments`, `Receipts`, `Crypto`, `Arns`, `Reservations`: the other tables and their life cycles
- `ReserveRace`: reserves as interleaved steps with locks and the partial unique index, shown equal to serial runs;
  `Backfill`: the migration that makes the index possible

**The ArNS purchase protocol.** `ArnsPurchase` is a step relation over receipt, chain and program counter, with a crash
possible at any step, late landings and background jobs. `SolanaArio` is the gateway class: the ordered effects of a
purchase, the confirming read and the check of a write that threw.

**Staging and broadcasting chunks.** `Chunks` is the re-buffering loop, `Failover` the shuffle and the failover loop.

**Small state machines.** `Alerter` (debounce, fire, remind, resolve), `Lockout` (login lockout), `Polling`.

Winc amounts are unbounded integers, as in the BigNumber wrapper the service uses. Times are integers. A transaction
either returns `Ok` and the new tables, or an error and the old ones.

## Where a promise does not hold

Each of these is a property one would expect, the exact condition under which the code keeps it, and a run or input on
which it does not:

- An approval has 0 <= used <= approved, over every run, if and only if no loan of a negative amount was accepted:
  `Runs.RunSound`, `Service.RunReconciled`; the run is `Witnesses.NegativeLoanBreaksRange`. The approval route takes every
  whole number (`packages/payment-service/src/utils/validators.ts:339-348`), the comparison with the balance lets a
  negative one pass, and subtracting it raises the balance. Such an approval is never lost (`Runs.RunKnown`).
- The order of the payer list decides a charge exactly when the debts of some listed payers stand between the charge and
  the funds of the others: `Debt.OrderFreeIff`. The debtor is the signer below zero (`Debt.DebtMakesOrderMatter`) or a
  payer whose approvals sum below zero (`Witnesses.ShortPayerMakesOrderMatter`); without debtors it does not matter
  (`Debt.NoDebtNoOrder`).
- A charge takes from its payers together what it is for if and only if it does not come to a payer whose approvals sum
  below zero: `Debt.SpendConserves`; otherwise it takes more (`Witnesses.ShortPayerTakesMore`). With approvals in range
  that does not happen (`Debt.SoundConserves`).
- A user's audit amounts sum to the balance exactly when no withdrawal of a negative amount from that user was written: a
  charge that came to it as a debtor, a loan of a negative amount, or the chargeback of a negative receipt, which an
  administrator's bypass can create (`Runs.RunReconciles`, `Service.RunReconciled`). Such an amount is written as a minus
  sign and a negative number, which is text but no amount
  (`packages/payment-service/src/database/postgres.ts:1620-1625`, `:2586-2592`); the runs are
  `Witnesses.DebtGarblesTheLog` and `Witnesses.NegativeLoanBreaksRange`. A sufficient condition is
  `Runs.SolventReconciles`.
- A balance goes below zero exactly through a credit or an adjustment below zero, a chargeback, a revoke or an expiry of
  approvals that hold less than nothing, or a refund, that takes more than it: `Runs.OverdrawnExactly`,
  `Runs.RunSolvent`, `Service.RunSolvent`; the runs are `Witnesses.ChargebackOverdraws` and `Witnesses.RevokeOverdraws`.
  The refund route accepts any whole number, so a negative one reaches `refundBalance`. Charges and loans never do it.
- A charge draws on approvals that are due but not yet swept: the query of a spend has no expiry filter
  (`packages/payment-service/src/database/postgres.ts:2356-2386`), so `Spending.Spend` has no time among its arguments and
  the theorems on charges hold whatever has expired.
- A refund gives a payer back exactly what was taken if and only if its live approvals cover the part and its expired
  and revoked ones fit (`RefundExact.PayerMadeWhole`, `RoundTrip.SpendThenRefund`): the code compares each approval's
  used amount with the whole part, not with what is left of it (`Witnesses.PartUsedBehindOverpays`), and pays out whole
  used amounts of expired and revoked approvals (`Witnesses.RevokedPaysWholeUse`).
- A quote id stays in one place if and only if a new quote's id is in no receipt or chargeback
  (`Payments.QuoteNeedsFreshId`).
- The look-up before a reserve does not prevent a double charge, the index does (`ReserveRace.LookAloneChargesTwice`).
- A bought name keeps its receipt if and only if no accepted refund of it by a job or an unreadable chain, and no landing
  after a refund, occurred (`ArnsPurchase.MappingLostExactly`); each of the three is reached from the start
  (`ArnsPurchase.RefundJobLosesMapping`, `ArnsPurchase.UnreadableChainRefundsLanded`,
  `ArnsPurchase.LateLandingLosesMapping`). The comment above `persistSpawnedAntId` calls the id durable from then on; it
  is, until such a refund deletes the receipt.
- A gateway write that threw is confirmed if and only if a write of its kind on its name landed between the two reads,
  anybody's, and for an extension no upgrade did (`SolanaArio.ConfirmedExactly`): so a "yes" is wrong when only somebody
  else's write of that kind landed, and a "no" when an upgrade took away the end of an extended lease.
- A landed extension or increase is not confirmed when the read before the write failed
  (`SolanaArio.UnreadBeforeNeverConfirms`); with that read, and nobody else writing the name, it is confirmed if and
  only if it landed (`SolanaArio.ConfirmExact`).

## Model

| member | source | states |
|---|---|---|
| `Spending.SpendComplete` | packages/payment-service/src/database/postgres.ts:2336-2596 | For every charge of at least 1, payer list, directive and table content: the spend succeeds if and only if a stretch of the payer list from its front offers the charge or the usable funds of all payers together reach it; a refusal names the signer; a success's parts have distinct payers, fit each payer and sum to the charge. |
| `Debt.OrderFreeIff` | packages/payment-service/src/database/postgres.ts:2353-2483 | For every table content: the verdict on a charge is the same for every order and repetition of its payer list if and only if it is not the case that those with something to offer reach the charge while the debts of the others, added to them, keep them below it. |
| `Debt.FundsDecide` | packages/payment-service/src/database/postgres.ts:2353-2483 | Where the order does not matter the usable funds alone decide. |
| `Debt.NoDebtNoOrder` | packages/payment-service/src/database/postgres.ts:2396-2418 | The order does not matter where no listed payer has less than nothing. |
| `Debt.DebtMakesOrderMatter` | packages/payment-service/src/database/postgres.ts:2396-2418 | An input on which the order decides: a signer in debt is served with the payer first and refused with itself first. |
| `Debt.NegativePlan` | packages/payment-service/src/database/postgres.ts:2396-2418 | A successful charge gives a user a negative part if and only if it comes to that user, with something left to pay, and the user has less than nothing: the signer in debt, or a payer whose approvals sum below zero. |
| `Debt.SpendLegible` | packages/payment-service/src/database/postgres.ts:2586-2592 | A charge leaves a user's audit amounts readable exactly when it does not come to that user as such a debtor: the amount of a negative part is written with two minus signs. |
| `Turns.SpendInTurn` | packages/payment-service/src/database/postgres.ts:2353-2595 | Who pays for a charge, without the loop: payers come in the order in which they are first listed; each pays nothing once those ahead of it have met the charge, else what they leave of it as far as it reaches; an unlisted signer pays exactly what the whole list leaves; nobody else pays. |
| `Turns.SharesInTurn` | packages/payment-service/src/database/postgres.ts:2474-2483 | The recorded shares are exactly those amounts, for whoever pays something, in that order, the unlisted signer last. |
| `Turns.TurnInRange` | packages/payment-service/src/database/postgres.ts:2396-2447 | Where nobody listed has less than nothing, the payer at place k pays max(0, min(its capacity, the charge less the capacities ahead of it)). |
| `Turns.PlanInTurn` | packages/payment-service/src/database/postgres.ts:2388-2467 | The closed form of every part of a plan. |
| `Turns.PlanInOrder` | packages/payment-service/src/database/postgres.ts:2393-2467 | The parts of a plan stand in the order of the list, an unlisted signer's at the end. |
| `Turns.DedupeOrder` | packages/payment-service/src/database/postgres.ts:2353-2354 | Removing duplicates keeps the order in which payers are first listed. |
| `Spending.SpendTakes` | packages/payment-service/src/database/postgres.ts:2489-2595 | A successful spend lowers each user's controlled balance by exactly what is taken from it and only the signer's own balance; the parts sum to the charge; ids stay in one table, approvals in range stay in range, balances what the audit rows stand for; a zero charge changes nothing. |
| `Debt.SpendConserves` | packages/payment-service/src/database/postgres.ts:2489-2595 | What a charge takes from its payers together is never less than what it is for, and is just that if and only if it does not come to a payer whose approvals sum below zero. |
| `Debt.SoundConserves` | packages/payment-service/src/database/postgres.ts:2489-2595 | With approvals in range every charge conserves. |
| `Spending.TakenExact` | packages/payment-service/src/database/postgres.ts:2494-2552 | A plan takes more than its parts sum to exactly when a payer other than the signer has a negative part: the loop over that payer's approvals then draws nothing. |
| `Spending.ApplySound` | packages/payment-service/src/database/postgres.ts:2489-2594 | A fitting plan is always applied in full (the leftover-remainder branch and the negative-balance branch are not reached) and moves only the signer's balance. |
| `Spending.ApplyLink` | packages/payment-service/src/database/postgres.ts:2494-2563 | What a plan leaves of every payer's list of approvals, and which rows it moves to the inactive table; all other lists are untouched. |
| `Spending.ApplyControlled` | packages/payment-service/src/database/postgres.ts:2489-2594 | Applying a plan takes each payer's part out of its controlled balance. |
| `Spending.SpendReady` | packages/payment-service/src/database/postgres.ts:2353-2487 | A spend succeeds exactly when its plan exists and fits; with a payer list every plan fits. |
| `Allocation.PlanComplete` | packages/payment-service/src/database/postgres.ts:2388-2467 | For every table content the allocator finds a plan exactly when a stretch of the list offers the charge or the funds of all payers together, defined on the set of payers without any order, reach it. |
| `Allocation.MetByPrefix` | packages/payment-service/src/database/postgres.ts:2391-2447 | That a stretch offers the charge means that some front part of the list offers it in sum. |
| `Allocation.PlanListRest` | packages/payment-service/src/database/postgres.ts:2391-2447 | What the loop over payers leaves uncovered, and whether the signer was used on the way. |
| `Allocation.PlanListFits` | packages/payment-service/src/database/postgres.ts:2391-2447 | Every part planned so far can be paid by its payer, payers are distinct, parts and remainder sum to the charge. |
| `Allocation.DedupeDistinct` | packages/payment-service/src/database/postgres.ts:2353-2354 | Removing duplicates keeps exactly the listed payers, each once. |
| `Allocation.OfferIsFunds` | packages/payment-service/src/database/postgres.ts:2391-2447 | The sum over the payer list in its order equals the order-free sum over the set of payers. |
| `Approvals.GreedyDraw` | packages/payment-service/src/database/postgres.ts:2494-2563 | Drawing a part from one payer's approvals uses exactly that amount, exhausts a prefix of the list, part-draws at most one approval and leaves nothing over. |
| `Approvals.GreedyShape` | packages/payment-service/src/database/postgres.ts:2497-2552 | The list after a draw: a prefix gone, at most one row changed, the rest as it was. |
| `Approvals.UsedUpList` | packages/payment-service/src/database/postgres.ts:2521-2540 | The rows moved to `used` are exactly the exhausted prefix, with used equal to approved. |
| `Approvals.DrawExact` | packages/payment-service/src/database/postgres.ts:2494-2563 | A draw covered by the rows leaves no remainder, keeps every id in one table and approvals in range. |
| `Approvals.DrawTotals` | packages/payment-service/src/database/postgres.ts:2494-2563 | A draw lowers the lent total of its own payer only, by exactly the amount; other selections keep their rows. |
| `Approvals.DrawMoves` | packages/payment-service/src/database/postgres.ts:2521-2551 | Every row a draw takes out of the active table is appended to the inactive one. |
| `Approvals.RemainderTotals` | packages/payment-service/src/database/postgres.ts:2503-2519 | Used amounts and remainders of the list after a draw account for the whole amount. |
| `Lending.CreateApprovalNeutral` | packages/payment-service/src/database/postgres.ts:1565-1630 | A created approval, of whatever amount, moves winc between the payer's balance and the approval: no controlled balance changes, the payer does not go below zero, and from approvals in range it keeps them so if and only if its amount is not negative. |
| `Lending.RevokeSound` | packages/payment-service/src/database/postgres.ts:1632-1726 | A revoke keeps every approval in one table, approvals in range, and balances what the audit rows stand for, and fails only when there is nothing to revoke. |
| `Lending.RevokeNeutral` | packages/payment-service/src/database/postgres.ts:1643-1697 | A revoke pays back exactly what the revoked approvals still held, leaves none of them active, and changes no controlled balance. |
| `Lending.RevokeUsedUpRows` | packages/payment-service/src/database/postgres.ts:1699-1714 | A revoke turns precisely the used-up rows between the two users into revoked ones. |
| `Lending.RevokeReturns` | packages/payment-service/src/database/postgres.ts:1716-1724 | A revoke is refused exactly when it has no approval to return, neither a revoked nor a marked one. |
| `Lending.ReturnedExactly` | packages/payment-service/src/database/postgres.ts:1716-1724 | The rows a revoke returns are exactly the active and the used-up ones between the two users, each marked as revoked by it. |
| `Lending.RevokeExactly` | packages/payment-service/src/database/postgres.ts:1643-1714 | Row by row: a revoke takes exactly the two users' approvals out of the active table, and puts the returned rows in place of them and of the used-up ones; no other row moves. |
| `Lending.TrimNeutral` | packages/payment-service/src/database/postgres.ts:1797-1889 | Expiry never fails, pays every payer once, exactly what its expired approvals still held, and changes no controlled balance. |
| `Lending.TrimNothing` | packages/payment-service/src/database/postgres.ts:1806-1811 | With nothing expired nothing is written. |
| `Expiry.TrimExactly` | packages/payment-service/src/database/postgres.ts:1806-1838 | After an expiry an approval of the rows read is still active if and only if it has no date or its date is in the future; otherwise it is in the inactive table, expired and unchanged; all others stay where they were. |
| `Expiry.ReportedExactly` | packages/payment-service/src/database/postgres.ts:1768-1795 | A balance report lists, once each, exactly the active approvals the user gave, or received, that have no date or one in the future. |
| `Expiry.RefundRowsExactly` | packages/payment-service/src/database/postgres.ts:2634-2692 | The rows a refund gives back to: exactly the payer's active approvals for the spender that are not due, then those moved aside before or by the expiry. |
| `Expiry.LoanTerms` | packages/payment-service/src/database/postgres.ts:1573-1610 | When a loan is accepted, and that its row has its id, both users, its amount, nothing used and its date. |
| `Expiry.LoanLasts` | packages/payment-service/src/database/postgres.ts:1565-1838 | Lend, then expire: the loan is active before its date and swept from its date on, unused, its winc back with the payer. |
| `Lending.ReportedControlled` | packages/payment-service/src/database/postgres.ts:299-326 | `controlledWinc` as reported after expiry equals the balance plus the remainder of given active approvals, before and after the expiry it triggers. |
| `Refunds.GiveActiveTotals` | packages/payment-service/src/database/postgres.ts:2643-2677 | What a refund gives back to active approvals, for its own link and every other one. |
| `Refunds.RestoreTotals` | packages/payment-service/src/database/postgres.ts:2687-2755 | What a refund gives back to used-up approvals, which become active again. |
| `Refunds.RestoreBalances` | packages/payment-service/src/database/postgres.ts:2696-2721 | What a refund pays out for expired and revoked approvals, and to whom. |
| `Refunds.RestoreSound` | packages/payment-service/src/database/postgres.ts:2687-2755 | Reactivating and paying out keep the tables sound and balances what the audit rows stand for. |
| `RoundTrip.GainExact` | packages/payment-service/src/database/postgres.ts:2632-2755 | A refund of a part raises what the payer lends by exactly that part if and only if the active approvals cover it. |
| `RoundTrip.CoversExact` | packages/payment-service/src/database/postgres.ts:2643-2677 | The comparison with the full part instead of what is left of it is harmless exactly under the coverage condition. |
| `RefundExact.PayerMadeWhole` | packages/payment-service/src/database/postgres.ts:2632-2755 | A payer gets its part back exactly, approvals and balance together, if and only if its live approvals cover the part and its expired and revoked ones, the ones that expire now included, add just what the drawn winc does not hold; stated on the rows, with nothing assumed about them. |
| `RefundExact.RefundPayerControlled` | packages/payment-service/src/database/postgres.ts:2632-2755 | What the refund of a part brings its payer whatever has expired, and that nobody else's controlled balance moves. |
| `RefundExact.RefundControlled` | packages/payment-service/src/database/postgres.ts:2632-2773 | What a whole refund brings every user. |
| `RefundExact.RefundAfterExpiry` | packages/payment-service/src/database/postgres.ts:2634-2642 | A refund with approvals that are due equals the refund after their expiry. |
| `RefundExact.PaidOutRows` | packages/payment-service/src/database/postgres.ts:2693-2720 | What is paid out for expired and revoked approvals, read off the rows: everything they used when the used-up ones do not suffice, nothing exactly when none with used winc stands early enough. |
| `Returns.LiveInTurn` | packages/payment-service/src/database/postgres.ts:2643-2677 | Row by row: the payer's live approvals give back in the order of the table, each what it had used or the part, as long as the used amounts ahead have not covered the part and none ahead had used all of it; the others stay as they are. |
| `Returns.GoneInTurn` | packages/payment-service/src/database/postgres.ts:2687-2755 | Of the payer's inactive approvals the used-up ones become active again, in turn, each less what is left of the part, as long as something is left; all others, and every expired or revoked one, stay as they are. |
| `RefundExact.RefundMoneyExact` | packages/payment-service/src/database/postgres.ts:2632-2773 | A refund moves each user's balance by what its rows say: the signer by its shares, a payer by what its expired and revoked approvals pay. |
| `RefundExact.RefundMoneySound` | packages/payment-service/src/database/postgres.ts:2756-2772 | With approvals in range the signer's balance rises by the sum of its own shares, whoever else is listed, and nobody else's falls. |
| `RoundTrip.SpendThenRefund` | packages/payment-service/src/database/postgres.ts:2489-2774 | Spend, then refund of the recorded shares: with nothing expired or revoked between signer and payers it never fails, restores every balance, and restores every link's remainder if and only if the approvals left by the charge cover its parts. |
| `RoundTrip.SpendThenRefundRestores` | packages/payment-service/src/database/postgres.ts:2489-2774 | The same, unconditional in its conclusion, when before the charge only the first approval of each listed payer was part-used; approvals moved to used in between included. |
| `RoundTrip.RecordedShares` | packages/payment-service/src/database/postgres.ts:2474-2483 | The stored `overflow_spend` (or its absence) stands for exactly the plan's parts. |
| `RoundTrip.RefundSharesSound` | packages/payment-service/src/database/postgres.ts:2632-2773 | When a refund succeeds, and that it keeps tables sound and balances what the audit rows stand for on every path, the expired and revoked ones included. |
| `RoundTrip.RefundBalances` | packages/payment-service/src/database/postgres.ts:2756-2772 | With returnable shares a refund raises only the signer's balance, by its own share. |
| `RoundTrip.RefundLent` | packages/payment-service/src/database/postgres.ts:2632-2755 | With returnable shares, what every link lends after a refund. |
| `Witnesses.PartUsedBehindOverpays` | packages/payment-service/src/database/postgres.ts:2651-2662 | A run from empty tables after which the refund of a charge of 3 brings the payer 5. |
| `Witnesses.RevokedPaysWholeUse` | packages/payment-service/src/database/postgres.ts:2696-2720 | A run from empty tables, with charges of 2 and 4 and a revoke, after which the refund of the charge of 2 brings the payer 6. |
| `Witnesses.ChargebackOverdraws` | packages/payment-service/src/database/postgres.ts:772-780 | A run from empty tables in which a chargeback takes a user below zero. |
| `Witnesses.DebtGarblesTheLog` | packages/payment-service/src/database/postgres.ts:2586-2592 | A run from empty tables after which a user's audit amounts cannot be summed. |
| `Witnesses.NegativeLoanBreaksRange` | packages/payment-service/src/database/postgres.ts:1590-1626 | A run of two steps from empty tables: an account of 1 lends -5, holds 6, has an approval out of range and audit amounts that cannot be summed. |
| `Witnesses.RevokeOverdraws` | packages/payment-service/src/database/postgres.ts:1673-1688 | The run goes on: it spends the 6 and revokes the loan, which leaves it at -5. |
| `Witnesses.ShortPayerTakesMore` | packages/payment-service/src/database/postgres.ts:2425-2447 | A run from empty tables after which a charge of 5 takes 10 from one payer and nothing from anybody else. |
| `Witnesses.ShortPayerMakesOrderMatter` | packages/payment-service/src/database/postgres.ts:2388-2447 | A run from empty tables after which the order of two payers decides a charge whose signer is not in debt. |
| `Runs.RunSound` | packages/payment-service/src/database/postgres.ts:347-954 | The approval state machine and the log over every run: an id is in one table at most, used-up rows are used up, each balance is what its user's audit rows stand for, without the `approved_*` rows; and 0 <= used <= approved for every approval if and only if no loan of a negative amount was accepted in the run. |
| `Runs.RunReconciles` | packages/payment-service/src/database/postgres.ts:347-954 | Audit reconciliation over every run, user by user: the amounts as written can be summed and give the balance if and only if no withdrawal of a negative amount from that user was accepted in it: a charge that came to it as a debtor, a loan or a chargeback of a negative amount. |
| `Runs.StepLegible` | packages/payment-service/src/database/postgres.ts:1565-2592 | Every operation leaves a user's amounts readable, except those three. |
| `Runs.SolventReconciles` | packages/payment-service/src/database/postgres.ts:347-954 | From approvals in range, while nobody is below zero and no loan or chargeback is for a negative amount, everybody's audit amounts sum to the balance. |
| `Runs.StepSound` | packages/payment-service/src/database/postgres.ts:1565-1889 | Each operation keeps ids in one table and each balance what its audit rows stand for, and approvals in range exactly when it is no accepted loan of a negative amount. |
| `Runs.RunKnown` | packages/payment-service/src/database/postgres.ts:1565-2755 | Over every run an approval that was made stays in one of the two tables, for its amount. |
| `Runs.StepKnown` | packages/payment-service/src/database/postgres.ts:1565-2755 | No operation loses an approval or changes its amount. |
| `Runs.RunFromEmpty` | packages/payment-service/src/database/postgres.ts:347-954 | The run theorems from empty tables, with no assumption left. |
| `Runs.ControlledExact` | packages/payment-service/src/database/postgres.ts:299-326 | Lending, revoking and expiring leave every controlled balance; credits and charges move exactly the users they name by exactly their amounts; refunds move their signer by its shares and each payer by the gain read off its approvals. |
| `Runs.OverdrawnExactly` | packages/payment-service/src/database/postgres.ts:772-1889 | A balance that is not negative becomes so if and only if the operation takes more than it: a credit or adjustment below zero, a chargeback, a revoke or an expiry of approvals that hold less than nothing, or a refund, its expiries included. Charges and loans never do. |
| `Runs.SoundOverdraws` | packages/payment-service/src/database/postgres.ts:772-780 | With approvals in range only credits and adjustments below zero, chargebacks, and refunds whose own shares for the signer are that negative can do so. |
| `Runs.RunSolvent` | packages/payment-service/src/database/postgres.ts:347-954 | Nobody is ever below zero in a run if and only if no step of it overdraws someone in that sense. |
| `Runs.StepIncome` | packages/payment-service/src/database/postgres.ts:1565-1889 | No operation other than a top-up or a chargeback changes a user's top-ups less chargebacks. |
| `Runs.CreditRow` | packages/payment-service/src/database/postgres.ts:1367-1425 | A credit writes one audit row; only the first of a user is one of a new account, and credits add up. |
| `Runs.LockedExactly` | packages/payment-service/src/database/postgres.ts:1547-1563 | A change and a withdrawal on a locked account need the account, and each undoes the other. |
| `AuditLog.PlanRows` | packages/payment-service/src/database/postgres.ts:2565-2592 | A charge writes one audit row for each part, in order: payers' as approved spends, the signer's under the charge's reason, each with its amount and the charge's id. |
| `AuditLog.LoanRows` | packages/payment-service/src/database/postgres.ts:1620-1626 | A loan writes one row, of its amount, under its id. |
| `AuditLog.RevokeRows` | packages/payment-service/src/database/postgres.ts:1681-1697 | A revoke writes one row, of what the revoked approvals still held, or none if nothing was active. |
| `AuditLog.ExpiryRows` | packages/payment-service/src/database/postgres.ts:1853-1886 | Expiry writes one row for each payer, of all that its expired approvals still held. |
| `Runs.DeadForever` | packages/payment-service/src/database/postgres.ts:1643-1726 | Over every run, an expired or revoked approval stays in the inactive table and its id is never active again. |
| `Runs.StepDeadStay` | packages/payment-service/src/database/postgres.ts:2696-2721 | No operation alters an expired or revoked row. |
| `Lapses.RunEnds` | packages/payment-service/src/database/postgres.ts:1565-2755 | Over every run an approval found expired was swept by an expiry, a report or a refund of its users on or after its own date, and one found revoked was taken back by its own payer from its own spender. |
| `Lapses.StepEnds` | packages/payment-service/src/database/postgres.ts:1643-1838 | No operation ends an approval without that reason. |
| `Service.StepBook` | packages/payment-service/src/database/postgres.ts:188-3097 | Each public operation over all tables moves balances and approvals only by a list of the balance operations above (a refinement, step by step). |
| `Service.RunBook` | packages/payment-service/src/database/postgres.ts:188-3097 | So does every run of the service: it is a run of balance operations. |
| `Service.RunReconciled` | packages/payment-service/src/database/postgres.ts:188-3097 | Over every run of the whole service (quotes, receipts, gifts, chargebacks, crypto, ArNS, reservations, approvals, adjustments): every approval in one table, balances what the audit rows stand for; approvals in range if and only if no loan of a negative amount was accepted; and a user's amounts as written sum to the balance if and only if no withdrawal of a negative amount from it was written. |
| `Service.RunSolvent` | packages/payment-service/src/database/postgres.ts:188-3097 | Nobody is ever below zero in a run of the service, not even between two receipts of a batch, if and only if none of its balance operations overdraws someone. |
| `Service.RunKnown` | packages/payment-service/src/database/postgres.ts:1565-2755 | Over every run of the service an approval that was made stays in one of the two tables, for its amount. |
| `Service.RunIncome` | packages/payment-service/src/database/postgres.ts:188-3097 | Over every run of the service with fresh ids a wallet's top-ups less chargebacks in the log move exactly with the receipts it holds and the crypto payments credited to it. |
| `Service.RunExclusive` | packages/payment-service/src/database/postgres.ts:831-954 | Over every run a data item has at most one active reservation, with no assumption on ids. |
| `Service.RunKeyed` | packages/payment-service/src/database/postgres.ts:188-811 | Over every run with fresh quote ids a quote id is in one place. |
| `Service.SpendFair` | packages/payment-service/src/database/postgres.ts:2474-2483 | A charge records a negative share of a user if and only if it comes to that user as a debtor. |
| `Service.EmptyKeeps` | packages/payment-service/src/database/postgres.ts:188-3097 | All of these hold of every run from empty tables. |
| `Service.EmptyKeys` | packages/payment-service/src/database/postgres.ts:188-3097 | With fresh quote ids, so do the keys, and income equals the receipts held and the crypto payments credited. |
| `Reservations.ReserveExclusive` | packages/payment-service/src/database/postgres.ts:841-890 | A reserve leaves exactly one active reservation of its item and keeps one per item at most. |
| `Reservations.RefundExclusive` | packages/payment-service/src/database/postgres.ts:917-954 | A refund leaves its item without an active reservation. |
| `Reservations.ReserveExactly` | packages/payment-service/src/database/postgres.ts:841-911 | A reserve of a free item goes through if and only if the charge does and its id is new; it adds one active row with the order's terms and the charge's record, and charges; nothing else. |
| `Reservations.RefundExactly` | packages/payment-service/src/database/postgres.ts:917-954 | A refund flags the item's active row only, and pays back the shares recorded in it. |
| `Reservations.RefundUnreserved` | packages/payment-service/src/database/postgres.ts:917-954 | Without an active row the given amount goes to the signer, if it has an account, and no row changes. |
| `Reservations.ReserveTwice` | packages/payment-service/src/database/postgres.ts:848-862 | A repeated reserve, with whatever arguments, changes nothing. |
| `Reservations.ReserveThenRefund` | packages/payment-service/src/database/postgres.ts:831-954 | Reserve, then refund: balances and lent totals as before, item free again, under the round-trip condition. |
| `Reservations.NewestIn` | packages/payment-service/src/database/postgres.ts:926-934 | The reservation picked for a refund is a newest active one. |
| `ReserveRace.RunSerial` | packages/payment-service/src/database/postgres.ts:841-954 | Any interleaving of the steps of any number of reserves with refunds and credits ends in exactly the tables that the committed operations reach one after the other, each in one step, in the order of their commits. |
| `ReserveRace.InsertIsReserve` | packages/payment-service/src/database/postgres.ts:864-890 | A transaction that planned its charge earlier commits what an atomic reserve would do on the tables as they are at its commit. |
| `ReserveRace.InsertRefusedByKeys` | packages/payment-service/src/database/postgres.ts:899-911 | Once planned, a charge can always be written: only the unique index or the primary key rolls the transaction back. |
| `ReserveRace.WrittenFrame` | packages/payment-service/src/database/postgres.ts:2356-2386 | A charge leaves everything that the charges of other signers read. |
| `ReserveRace.RefundFrame` | packages/payment-service/src/database/postgres.ts:2632-2773 | A refund leaves everything that the charges of users other than its signer and payers read. |
| `ReserveRace.RunKeeps` | packages/payment-service/src/database/postgres.ts:841-954 | Along every interleaving: one active reservation per item at most, committed debits less refunds equal to it, approvals sound, balances what the audit rows stand for. |
| `ReserveRace.ChargedOnce` | packages/payment-service/src/database/postgres.ts:841-914 | From a desk without reservations: an item's committed debits less refunds are 0 or 1, its number of active reservations. |
| `ReserveRace.NextKeeps` | packages/payment-service/src/database/postgres.ts:841-953 | The invariant behind it, open transactions and their locks included, for each step. |
| `ReserveRace.LookAloneChargesTwice` | packages/payment-service/src/database/postgres.ts:848-862 | Without the index two requests that both looked first charge the item twice: the index is needed. |
| `Backfill.OneActiveAndNewest` | packages/payment-service/src/database/migrator.ts:1126-1143 | For every legacy table and tie-break: no row lost or altered, each data item keeps exactly one active row, one of its newest. |
| `Backfill.MigrateIndexable` | packages/payment-service/src/database/migrator.ts:1145-1147 | After the backfill the partial unique index can be created. |
| `Backfill.ActiveIffFirst` | packages/payment-service/src/database/migrator.ts:1131-1143 | A row stays active exactly when no row of its item is numbered before it. |
| `Payments.RunOnePlace` | packages/payment-service/src/database/postgres.ts:362-474 | Over every run with fresh ids a quote id is never in two of quote, receipt and chargeback, and no two receipts share one. |
| `Payments.StepOnePlace` | packages/payment-service/src/database/postgres.ts:728-810 | The same for each operation. |
| `Payments.QuoteNeedsFreshId` | packages/payment-service/src/database/postgres.ts:224-227 | A new quote keeps this if and only if its id is in no receipt or chargeback: the quote table's own key does not see them. |
| `Payments.RunMoney` | packages/payment-service/src/database/postgres.ts:728-810 | Over every such run a wallet's receipt credits less chargebacks equal the winc of the receipts it still holds. |
| `Payments.StepMoney` | packages/payment-service/src/database/postgres.ts:362-560 | The same for each operation, bypassed batches and gifts included. |
| `Payments.PaidOnce` | packages/payment-service/src/database/migrator.ts:1076-1081 | A quote credits at most once: after its receipt every later attempt in any run is refused, also after a chargeback. |
| `Payments.RedeemedOnce` | packages/payment-service/src/database/postgres.ts:563-657 | A gift is redeemed at most once: after that every later attempt in any run is refused. |
| `Receipts.RunBacked` | packages/payment-service/src/database/postgres.ts:188-811 | Over every run from empty tables, on the history: each receipt, held or charged back, was quoted and later paid at least its quote's payment, in its currency, not after its end, or granted by an administrator; each gift, open or redeemed, is for the winc and address of such a quote, and was redeemed by that address. |
| `Receipts.PaidExactly` | packages/payment-service/src/database/postgres.ts:347-432 | A payment makes a receipt if and only if the quote is open, not over, paid in full and in its currency, and the receipt id is new; the wallet is then credited with the quote's winc, or the address gets a gift of it. |
| `Receipts.StaysOpen` | packages/payment-service/src/database/postgres.ts:347-432 | An open quote stays open, unchanged, over every run until it is paid. |
| `Receipts.QuoteExactly` | packages/payment-service/src/database/postgres.ts:188-244 | A quote is refused only for its id, and is open as it was made. |
| `Receipts.InsertExactly` | packages/payment-service/src/database/postgres.ts:433-473 | A receipt is refused only by the keys, and credits its wallet or leaves a gift of its winc. |
| `Receipts.BypassedExactly` | packages/payment-service/src/database/postgres.ts:482-561 | A batch goes through if and only if no two receipts of it, and none of it and a held one, share an id; it adds just its receipts. |
| `Receipts.RedeemExactly` | packages/payment-service/src/database/postgres.ts:563-657 | A gift is redeemed if and only if it is open, its receipt is still held and its own address asks; its winc goes to the address named. |
| `Receipts.ChargebackExactly` | packages/payment-service/src/database/postgres.ts:719-811 | When a chargeback of a receipt goes through, and that it takes just the receipt's winc from its wallet and moves just that receipt. |
| `Crypto.RunCredits` | packages/payment-service/src/database/postgres.ts:1182-1300 | Over every run a transaction id raises a balance exactly when it enters the credited table, which it never leaves; credits to an address move with its credited rows. |
| `Crypto.AtMostOnce` | packages/payment-service/src/database/migrator.ts:299-352 | From empty tables: at most one raise for each transaction id, and total crypto credits equal the credited rows. |
| `Crypto.StepCredits` | packages/payment-service/src/database/postgres.ts:1226-1268 | The same for each operation. |
| `Crypto.RunBacked` | packages/payment-service/src/database/postgres.ts:1182-1300 | Over every run from empty tables a credited transaction had been seen and confirmed, or was credited directly; a failed one had been seen and was failed. |
| `Crypto.AcceptedExactly` | packages/payment-service/src/database/postgres.ts:1182-1300 | When each operation is accepted, which row it moves where, and whom it pays how much. |
| `Arns.StepLadder` | packages/payment-service/src/database/postgres.ts:1971-2018 | Each operation: the status only goes up; a receipt appears with a debit and disappears only with a refund from an unconfirmed state. |
| `Arns.RunBalanced` | packages/payment-service/src/database/postgres.ts:1908-2018 | Over every run debits less refunds of a nonce move with the presence of its receipt. |
| `Arns.DebitedWhileHeld` | packages/payment-service/src/database/postgres.ts:1908-2018 | From an empty registry debits less refunds of a nonce are 1 while its receipt exists and 0 otherwise. |
| `Arns.BoughtForever` | packages/payment-service/src/database/postgres.ts:1976-1996 | A nonce once bought or recorded keeps its receipt, never steps back and is never refunded, whatever follows. |
| `Arns.NeverBack` | packages/payment-service/src/database/postgres.ts:2099-2135 | Between any two moments without a refund the status has not gone back. |
| `Arns.StaleFindsOrphans` | packages/payment-service/src/database/postgres.ts:2024-2035 | Over every run the stale scan returns exactly the old enough debits that are neither refunded nor bought. |
| `Arns.FailSucceeds` | packages/payment-service/src/database/postgres.ts:1983-2006 | A failed purchase can be refunded if and only if its receipt is unconfirmed and the owner's account exists where it has a share. |
| `Arns.FailUndoesCreate` | packages/payment-service/src/database/postgres.ts:1908-2018 | Failing a purchase undoes its charge through the receipt's own record of it, under the round-trip condition. |
| `Arns.RunBacked` | packages/payment-service/src/database/postgres.ts:1908-2135 | Over every run from an empty registry each receipt, also a failed one, has the terms and the date of its order; a failed one was never confirmed; every state, ANT and message comes from an operation on that purchase. |
| `ArnsPurchase.BoughtMeansMapped` | packages/payment-service/src/routes/initiateArNSPurchase.ts:123-245 | At every point of every run, crashes, late landings and jobs included: a name bought by this purchase has its receipt with the ANT on chain if and only if the purchase was not refunded. |
| `ArnsPurchase.MappingLostExactly` | packages/payment-service/src/gateway/solana-ario.ts:638-657 | Wherever the process crashes and whatever the jobs do, a bought name has its receipt with the ANT on chain if and only if no step of the run was an accepted refund of a bought name by a job or an unreadable chain, or a landing after the refund. |
| `ArnsPurchase.StepLoses` | packages/payment-service/src/routes/initiateArNSPurchase.ts:144-170 | The same for each step; a settlement that reads the chain never loses a mapping. |
| `ArnsPurchase.BoughtIsOnChain` | packages/payment-service/src/routes/initiateArNSPurchase.ts:123-245 | At every point of every run a receipt that is bought or recorded, and so no longer refundable, stands for a name that is registered and, if the request sent its buy or goes on, registered for the receipt's ANT. |
| `ArnsPurchase.NextKeeps` | packages/payment-service/src/routes/initiateArNSPurchase.ts:123-170 | The protocol invariant, for each handler step, job and crash. |
| `ArnsPurchase.RefundJobLosesMapping` | packages/payment-service/src/database/postgres.ts:2127-2135 | A run of five steps from the start: a refund between the spawn and the persist leaves a bought name without a receipt. |
| `ArnsPurchase.UnreadableChainRefundsLanded` | packages/payment-service/src/utils/confirmArNSWriteLanded.ts:70-75 | A run of six steps from the start: a landed buy whose call threw is refunded when every confirming read fails. |
| `ArnsPurchase.LateLandingLosesMapping` | packages/payment-service/src/utils/confirmArNSWriteLanded.ts:77-80 | A run of six steps from the start: a buy that threw and was not on chain when the name was read lands after the refund. |
| `SolanaArio.Gateway.GetArNSRecord` | packages/payment-service/src/gateway/solana-ario.ts:427-444 | The confirming read returns what the chain holds, whatever the cache holds. |
| `SolanaArio.Gateway.CachedRecord` | packages/payment-service/src/gateway/solana-ario.ts:571 | The price check's read is served from the cache while it holds an entry. |
| `SolanaArio.Gateway.ProvideAnt` | packages/payment-service/src/gateway/solana-ario.ts:644-651 | The ANT of a buy: supplied, or spawned and then persisted; nothing is submitted here. |
| `SolanaArio.Gateway.Submit` | packages/payment-service/src/gateway/solana-ario.ts:652-692 | A write may land although its call throws, but cannot return without having landed. |
| `SolanaArio.Gateway.InitiateArNSPurchase` | packages/payment-service/src/gateway/solana-ario.ts:620-709 | The whole effect: the order delivered on chain in the order's own fields, when it returns, that a buy for a spawned ANT directly follows its persist, that a thrown spawn or persist submits nothing, and what happens to the cache. |
| `SolanaArio.Orders` | packages/payment-service/src/gateway/solana-ario.ts:632-690 | A purchase can land if and only if, in its own terms, it is complete and the registry accepts it; it leaves what was ordered: a buy the ANT provided, permanent or for the years of the lease; an upgrade a permanent name with its ANT and limit; an extension exactly its years more; an increase exactly its quantity more; every other name as it was. |
| `SolanaArio.Gateway.ConfirmWriteLanded` | packages/payment-service/src/utils/confirmArNSWriteLanded.ts:47-98 | The check answers yes exactly when some read answers and the chain shows the intent's effect. |
| `SolanaArio.ConfirmExact` | packages/payment-service/src/utils/confirmArNSWriteLanded.ts:77-98 | If nobody else writes the name and the first read worked, an accepted write is confirmed if and only if it landed, for every intent. |
| `SolanaArio.ConfirmedExactly` | packages/payment-service/src/utils/confirmArNSWriteLanded.ts:77-98 | With any accepted writes between the two reads, by anybody: a write is confirmed if and only if one of its kind on its name (for a buy, for its ANT) is among them and, for an extension, no upgrade of the name is. |
| `SolanaArio.ConfirmsKnown` | packages/payment-service/src/utils/confirmArNSWriteLanded.ts:77-98 | A missing record or an unknown intent confirms nothing; a confirmed buy shows the purchase's ANT, a confirmed upgrade a permanent name. |
| `SolanaArio.UnreadBeforeNeverConfirms` | packages/payment-service/src/routes/initiateArNSPurchase.ts:111-115 | If the read before the write failed, a landed extension or increase is never confirmed. |
| `SolanaArio.CachedReadDenies` | packages/payment-service/src/gateway/solana-ario.ts:422-431 | A cached read would deny a buy that landed and threw; the evicting read confirms it. |
| `Database.PostgresDatabase.UseBalanceAndApprovals` | packages/payment-service/src/database/postgres.ts:2336-2596 | The new tables and the recorded shares are those of the specification `Spend`; on an error nothing has changed. |
| `Database.PostgresDatabase.PlanPayers` | packages/payment-service/src/database/postgres.ts:2388-2447 | The loop over payers computes the specified plan. |
| `Database.PostgresDatabase.ApplyPlan` | packages/payment-service/src/database/postgres.ts:2489-2595 | The loop over the plan yields the specified tables, or restores the old ones and names the payer. |
| `Database.PostgresDatabase.DrawFromApprovals` | packages/payment-service/src/database/postgres.ts:2494-2552 | The loop over one payer's approvals leaves the specified tables and remainder. |
| `Database.PostgresDatabase.MoveExpiredRows` | packages/payment-service/src/database/postgres.ts:1806-1838 | The first expiry loop: which rows move, which are returned as expired and as live. |
| `Database.PostgresDatabase.TrimExpiredApprovals` | packages/payment-service/src/database/postgres.ts:1797-1889 | Both expiry loops together; returns the live rows. |
| `Database.PostgresDatabase.GiveToActive` | packages/payment-service/src/database/postgres.ts:2643-2677 | The refund loop over active approvals. |
| `Database.PostgresDatabase.RestoreFromInactive` | packages/payment-service/src/database/postgres.ts:2687-2755 | The refund loop over inactive approvals. |
| `Database.PostgresDatabase.RefundToPayer` | packages/payment-service/src/database/postgres.ts:2633-2755 | Refunding one payer's share, its expiry included. |
| `Database.PostgresDatabase.RefundToSigner` | packages/payment-service/src/database/postgres.ts:2756-2772 | Refunding the signer's share. |
| `Database.PostgresDatabase.RefundWincFromOverflowSpend` | packages/payment-service/src/database/postgres.ts:2598-2774 | The refund of all shares, or no change at all. |
| `Database.PostgresDatabase.CreateDelegatedPaymentApproval` | packages/payment-service/src/database/postgres.ts:1565-1630 | The approval returned, the tables after it, the three errors, for every whole amount. |
| `Database.PostgresDatabase.RevokeDelegatedPaymentApprovals` | packages/payment-service/src/database/postgres.ts:1632-1726 | The tables after a revoke and the approvals returned; refused exactly when there is none. |
| `Database.PostgresDatabase.Keeps` | packages/payment-service/src/database/postgres.ts:188-3097 | What the object therefore always is: every approval in one table, balances what the audit rows stand for, one active reservation per item; approvals in range, readable logs and nobody below zero exactly as its history says. |
| `Database.PostgresDatabase.GetBalance` | packages/payment-service/src/database/postgres.ts:299-345 | The reported balance, controlled and effective amounts; the lists are exactly the unexpired active approvals given and received, and the effective amount is the balance plus what the received ones hold; when it fails. |
| `Database.PostgresDatabase.AtomicCreditUser` | packages/payment-service/src/database/postgres.ts:1367-1425 | The credit and its audit row, and whether the user was created. |
| `Database.PostgresDatabase.AdjustUserWinstonBalance` | packages/payment-service/src/database/postgres.ts:3025-3097 | An adjustment of an existing or a new user. |
| `Database.PostgresDatabase.FinalizeX402` | packages/payment-service/src/database/postgres.ts:2904-2948 | The balance and audit part of a finalized x402 payment. |
| `Database.PostgresDatabase.ReserveBalance` | packages/payment-service/src/database/postgres.ts:831-914 | A reserve: no change if one is active, else charge and row, or nothing on an error. |
| `Database.PostgresDatabase.RefundBalance` | packages/payment-service/src/database/postgres.ts:917-954 | A refund from the newest active reservation's record, and its flag. |
| `Database.PostgresDatabase.CreateTopUpQuote` | packages/payment-service/src/database/postgres.ts:188-244 | A quote, refused by its key only. |
| `Database.PostgresDatabase.InsertReceipt` | packages/payment-service/src/database/postgres.ts:433-473 | A receipt with its gift or credit, or nothing when a key refuses it. |
| `Database.PostgresDatabase.CreatePaymentReceipt` | packages/payment-service/src/database/postgres.ts:347-475 | From quote to receipt: expiry, amount and currency checks, then delete, insert, credit. |
| `Database.PostgresDatabase.CreateBypassedPaymentReceipts` | packages/payment-service/src/database/postgres.ts:482-561 | A batch, all or nothing. |
| `Database.PostgresDatabase.RedeemGift` | packages/payment-service/src/database/postgres.ts:563-657 | A gift is redeemed once, by its recipient, for its winc. |
| `Database.PostgresDatabase.CreateChargebackReceipt` | packages/payment-service/src/database/postgres.ts:719-811 | The claw-back of a wallet's credit and the move of the receipt. |
| `Database.PostgresDatabase.CreatePendingTransaction` | packages/payment-service/src/database/postgres.ts:1182-1224 | A pending row, refused by its key. |
| `Database.PostgresDatabase.CreateNewCreditedTransaction` | packages/payment-service/src/database/postgres.ts:1460-1525 | A direct credit, refused by the credited table's key. |
| `Database.PostgresDatabase.CreditPendingTransaction` | packages/payment-service/src/database/postgres.ts:1226-1268 | Pending to credited with one credit, or nothing. |
| `Database.PostgresDatabase.FailPendingTransaction` | packages/payment-service/src/database/postgres.ts:1270-1300 | Pending to failed without a credit. |
| `Database.PostgresDatabase.CreateArNSPurchaseReceipt` | packages/payment-service/src/database/postgres.ts:1908-1969 | Charge and receipt together, or nothing. |
| `Database.PostgresDatabase.UpdateFailedArNSPurchase` | packages/payment-service/src/database/postgres.ts:1971-2018 | Only an unconfirmed receipt is deleted and refunded. |
| `Database.PostgresDatabase.MarkArNSPurchaseBought` | packages/payment-service/src/database/postgres.ts:2115-2120 | Advances an unconfirmed receipt only. |
| `Database.PostgresDatabase.PersistSpawnedAntId` | packages/payment-service/src/database/postgres.ts:2127-2135 | Writes the ANT id on a reserved receipt only. |
| `Database.PostgresDatabase.AddMessageIdToPurchaseReceipt` | packages/payment-service/src/database/postgres.ts:2099-2109 | Records a receipt in any state. |
| `Chunks.Stager.PersistChunks` | packages/upload-service/src/arweaveJs.ts:198-233 | For every split into pieces and every chunk lengths: the stored chunks are the payload's slices in order, only stored chunks are enqueued, the run stops at the first failure, and the buffer stays within the longest chunk less one plus the largest piece. |
| `Chunks.Stager.PersistOne` | packages/upload-service/src/arweaveJs.ts:229-232 | One round of that loop. |
| `Chunks.Stager.StoreAndEnqueue` | packages/upload-service/src/arweaveJs.ts:184-191 | A chunk is enqueued only after it was stored. |
| `Chunks.Stager.FillBuffer` | packages/upload-service/src/arweaveJs.ts:206-218 | Reading ahead loses and reorders nothing and ends with enough bytes or the end of the stream, within the memory bound. |
| `Chunks.Stager.CreateChunk` | packages/upload-service/src/arweaveJs.ts:220-227 | A chunk is cut off the front of what is ahead, as long as asked for or as much as there is. |
| `Chunks.ChunksAreThePayload` | packages/upload-service/src/arweaveJs.ts:229-232 | The chunks put together are the payload if and only if the lengths reach its size. |
| `Chunks.ChunkIsSlice` | packages/upload-service/src/arweaveJs.ts:229-232 | With lengths summing to the size, chunk i is exactly the payload from its offset on, for its length. |
| `Chunks.CutIsChunk` | packages/upload-service/src/arweaveJs.ts:220-227 | Cutting the next length off what is ahead yields the next slice and leaves the rest. |
| `Failover.Shuffled` | packages/upload-service/src/arweaveJs.ts:304-311 | The in-place Fisher-Yates on a fresh copy computes the specified order and leaves its input. |
| `Failover.ShufflePermutes` | packages/upload-service/src/arweaveJs.ts:306-309 | For every random choice the result is a permutation. |
| `Failover.ShuffleReaches` | packages/upload-service/src/arweaveJs.ts:306-309 | Every permutation is the outcome of some choice. |
| `Failover.TryNodes` | packages/upload-service/src/arweaveJs.ts:387-411 | Nodes are posted to in order up to and including the first that accepts. |
| `Failover.BroadcastChunk` | packages/upload-service/src/arweaveJs.ts:358-417 | The node returned is the first of the shuffled list that accepted; the call throws exactly when the list is empty or every node rejects; nodes posted to are a prefix of the shuffle. |
| `Failover.PostedOnce` | packages/upload-service/src/arweaveJs.ts:387-411 | Distinct nodes are posted to at most once each. |
| `Alerter.HealthAlerter.Evaluate` | packages/admin-service/admin/alerter.js:230-298 | Over every run of calls each key's tracked state and notifications are those of its own sightings, and the tracked keys equal the present ones. |
| `Alerter.HealthAlerter.EvaluateKeys` | packages/admin-service/admin/alerter.js:235-297 | Both loops: every key, present or absent, is treated exactly once. |
| `Alerter.HealthAlerter.SeePresent` | packages/admin-service/admin/alerter.js:235-275 | A present issue: count, fire, remind; the note sent carries its time and the issue's severity. |
| `Alerter.HealthAlerter.DropAbsent` | packages/admin-service/admin/alerter.js:282-297 | An absent key: resolve if it had fired, then drop. |
| `Alerter.WhenNotified` | packages/admin-service/admin/alerter.js:248-284 | When a fire, a reminder and a resolve are sent, in terms of the sightings, not of the tracked state. |
| `Alerter.FiresExactly` | packages/admin-service/admin/alerter.js:235-262 | On severity and hour: an issue fires if and only if it was seen max(1, minConsecutive) times in a row, its last note, if any, is a resolve, and it is critical or the hour is not quiet. |
| `Alerter.RemindsExactly` | packages/admin-service/admin/alerter.js:264-275 | An issue is reminded of if and only if its last note is no resolve and its severity's own interval, if positive, has passed since, and it is critical or the hour is not quiet. |
| `Alerter.ResolvesExactly` | packages/admin-service/admin/alerter.js:282-297 | A resolve is sent exactly when an issue whose last note is a fire or a reminder is gone; without a note there is no reminder. |
| `Alerter.StateTells` | packages/admin-service/admin/alerter.js:235-256 | The tracked state is the number of consecutive sightings, whether announced, and the time of the last note. |
| `Alerter.NotesWellFormed` | packages/admin-service/admin/alerter.js:248-297 | Over every run a key's notifications form (fire, remind*, resolve)*, one being open exactly while it is announced. |
| `Alerter.FireNeedsSightings` | packages/admin-service/admin/alerter.js:248-249 | A fire is preceded by the needed number of consecutive sightings. |
| `Alerter.NotesSpaced` | packages/admin-service/admin/alerter.js:264-275 | With a clock that does not go back a reminder keeps its cadence from every earlier note of its announcement. |
| `Alerter.QuietWindow` | packages/admin-service/admin/alerter.js:126-132 | The quiet window is the (end - start) mod 24 hours following its start, both for same-day and wrapping windows. |
| `Lockout.FailuresAreSpread` | packages/admin-service/admin/middleware/session.js:331-339 | Any maximum + 1 consecutive recorded failures of an address with no success between them span at least the lockout. |
| `Lockout.CountBelowMaximum` | packages/admin-service/admin/middleware/session.js:331-339 | The stored count stays below the maximum over every run. |
| `Lockout.LockedIffBatchRecent` | packages/admin-service/admin/middleware/session.js:323-329 | An address is locked exactly while its last full batch of failures is less than the lockout old. |
| `Lockout.RunTells` | packages/admin-service/server.js:342-378 | Over every run of logins the stored entry tells the streak of failures and the end of its last lock. |
| `Lockout.SessionGuard.StatusOf` | packages/admin-service/admin/middleware/session.js:323-329 | Locked or not, and the remaining time rounded up to seconds. |
| `Lockout.SessionGuard.RecordFailure` | packages/admin-service/admin/middleware/session.js:331-339 | The entry after a failure. |
| `Lockout.SessionGuard.ClearFailures` | packages/admin-service/admin/middleware/session.js:341-343 | The entry is gone after a success. |
| `Lockout.SessionGuard.HandleLogin` | packages/admin-service/server.js:342-378 | The login route: refused while locked, else cleared or recorded. |
| `Polling.Poll` | packages/payment-service/src/gateway/gateway.ts:122-161 | At most the allowed look-ups; the first found transaction is returned unless a fatal error came earlier; total waiting is the sum of the capped delays between them. |
| `Polling.WaitedBound` | packages/payment-service/src/gateway/gateway.ts:72-78 | Total waiting is at most the cap for each wait and at most the uncapped geometric sum. |
| `Polling.UncappedExact` | packages/payment-service/src/gateway/gateway.ts:72-78 | While no delay reaches the cap the total is exactly the geometric sum. |
| `Polling.CappedGrowth` | packages/payment-service/src/gateway/gateway.ts:72-78 | Once the cap is reached every further wait adds exactly the cap. |

## Left out

- Row order: the queries of a spend and of a refund carry no ORDER BY, so the order is taken to be the table's; the theorems hold for every order. The sorting of approvals in reports is not modelled.
- Database.PostgresDatabase.RefundWincFromOverflowSpend: the expiry inside a refund runs on its own connection in the service, so it stays when the refund fails; here it is rolled back with it. Its race with a concurrent spend is not modelled either.
- Prices: the amounts of charges for uploads and names and of crypto credits are natural numbers, because the code clamps them there (`packages/payment-service/src/types/positiveFiniteInteger.ts`, `packages/payment-service/src/pricing/pricing.ts:543-548`, `:821`, `:907-912`); computing them from byte counts, rates and promotions is not modelled. Loans, refunds, adjustments and bypassed receipts take every whole number.
- A zero charge with listed payers: the service fails with a TypeError on an empty plan; the model returns the error `EmptyPlan`.
- `overflow_spend` as JSON text and amounts as text: their values are modelled, and for audit rows whether the text is a number.
- Database.PostgresDatabase.CreatePaymentReceipt: the refusal of a promo code that has become ineligible is not modelled; promo codes, payment adjustments, gift messages, user address types and referers are rows beside the money.
- Gift chargebacks: the service looks the gift up in the table of unredeemed gifts and claws nothing back; modelled as the code does, without a statement about redeemed gifts.
- The fiat quote path of ArNS purchases: its receipt carries no status of its own; its balance effects are `Runs.Credit`, `Runs.Remark` and `Runs.Charge`.
- Database.PostgresDatabase.FinalizeX402: the look-up of the payment, its status row and the x402 reservation row are left out; a repeated finalization credits again.
- `refundBalance` without an active reservation: modelled as the code does (it credits the given amount); no idempotence is claimed.
- ReserveRace.RunSerial: one lock per signer stands for the locks on its user row and on the approvals it received, and a refund waits for its signer and all its payers, so a refund that only adds back approvals of a signer with an open reserve is ordered after it. A signer without a user row is locked the same way.
- Database.PostgresDatabase.AdjustUserWinstonBalance: an adjustment under an `approved_*` reason, which no caller makes, would not be summed; the contract excludes it.
- Crypto.AtMostOnce: counts raises by transaction id over runs of crypto operations; over runs of the whole service the log's total is covered by `Service.RunIncome`.
- Concurrency of operations that read without a row lock: chargebacks, revokes against reserves, concurrent refunds. They are atomic steps here.
- ArNS intents other than buying a name have no receipt-to-chain mapping; their confirmation is in `SolanaArio`, not in the crash-point protocol.
- The registry program itself: which writes it refuses and what a landed write changes is taken from what the gateway relies on; the entries of the record cache do not time out in the model.
- `collectIssues`, message texts, durations, the heartbeat, persistence of alerter state, failed sends; one reading of the quiet hours serves a whole call of `evaluate`.
- Setup mode, sessions, cookies and password hashing around the lockout; each login is one step. The first `Date.now()` of `lockStatus` serves for its second one.
- Randomness, clocks, network answers and the rejection of a post are arguments of the methods.
- Chunk headers, Merkle proofs and their validation, object store and queue clients.
- Fractional milliseconds and the overflow of the power of two in the polling delay.
- Historical data edits of other migrations, statistics, dashboards, routers and configuration.
