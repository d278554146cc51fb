# TrustBank core: verified model

A Dafny model of a multi-service core-banking platform. It covers the parts
whose correctness is a property of whole runs: the double-entry ledger, the
products on top of it, and the protocols that connect payment providers, the
gateway and merchants to it.

`dafny verify dfyconfig.toml` checks the whole project.

## How it is organised

| module | what it models |
|---|---|
| `Sums`, `Domain`, `Network` | sums over sequences; the shapes the ledger packages share; how a call between services can end |
| `Ledger` | the engine: validation, guards, posting, reversing, accounts; `LedgerStore` does in place what the functions specify |
| `LedgerRuns`, `Reversals`, `Replay`, `Overdraft` | what every run keeps: soundness and trial balance, reversal chains, idempotency, the balance guard |
| `Wallet`, `WalletService` | wallets and locked savings |
| `LedgerOutcomes` | what every money operation writes, column by column, and exactly when |
| `Accrual`, `AccrualPass`, `Provision`, `LostWrites`, `TenantPasses` | daily interest, loan-loss provisioning with delayed and lost writes, and what a whole pass over a tenant does |
| `Loan`, `LoanRuns`, `LoanClosing` | lending, with handlers run one at a time and fully interleaved; when a loan closes settled |
| `EditDistance`, `Screening` | edit distance and sanctions matching |
| `Checkout`, `CheckoutOutcomes` | completing, cancelling and expiring a checkout session; how a completion ends and how retrying does |
| `Payments`, `Settlement`, `PayoutOutcomes`, `Refunds`, `Reconciliation`, `PaymentsService` | payouts step by step, as whole handlers, what each answer leads to, their refunds, the reconciliation pass, and the service |
| `Outbox`, `OutboxOutcomes`, `OutboxService` | the event outbox and the merchant webhook queue |
| `RateLimit`, `Usage`, `GatewayService` | the rate limiter, the usage rollup and report |
| `Cards`, `CardApprovals`, `CardLedger`, `CardRuns`, `CardService` | card settlement run whole and fully interleaved, when a card may settle, and its rows against what the ledger took |
| `Nuban` | NUBAN check digits |
| `Witnesses`, `PaymentWitnesses` | concrete ledgers in which the failures below happen |

Functions say what a step does to the state; classes and methods do it in
place and are proved equal to those functions; lemmas say what holds over every
run. Where the services work in several database, provider or ledger calls,
each call is a step of its own, so that everything read may be stale by the
time it is acted on. Payouts, checkout completions, disbursements, repayments,
interest, provisions and card settlements are also modelled run through without
interruption, and the two are proved to agree (`Settlement.HandlerIsSchedule`,
`Checkout.CheckoutDesk.CompleteSession`, `LoanRuns.DisburseIsSchedule`,
`LoanRuns.RepayIsSchedule`, `LoanRuns.InterestIsSchedule`,
`LoanRuns.TickIsSchedule`, `CardRuns.SettleIsSchedule`).

Ids are positions in the tables, in order of creation. There is one tenant.
Amounts are mathematical integers, in kobo. The clock, the network and the
answers of providers and webhooks are parameters, and every call may fail
before it arrives, or arrive and lose its answer.

## Where the code falls short of what it says

Each of these is proved, with the exact condition where there is one.

- The balance guard checks each line against the balance before the entry, so
  an entry that draws twice on an account can overdraw it
  (`Overdraft.SafeExactlyWhenCovered`, `Witnesses.DrawnTwiceOverdraws`). No
  wallet, savings or loan operation posts such an entry.
- A loan can be closed owing interest posted, or a repayment reversed, between
  the zero reading and the close (`Witnesses.OwedWhenClosed`,
  `Witnesses.OwedWhenReversed`). Among the loan's own handlers, passes, reversals
  by anybody and posts by others that do not name the loan, it closes settled in
  every continuation if and only if, at the reading, nobody holds a claim still
  to be paid out or a positive balance whose interest can still be posted, and
  no entry that took something off the loan can still be reversed
  (`LoanClosing.ClosesSettledExactly`). Against posts that do name the loan no
  reading is safe (`LoanClosing.NoReadingIsSafe`).
- The comment on provisioning says targets never fall; a repayment lowers the
  target if and only if it is worth more at the loan's rate than the target had
  rounded away (`Provision.RepaymentLowersTarget`, `Witnesses.TargetFalls`).
  Keying by target never understates all the same (`Provision.NeverUnderstated`),
  but a lost metadata write makes later passes reserve on top of it, by exactly
  what a tally of the passes says (`LostWrites.ReserveIsTally`,
  `Witnesses.LostWriteOverReserves`).
- A cancel or an expiry that read a checkout session before it was paid
  overwrites paid (`Checkout.PaidFinalExactly`,
  `PaymentWitnesses.PaidEndsCancelled`).
- A refund's key leaves out the provider, so a reference used on two providers
  strands the second refund (`Refunds.RefundExactly`,
  `PaymentWitnesses.SecondIsStranded`).
- A poll older than a failure webhook can resolve a payout already refunded
  (`Payments.FinalExactly`, `PaymentWitnesses.ResolvedAndRefunded`).
- A provider that keeps erring is never refunded, however old the payout
  (`Reconciliation.ErringProviderNeverRefunds`).
- Any number of settlements approved on one reading can together pass a card's
  daily limit (`CardRuns.OverlapExceedsExactly`, `Witnesses.OverlapPassesLimit`),
  by no more than what was in flight at an approval
  (`CardRuns.OverlapBoundsExcess`).
- An answer lost after the ledger charged a card leaves the charge without a row
  and uncounted, so what the ledger takes can pass the daily limit
  (`CardLedger.LostChargeEscapesExactly`, `Witnesses.LostChargePassesLimit`).
  A retry writes the row if and only if it is approved when it is sent
  (`CardLedger.LaterRetryRepairsExactly`). Sent straight after, it is checked
  against the wallet already charged, and is declined unless the wallet had held
  twice the amount (`CardLedger.RetryRepairsExactly`,
  `Witnesses.LostChargeNotRepaired`).
- Settling again under the same key is not idempotent when the first answer
  arrived: the retry is refused once the day has no room for the amount a second
  time (`CardLedger.RetryApprovedExactly`).
- A merchant delivery that was marked delivered goes back to pending, to be sent
  again, when the marking's answer is lost (`Outbox.DeliveredFinalExactly`,
  `Outbox.DeliveredGoesBack`).
- A rollup forgets the counters of the days it closes, so a request stamped with
  such a day can be admitted over the limit (`RateLimit.DecisionDiffersExactly`,
  `RateLimit.LateRequestLetIn`).
- Between midnight and the rollup the usage report leaves out what no rollup has
  counted yet of earlier days (`Usage.ShownLagsExactly`).
- A name with no letter or digit is never a hit, though it may be two edits from
  a listed name of two letters (`Screening.MisspellingCaughtExactly`,
  `Screening.EmptiedNameMissed`).

## Model

| member | source | states |
|---|---|---|
| `Ledger.FirstBadLine` | services/ledger/internal/ledger/service.go:194-205 | The error of the first line that is not positive or has an unknown direction, and of no later one; none exactly when no line is bad |
| `Ledger.LinesError` | services/ledger/internal/ledger/service.go:189-211 | Accepts exactly entries of at least two positive lines with known directions whose debits equal their credits |
| `Ledger.GuardError` | services/ledger/internal/ledger/service.go:231-254 | No refusal exactly when no line alone is refused against the balances before the entry |
| `Ledger.LedgerStore.ValidateLines` | services/ledger/internal/ledger/service.go:189-211 | The loop with running totals returns the specified error, early exits included |
| `Ledger.LedgerStore.CheckGuards` | services/ledger/internal/ledger/service.go:231-254 | The guard loop returns the refusal of the first line that may not be posted |
| `Ledger.LedgerStore.WriteOutboxEvent` | services/ledger/internal/ledger/service.go:307-326 | Appends exactly one event describing the entry |
| `Ledger.LedgerStore.PostWithinTx` | services/ledger/internal/ledger/service.go:215-305 | The whole new state and reply of the shared write path: validation, replay, guards, reference clash, entry, lines and event |
| `Ledger.LedgerStore.PostJournalEntry` | services/ledger/internal/ledger/service.go:53-82 | A fresh post changes the tables as specified and nothing else |
| `Ledger.LedgerStore.ReverseJournalEntry` | services/ledger/internal/ledger/service.go:88-149 | A reversal replays, refuses, or posts the flipped lines linked to the original, whatever order the lines are read back in |
| `Ledger.LedgerStore.OpenAccount` | services/ledger/internal/account/account.go:46-107 | Opens an account unless its number is taken |
| `Ledger.LedgerStore.UpdateStatus` | services/ledger/internal/account/account.go:257-274 | Changes one account's status and nothing else |
| `LedgerRuns.StepShape` | services/ledger/internal/ledger/service.go:213-305 | Every request appends at most one entry, under its own unused key, and rewrites no entry and no account's fixed columns |
| `LedgerRuns.StepOrigin` | services/ledger/internal/ledger/service.go:88-149 | An entry carries its request's key and entry type and reverses only what the request names |
| `LedgerRuns.PostedUnderKey` | services/ledger/internal/ledger/service.go:220-224 | A successful reply names the entry stored under the request's key |
| `LedgerRuns.ReversalUndoes` | services/ledger/internal/ledger/service.go:114-137 | The stored lines of a reversal are the original's, side for side flipped, in whatever order they were loaded |
| `LedgerRuns.UndoesNegates` | services/ledger/internal/domain/types.go:18-25 | Flipped lines move every account by exactly the opposite amount |
| `LedgerRuns.StepSound` | services/ledger/internal/ledger/service.go:189-326 | Every request keeps entries balanced, reversals unshared and backward, keys and references unique and events in step |
| `LedgerRuns.RunSound` | services/ledger/internal/ledger/service.go:189-326 | The same over every run |
| `LedgerRuns.BalanceAfterAppend` | services/ledger/internal/account/account.go:313-331 | A derived balance moves by exactly the new entry's net on its normal side |
| `LedgerRuns.TrialBalance` | services/ledger/internal/coa/coa.go:86-108 | In a sound ledger the debit-normal balances sum to the same as the credit-normal ones, contra accounts included |
| `LedgerRuns.CurrencyBalanced` | services/ledger/internal/ledger/service.go:189-211 | Debits equal credits in every currency |
| `LedgerRuns.RunsBalance` | services/ledger/internal/ledger/service.go:189-298 | Both of these in every ledger a run of requests can reach |
| `Reversals.OnePerDepth` | services/ledger/internal/ledger/service.go:106-112 | A reversal chain has at most one entry at each depth: chains never branch |
| `Reversals.UnreversedIsLast` | services/ledger/internal/ledger/service.go:342-351 | The entry nothing has reversed is the end of its chain |
| `Reversals.DepthGivesSign` | services/ledger/internal/ledger/service.go:114-121 | Each link of a chain does what its head does, with the sign of its depth |
| `Reversals.JournalNetIsEvenChains` | services/ledger/internal/ledger/service.go:88-149 | The net of all lines equals the net of the originals with an even number of reversals |
| `Reversals.BalanceIsEvenChains` | services/ledger/internal/account/account.go:313-331 | In every reachable ledger each balance is the sum over the evenly reversed originals alone |
| `Replay.SuccessStaysAnswered` | services/ledger/internal/ledger/service.go:91-96 | A request that once succeeded is answered with the same entry ever after |
| `Replay.ReplayErasure` | services/ledger/internal/ledger/service.go:220-224 | Inserting copies of succeeded requests at any later points changes no books and no other reply, and each copy gets its original's reply; a copied reversal may read its lines back in another order |
| `Replay.OneEntryOneEvent` | services/ledger/internal/ledger/service.go:300-326 | In every reachable ledger keys are unique and entries and events pair off one to one |
| `Overdraft.PostMoves` | services/ledger/internal/ledger/service.go:231-298 | A post that writes moves each balance by the entry's net on that account |
| `LedgerOutcomes.ReversalWritesExactly` | services/ledger/internal/ledger/service.go:88-149 | In a sound ledger a reversal writes if and only if its key and reference are new, the entry exists and nothing reversed it, and every flipped line may be put on its account |
| `LedgerOutcomes.ReversalExactly` | services/ledger/internal/ledger/service.go:114-137 | A written reversal carries the original's reference with -REV, its currency, the request's key and reason, the link, and an event with the original's line count |
| `Overdraft.SafeExactlyWhenCovered` | services/ledger/internal/ledger/service.go:243-253 | A well-formed entry keeps an account solvent in every ledger if and only if it takes no more from it than its largest single line; otherwise some ledger accepts it and is overdrawn |
| `Witnesses.DrawnTwiceOverdraws` | services/ledger/internal/ledger/service.go:243-253 | Two debits of 60 and a credit of 120 are well formed, accepted on a guarded balance of 60, and leave it at -60 |
| `Overdraft.StepSolvent` | services/ledger/internal/ledger/service.go:231-254 | Posts that name no account twice on a side, and all reversals, keep every guarded account at or above zero |
| `Overdraft.RunSolvent` | services/ledger/internal/ledger/service.go:231-254 | The same over every run, reversals of reversals included |
| `Wallet.ResolutionStable` | services/ledger/internal/wallet/wallet.go:245-272 | A customer or number once resolved to an account resolves to it after any later request |
| `Wallet.MoveWellFormed` | services/ledger/internal/wallet/wallet.go:131-135 | A two-line movement always balances, names no account twice, and is malformed only for an amount that is not positive |
| `Wallet.MoveMovesMoney` | services/ledger/internal/wallet/wallet.go:115-136 | A movement that writes moves exactly its amount between its two accounts, leaves all others, and was affordable |
| `Wallet.MoveAccepted` | services/ledger/internal/wallet/wallet.go:115-136 | A movement whose lines are not refused, under a fresh key and reference, is written |
| `LedgerOutcomes.MoveRefusals` | services/ledger/internal/ledger/service.go:189-298 | A movement that does not succeed is refused for its amount, else for the debited account, else for the credited one, each with its own reason, else for its reference |
| `LedgerOutcomes.PostExactly` | services/ledger/internal/ledger/service.go:189-326 | A post of any lines writes if and only if they balance, it is new and every line may be put on its account; the entry, its lines and its event then have exactly these columns |
| `LedgerOutcomes.MoveExactly` | services/ledger/internal/ledger/service.go:215-326 | A two-line movement writes exactly one entry, its two lines and its event, with these columns, if and only if it is new, positive and both accounts are active and may take their line; otherwise nothing changes |
| `Wallet.TransferMovesMoney` | services/ledger/internal/wallet/wallet.go:115-136 | A transfer that writes takes from one wallet what it gives the other, and could be afforded |
| `LedgerOutcomes.TransferExactly` | services/ledger/internal/wallet/wallet.go:115-136 | A transfer writes the p2p_transfer movement between two different customers' wallets when it is accepted, and nothing else |
| `LedgerOutcomes.DepositExactly` | services/ledger/internal/wallet/wallet.go:151-174 | A deposit writes the deposit movement from the float account to the wallet when it is accepted, and nothing else |
| `LedgerOutcomes.WalletRefusals` | services/ledger/internal/wallet/wallet.go:115-243 | Which customer, account or float is missing, or the same, for each refusal before the ledger is asked |
| `LedgerOutcomes.PayOutExactly` | services/ledger/internal/wallet/wallet.go:188-243 | Withdrawals and card settlements write their own movement from the wallet to the float account when it is accepted, and nothing else |
| `Wallet.WithdrawalUndoesDeposit` | services/ledger/internal/wallet/wallet.go:151-206 | A deposit and a withdrawal of the same amount restore every balance |
| `Wallet.OperationIsRun` | services/ledger/internal/wallet/wallet.go:115-243 | Every wallet and savings operation is a run of ledger requests that name no account twice on a side |
| `Wallet.ProductsSolvent` | services/ledger/internal/wallet/wallet.go:115-243 | No sequence of wallet and savings operations, however they fail, overdraws a guarded account |
| `Wallet.LockHolds` | services/ledger/internal/wallet/savings.go:126-168 | Until a pocket matures, no wallet or savings operation by anyone changes what it holds |
| `LedgerOutcomes.OpenSavingsExactly` | services/ledger/internal/wallet/savings.go:60-109 | Opening adds a guarded pocket of the customer locked until now plus the days, unless the number is taken, and funds it from the wallet when that is accepted |
| `LedgerOutcomes.WithdrawSavingsExactly` | services/ledger/internal/wallet/savings.go:126-168 | A withdrawal is written exactly for a matured pocket, by its owner, into the owner's wallet, when the movement is accepted |
| `LedgerOutcomes.WithdrawalRefusals` | services/ledger/internal/wallet/savings.go:138-152 | Everybody but the owner is refused as not the owner, the owner as locked exactly before maturity |
| `LedgerOutcomes.SavingsKept` | services/ledger/internal/wallet/savings.go:56-168 | A pocket opened for some days holds exactly its deposit through every sequence of wallet and savings operations before then, whose withdrawals are all refused; from then on its owner, and nobody else, is paid what the ledger accepts |
| `WalletService.TransferP2P` | services/ledger/internal/wallet/wallet.go:115-136 | The method resolves both wallets, refuses a transfer to itself, and posts as specified |
| `WalletService.ConfirmDeposit` | services/ledger/internal/wallet/wallet.go:151-174 | The method credits the wallet from the float account as specified |
| `WalletService.PayOut` | services/ledger/internal/wallet/wallet.go:188-243 | Withdrawals and card settlements debit the wallet to the float account as specified |
| `WalletService.OpenSavingsAccount` | services/ledger/internal/wallet/savings.go:60-109 | Opens the pocket and then funds it; on a later failure the empty pocket stays |
| `WalletService.WithdrawSavings` | services/ledger/internal/wallet/savings.go:126-168 | Checks product, owner and maturity in that order, then posts |
| `WalletService.OpenAccount` | services/ledger/internal/wallet/wallet.go:46-84 | Refuses a customer who already has a wallet, whatever product is asked for |
| `WalletService.OpeningExactly` | services/ledger/internal/wallet/wallet.go:46-84 | Refused to whoever has a wallet and for a taken number; otherwise an active, guarded, credit-normal row of the product, a wallet by default |
| `WalletService.OneWalletKept` | services/ledger/internal/wallet/wallet.go:46-84 | One call never gives a customer a second wallet, opening included |
| `WalletService.OneWalletAlways` | services/ledger/internal/wallet/wallet.go:46-84 | Over every run of account openings and other ledger requests no customer has two wallets |
| `Accrual.DailyInterestIsFloor` | services/ledger/internal/accrual/accrual.go:191-194 | Two integer divisions equal one: the interest is floor(balance * bps / 3650000) |
| `Accrual.DayLag` | services/ledger/internal/accrual/accrual.go:191-194 | A day's interest is at most the exact interest and less than one kobo below it |
| `Accrual.CompoundingLag` | services/ledger/internal/accrual/accrual.go:191-206 | n days of posted compounding never exceed exact compounding and lag it by at most ((1 + r)^n - 1) / r |
| `Accrual.InterestKeyPerDay` | services/ledger/internal/accrual/accrual.go:196-196 | Different days have different keys |
| `Accrual.PostInterest` | services/ledger/internal/accrual/accrual.go:177-241 | The method posts one account's interest for a day as specified, for savings and loans |
| `Accrual.InterestPosts` | services/ledger/internal/accrual/accrual.go:177-241 | When the accounts are active and the key is new, the balance grows by exactly the day's interest |
| `Accrual.RerunIsNoOp` | services/ledger/internal/accrual/accrual.go:196-197 | A day that already has its entry changes nothing when run again |
| `LedgerOutcomes.SavingsInterestExactly` | services/ledger/internal/accrual/accrual.go:177-206 | A pocket's day writes floor(balance * rate / 3650000) from the expense account under interest:account:day, or nothing |
| `LedgerOutcomes.LoanInterestExactly` | services/ledger/internal/accrual/accrual.go:212-241 | A loan's day writes the same sum, owed by the loan to the income account, under loan-interest:account:day, or nothing |
| `Accrual.AccruedIsCompounded` | services/ledger/internal/accrual/accrual.go:177-206 | Passes rerun any number of times in any order leave the compounded balance for the number of different days |
| `AccrualPass.AccrueTenant` | services/ledger/internal/accrual/accrual.go:99-175 | The method does the specified pass over a tenant: listings, missing accounts, savings, then each loan's interest and provision |
| `AccrualPass.PaySavings` | services/ledger/internal/accrual/accrual.go:156-160 | The loop over savings pockets posts each one's interest |
| `AccrualPass.ChargeLoans` | services/ledger/internal/accrual/accrual.go:161-173 | The loop over loans posts interest and, where the accounts exist, provisions |
| `AccrualPass.ListedExactly` | services/ledger/internal/account/account.go:201-225 | A pass lists exactly the product's active accounts |
| `AccrualPass.InterestKeyPerAccount` | services/ledger/internal/accrual/accrual.go:196-196 | Different accounts have different keys on the same day |
| `AccrualPass.PassPaysEach` | services/ledger/internal/accrual/accrual.go:156-160 | The loop over pockets pays every listed account exactly its own day's interest, in any order, and touches nobody else but the counter account |
| `TenantPasses.LoanPassPays` | services/ledger/internal/accrual/accrual.go:161-173 | In the loop over loans each gets exactly its own day's interest and its reserve its own shortfall, whatever the other loans get, and nobody else moves but the system accounts |
| `TenantPasses.TenantPassPays` | services/ledger/internal/accrual/accrual.go:99-175 | The whole pass gives every active pocket and loan exactly its own day's interest, raises each loan's reserve by exactly its own shortfall on what it then owes, and moves no account but these and the four system ones |
| `TenantPasses.MissingAccounts` | services/ledger/internal/accrual/accrual.go:118-153 | Without the interest account a product needs the tenant gets no pass; without both loan-loss accounts, its interest and no provisions |
| `TenantPasses.OwnDayExactly` | services/ledger/internal/accrual/accrual.go:177-206 | An active pocket's or loan's day is its yearly rate on its balance, over 365 and rounded down; any other account's is nothing |
| `TenantPasses.TenantPassSystem` | services/ledger/internal/accrual/accrual.go:155-173 | The four system accounts move by exactly the sums: the interest expense by the pockets' interest, the income by the loans', the provision expense and the reserve each by the loans' shortfalls |
| `TenantPasses.ProvisionKeysApart` | services/ledger/internal/accrual/accrual.go:298-298 | Provision keys of different loans are different |
| `Witnesses.LentIsReady` | services/ledger/internal/accrual/accrual.go:99-153 | A tenant with a loan paid out is ready for its pass |
| `Witnesses.LentIsCharged` | services/ledger/internal/accrual/accrual.go:155-173 | A loan of a million at 36.5 percent is charged 1000 and, 31 days past due, reserved a tenth of what it then owes |
| `Loan.DaysPastDue` | services/ledger/internal/loan/loan.go:69-77 | The number of whole days since maturity, 0 before a full day has passed |
| `Loan.OriginateLoan` | services/ledger/internal/loan/loan.go:107-139 | Opens a pending, guarded, debit-normal loan row carrying its terms, and posts nothing |
| `LedgerOutcomes.OriginationExactly` | services/ledger/internal/loan/loan.go:107-139 | Adds a pending, guarded, debit-normal row with the principal, rate and tenor, no maturity and nothing reserved, unless the number is taken |
| `Loan.DisburseLoan` | services/ledger/internal/loan/loan.go:156-214 | The method claims the pending loan, pays it out and sets its maturity as specified, with every failure in between |
| `LedgerOutcomes.DisbursementExactly` | services/ledger/internal/loan/loan.go:156-214 | Exactly a pending loan is claimed, its principal paid into its customer's wallet when the ledger accepts, and its maturity set its tenor in whole days later |
| `LedgerOutcomes.DisbursementFailures` | services/ledger/internal/loan/loan.go:156-180 | Fails as not found exactly for what is no loan and as not pending exactly for a loan in another status |
| `Loan.RepayLoan` | services/ledger/internal/loan/loan.go:233-284 | The method takes a repayment and closes the loan on a zero balance as specified |
| `LedgerOutcomes.RepaymentExactly` | services/ledger/internal/loan/loan.go:233-284 | Exactly its own customer repays an active loan, from that customer's wallet when the ledger accepts, and it is closed exactly when nothing is then owed |
| `LedgerOutcomes.RepaymentRefusals` | services/ledger/internal/loan/loan.go:233-257 | Refused as not owned and not active exactly when so |
| `Loan.ClosedOwesNothing` | services/ledger/internal/loan/loan.go:271-281 | With handlers run one at a time, among any other posts and reversals, a closed account owes nothing and never will |
| `LoanRuns.EventsConsistent` | services/ledger/internal/loan/loan.go:156-281 | In every interleaving of disbursements, repayments, interest, provisions, reversals by anybody and posts by others that do not name the loan, each entry on the loan is its principal paid out, interest, a repayment or a reversal, and claims and disbursements together are at most one |
| `LoanRuns.EventsSolvent` | services/ledger/internal/loan/loan.go:156-281 | In every interleaving every guarded account stays at or above zero |
| `LoanRuns.LoanAccount` | services/ledger/internal/loan/loan.go:156-281 | In those interleavings, however often disbursement is retried, the principal is paid out at most once; the balance is disbursed plus interest less repayments plus what reversals put back, and is never negative |
| `LoanRuns.LoanLife` | services/ledger/internal/loan/loan.go:107-281 | The same from origination on, in any reachable ledger: the principal once or never, plus interest, less repayments, plus reversals, never negative |
| `LoanRuns.DisburseIsSchedule` | services/ledger/internal/loan/loan.go:156-214 | With nobody in between, disbursing is its three steps, and a lost maturity is a crash before the last |
| `LoanRuns.RepayIsSchedule` | services/ledger/internal/loan/loan.go:233-284 | With nobody in between, repaying is its four steps |
| `LoanRuns.InterestIsSchedule` | services/ledger/internal/accrual/accrual.go:212-241 | With nobody in between, a loan's interest is its reading and its posting |
| `LoanRuns.TickIsSchedule` | services/ledger/internal/accrual/accrual.go:273-318 | With nobody in between, provisioning a loan is its three steps |
| `LoanClosing.ClosedOwesWhatCameBetween` | services/ledger/internal/loan/loan.go:271-281 | A loan closed on a zero reading owes exactly what disbursements, interest, repayments and reversals put on it between the reading and the close |
| `LoanClosing.ClosesSettledExactly` | services/ledger/internal/loan/loan.go:271-281 | From a zero reading on, among the loan's handlers, passes, any reversals and posts by others that do not name the loan, every continuation closes at zero if and only if no other caller holds a claim that can still be paid out or a positive balance whose interest can still be posted under its day's key, and no entry that took something off the loan can still be reversed |
| `LoanClosing.NoReadingIsSafe` | services/ledger/internal/loan/loan.go:271-281 | Against all traffic every zero reading has a continuation that closes the loan owing: one post by others that names it |
| `LoanClosing.OverlapClosesDebt` | services/ledger/internal/loan/loan.go:271-281 | From any loan that can be paid off, an interest posting between the zero reading and the close leaves a closed loan that owes it |
| `LoanClosing.ReversalReopensDebt` | services/ledger/internal/loan/loan.go:271-281 | From any loan that can be paid off, reversing the repayment between the zero reading and the close leaves a closed loan that owes all of it |
| `Witnesses.LentIsReached` | services/ledger/internal/loan/loan.go:156-214 | The ledger of the loan examples is one that requests reach from an empty ledger |
| `Witnesses.OwedWhenClosed` | services/ledger/internal/loan/loan.go:271-281 | In that ledger the loan is closed owing 1000 |
| `Witnesses.OwedWhenReversed` | services/ledger/internal/loan/loan.go:271-281 | In that ledger, with nobody else in flight, a reversal in between closes the loan owing 1000000 |
| `Provision.TargetGrowsWithAge` | services/ledger/internal/accrual/accrual.go:248-254 | Waiting never lowers a target, and no target passes half the balance |
| `Provision.TargetIsExpectedLoss` | services/ledger/internal/accrual/accrual.go:243-254 | For every balance and time the target is nothing before a full day past maturity, then a hundredth, from the 31st day a tenth, from the 61st a quarter, from the 91st half of what is owed |
| `Provision.RepaymentLowersTarget` | services/ledger/internal/accrual/accrual.go:256-266 | A repayment never raises its loan's target, and lowers it if and only if the amount at the loan's rate exceeds what the target had rounded away |
| `Witnesses.TargetFalls` | services/ledger/internal/accrual/accrual.go:256-266 | Half a debt of 1000000 repaid 31 days past due takes the target from 100000 to 50000 |
| `Provision.KeyPerTarget` | services/ledger/internal/accrual/accrual.go:298-298 | Different targets of one loan have different keys |
| `Provision.PostLoanProvision` | services/ledger/internal/accrual/accrual.go:273-318 | The method posts the shortfall and writes the metadata as specified |
| `LedgerOutcomes.ProvisionExactly` | services/ledger/internal/accrual/accrual.go:273-318 | A pass writes the expected loss beyond what its listing has reserved, from the expense to the reserve under a key of the target, and has the new target to write down exactly when that post succeeds |
| `Provision.ReserveAfterPass` | services/ledger/internal/accrual/accrual.go:273-318 | When reserve and metadata agree, a pass leaves both at the expected loss, or where they were if that was more |
| `Provision.TickCovers` | services/ledger/internal/accrual/accrual.go:288-316 | A pass keyed by target keeps the reserve at or above the metadata and every posted target, whatever it read and whether or not its write is lost |
| `Provision.TickInTwo` | services/ledger/internal/accrual/accrual.go:298-316 | A pass is its posting and then, if it goes through, its metadata write |
| `Provision.NeverUnderstated` | services/ledger/internal/accrual/accrual.go:256-318 | Over every history with stale listings and metadata writes delayed, overtaken or lost, the reserve only grows and covers all targets posted and all metadata there ever was or may yet be |
| `Provision.FreshTickTracksPeak` | services/ledger/internal/accrual/accrual.go:288-316 | A pass that reads current metadata and keeps its write leaves the reserve at the higher of the peak and the new target |
| `Provision.ReserveIsPeakTarget` | services/ledger/internal/accrual/accrual.go:288-316 | With no write lost, the reserve equals the highest target seen |
| `LostWrites.ReserveIsTally` | services/ledger/internal/accrual/accrual.go:288-316 | With current listings and any writes lost, reserve, metadata and provision entries are exactly what the tally of the passes' targets says |
| `LostWrites.TallyBounds` | services/ledger/internal/accrual/accrual.go:288-316 | Whatever is lost, the tally's reserve covers its metadata and every posted target and is at most the sum of the targets |
| `LostWrites.LostWritesAddUp` | services/ledger/internal/accrual/accrual.go:308-316 | With every write lost, passes with rising targets reserve the sum of them all |
| `Witnesses.LostWriteOverReserves` | services/ledger/internal/accrual/accrual.go:308-316 | Targets of 10000 and then 100000, the first write lost, reserve 110000 |
| `Provision.DateKeyUnderstates` | services/ledger/internal/accrual/accrual.go:256-272 | Keyed by date, two passes in a day leave the metadata ahead of the books by exactly the targets' difference |
| `Witnesses.DateKeyLosesTheSecondPass` | services/ledger/internal/accrual/accrual.go:256-272 | In a reachable ledger two passes of one day under a date key leave the metadata 90000 ahead of the reserve |
| `EditDistance.CheapestReaches` | services/compliance/src/services/screeningService.js:96-113 | A script of exactly the distance's cost turns one string into the other |
| `EditDistance.NoCheaper` | services/compliance/src/services/screeningService.js:96-113 | No script is cheaper |
| `EditDistance.DistanceIsFewestEdits` | services/compliance/src/services/screeningService.js:96-113 | The recurrence that takes the diagonal outright on equal characters is the minimum over all edit scripts |
| `EditDistance.Table` | services/compliance/src/services/screeningService.js:101-112 | The one-row in-place table ends with the last cell of the recurrence |
| `EditDistance.Levenshtein` | services/compliance/src/services/screeningService.js:96-113 | The method returns the fewest edits, for all strings |
| `EditDistance.DistanceIsMetric` | services/compliance/src/services/screeningService.js:96-113 | Zero exactly on equal strings, symmetric, and never longer by a detour |
| `Screening.NormalizeNormalizes` | services/compliance/src/services/screeningService.js:84-91 | Normalising yields single-spaced lower-case words with the same letters and digits in the same order, and does nothing to a name that already is |
| `Screening.MatchesExact` | services/compliance/src/services/screeningService.js:117-138 | There is a match exactly when some listed name is near the screened one |
| `Screening.MisspellingCaughtExactly` | services/compliance/src/services/screeningService.js:117-138 | A misspelling of a listed name by up to two edits is reported if and only if something is left of the written name once normalised |
| `Screening.HitExactly` | services/compliance/src/services/screeningService.js:117-138 | There is a hit exactly when the written name is not emptied and is within two edits of some listed name or alias |
| `Screening.ScreenedIsReported` | services/compliance/src/services/screeningService.js:117-138 | What is reported is the id, name and source of exactly the entries whose full name or an alias is within two edits of the written name, in list order |
| `Screening.BetweenLetters` | services/compliance/src/services/screeningService.js:84-91 | Between two letters or digits each of Unicode's spaces reads as one blank, a letter or digit as itself and anything else as nothing |
| `Screening.EmptiedNameMissed` | services/compliance/src/services/screeningService.js:118-119 | "?" is two edits from the listed "li" and is not reported |
| `Screening.ScreeningService.ScreenSanctions` | services/compliance/src/services/screeningService.js:117-149 | Returns the near entries in list order, each once, and opens a case exactly on a hit |
| `Screening.ScreeningService.NearAny` | services/compliance/src/services/screeningService.js:127-136 | The inner loop that stops at the first near name decides whether there is one |
| `Checkout.ExclusiveKept` | services/checkout/src/services/checkoutWebhookService.js:41-49 | Every step keeps a pending session free of completions in flight, and at most one in flight otherwise |
| `Checkout.DepositShape` | services/checkout/src/services/checkoutWebhookService.js:52-60 | The deposit writes nothing or one entry, under the session's key and for exactly its amount |
| `Checkout.EvidenceKept` | services/checkout/src/services/checkoutWebhookService.js:62-87 | Every step keeps paid backed by a ledger entry and exactly one delivery row |
| `Checkout.CompletionSafe` | services/checkout/src/services/checkoutWebhookService.js:41-87 | In every interleaving with stale reads, lost answers and crashes: exclusion, at most one exact credit, and paid implies entry, credit and one delivery |
| `Checkout.PaidFinalExactly` | services/checkout/src/services/checkoutSessionService.js:65-68 | From a paid session, paid is final in every continuation if and only if no cancel or expiry that read it earlier is in flight |
| `CheckoutOutcomes.CompletionOutcome` | services/checkout/src/services/checkoutWebhookService.js:41-87 | One completion leaves a pending session paid, with its delivery, exactly when the deposit was answered with success and the commit happened, and pending otherwise; any other session is left alone |
| `CheckoutOutcomes.DepositExactlyAmount` | services/checkout/src/services/checkoutWebhookService.js:52-60 | A completion deposits the session's amount in the merchant's wallet under a key of the session's own when the ledger accepts, and nothing else |
| `CheckoutOutcomes.EndingOutcome` | services/checkout/src/services/checkoutSessionService.js:65-104 | A cancel ends exactly pending and processing sessions, an expiry exactly pending ones past their time |
| `CheckoutOutcomes.NeverStranded` | services/checkout/src/services/checkoutWebhookService.js:78-86 | In every interleaving without a crash a processing session has its completion in flight |
| `CheckoutOutcomes.FailurePutsBack` | services/checkout/src/services/checkoutWebhookService.js:83-86 | A completion that fails puts a processing session back to pending and no other |
| `CheckoutOutcomes.RetryEndsPaid` | services/checkout/src/services/checkoutWebhookService.js:41-87 | After any number of completions however they went the session is paid or pending; one more that the ledger accepts or has accepted ends it paid, with one delivery, credited exactly once |
| `Checkout.StaleCancelOverwritesPaid` | services/checkout/src/services/checkoutSessionService.js:98-104 | Whenever the ledger accepts the deposit, a stale cancel leaves the session cancelled, credited in full, with its delivery queued |
| `PaymentWitnesses.PaidEndsCancelled` | services/checkout/src/services/checkoutSessionService.js:98-104 | In a concrete ledger a session is paid, credited 100, its delivery queued, and ends cancelled |
| `Checkout.CheckoutDesk.CompleteSession` | services/checkout/src/services/checkoutWebhookService.js:41-87 | The method is its own schedule of steps, run without interruption |
| `Checkout.CheckoutDesk.Cancel` | services/checkout/src/services/checkoutSessionService.js:98-104 | The method cancels a pending or processing session and refuses others |
| `Checkout.CheckoutDesk.ExpireIfDue` | services/checkout/src/services/checkoutSessionService.js:65-68 | The method expires a pending session whose time is up |
| `Payments.RefundShape` | services/payments/src/services/settlementService.js:177-188 | The only entry a refund can add is a reversal of the debit under the refund's own key |
| `Payments.ReturnedOnceOrNever` | services/ledger/internal/ledger/service.go:106-112 | Over every account, the reversals of an entry give back all it took, once, or nothing |
| `Payments.RefundedAtMostOnce` | services/payments/src/services/settlementService.js:77-188 | In every interleaving of initiations, webhooks, polls, refunds, crashes and other traffic a payout's debit is given back once or not at all |
| `Payments.FinalExactly` | services/payments/src/services/settlementService.js:116-150 | A terminal outcome is final in every continuation if and only if nobody who read the attempt earlier may still write the other one |
| `Settlement.HandlerIsSchedule` | services/payments/src/services/settlementService.js:77-188 | Each handler does what its steps do when nobody interrupts |
| `Settlement.HandleShape` | services/payments/src/services/settlementService.js:77-188 | A handler changes the status of the attempt it is about, or adds one row, or changes no row |
| `PayoutOutcomes.InitiationOutcome` | services/payments/src/services/settlementService.js:77-114 | A new payout is one row, resolved exactly when the provider completed it, failed with its debit reversed exactly when it erred, and pending otherwise; a reversal not answered with success is logged, and a known payout changes nothing |
| `PayoutOutcomes.PollOutcome` | services/payments/src/services/settlementService.js:138-167 | A polled pending payout is resolved when completed, failed with its debit reversed when declined or in progress past its deadline, and otherwise left alone |
| `PayoutOutcomes.WebhookOutcome` | services/payments/src/services/settlementService.js:116-150 | A webhook resolves or fails a pending outbound payout as it says and changes nothing else |
| `PayoutOutcomes.DepositOutcome` | services/payments/src/services/settlementService.js:37-56 | An inbound payment adds its row once |
| `PayoutOutcomes.OnlyAsTold` | services/payments/src/services/settlementService.js:77-188 | In every interleaving from an empty table a payout is resolved only if a webhook or an answer said so, and failed only if one said so, its initiation erred, or a poll found it overdue |
| `Settlement.TerminalStays` | services/payments/src/services/settlementService.js:116-150 | With handlers run one at a time, resolved and failed are terminal |
| `Refunds.GivenBack` | services/payments/src/services/settlementService.js:177-188 | A refund leaves its own debit reversed or its failure logged, and every other payout as it was |
| `Refunds.StatusesTruthful` | services/payments/src/services/settlementService.js:77-188 | Over every run of whole handlers with fresh references, pending and resolved payouts keep their debit unreversed and failed ones have it reversed or the failure logged |
| `Refunds.RefundExactly` | services/payments/src/services/settlementService.js:177-188 | A refund answered without error gives the debit back if and only if its key, which does not name the provider, was free |
| `Refunds.SharedReferenceStrandsRefund` | services/payments/src/services/settlementService.js:177-188 | A payout under a reference another provider's refund used fails silently and is never given back |
| `PaymentWitnesses.SecondIsStranded` | services/payments/src/services/settlementService.js:177-188 | Two payouts of 60 under one reference with two providers fail: the first is given back, the second is not, and nothing is logged |
| `Refunds.StalePollResolvesRefunded` | services/payments/src/services/settlementService.js:156-167 | Left to interleave, a poll older than the failure webhook ends the payout resolved with its debit given back |
| `PaymentWitnesses.ResolvedAndRefunded` | services/payments/src/services/settlementService.js:156-167 | In a concrete ledger a payout of 60 ends resolved and given back |
| `Reconciliation.Selected` | services/payments/src/services/reconciliationService.js:20-22 | Selects exactly the stale pending outbound attempts, each once |
| `Reconciliation.PassPointwise` | services/payments/src/services/reconciliationService.js:14-44 | A completed pass decides each stale pending payout by its own answer and age and leaves every other row as it was |
| `PayoutOutcomes.PassOutcome` | services/payments/src/services/reconciliationService.js:14-44 | By age in minutes: left pending until stale; then resolved or failed as its provider says, failed once old enough while in progress, and left pending while its provider errs |
| `Reconciliation.CutShortPointwise` | services/payments/src/services/reconciliationService.js:24-38 | A pass cut short by an error has decided the payouts it reached as a whole pass would, and touched no other row |
| `Reconciliation.StillPendingExactly` | services/payments/src/services/reconciliationService.js:25-38 | A pending payout stays pending exactly when it is not yet stale, its provider errs, or it is in progress before its deadline |
| `Reconciliation.SettledInTime` | services/payments/src/services/reconciliationService.js:14-44 | With passes at most `gap` apart and a provider that never errs, no payout is pending past its deadline plus `gap`, whatever else ran |
| `Reconciliation.ErringProviderNeverRefunds` | services/payments/src/services/settlementService.js:159-166 | A payout whose provider errs on every poll is never refunded, however old |
| `PaymentsService.PaymentsDesk.InitiatePayout` | services/payments/src/services/settlementService.js:77-114 | The method does what the specified handler does |
| `PaymentsService.PaymentsDesk.HandleOutboundOutcome` | services/payments/src/services/settlementService.js:116-131 | The method does what the specified handler does, and reports handled exactly for a known outbound attempt |
| `PaymentsService.PaymentsDesk.ApplyOutboundOutcome` | services/payments/src/services/settlementService.js:138-150 | Webhook and poll outcomes become the specified transition |
| `PaymentsService.PaymentsDesk.ReconcileOutboundAttempt` | services/payments/src/services/settlementService.js:156-167 | A poll that errs is skipped; any other becomes the specified transition |
| `PaymentsService.PaymentsDesk.ReverseAndFail` | services/payments/src/services/settlementService.js:177-188 | Reverses if there is a debit, logs a failure, and marks the attempt failed either way |
| `PaymentsService.PaymentsDesk.ReconcileTenant` | services/payments/src/services/reconciliationService.js:14-44 | The loop does the whole pass and reports exactly the selected attempts and which were refunded by age |
| `Outbox.Claimable` | services/ledger/internal/outbox/outbox.go:138-145 | Claims pending unlocked rows in order, at most a batch, leaving one out only when the batch is full |
| `OutboxOutcomes.BatchExactly` | services/ledger/internal/outbox/outbox.go:138-145 | A batch is all claimable rows, or twenty of them |
| `Outbox.HappenSound` | services/ledger/internal/outbox/outbox.go:135-222 | Every claim, result, crash and insert keeps batches disjoint and counters truthful |
| `Outbox.QueueSafe` | services/ledger/internal/outbox/outbox.go:135-222 | With any number of workers no row is in two batches and none is delivered more than max(1, max_retries) times |
| `OutboxOutcomes.ResultOutcome` | services/ledger/internal/outbox/outbox.go:203-222 | What each result leaves: delivered, failed when its retries are spent or it has nowhere to go, or pending with one retry more |
| `OutboxOutcomes.NoneGivenUpEarly` | services/ledger/internal/outbox/outbox.go:203-222 | In every run in which all rows have somewhere to go, a failed row has been retried as often as it may be |
| `Outbox.TerminalStays` | services/ledger/internal/outbox/outbox.go:203-222 | A failed row, and a delivered one nobody is about to write off, never changes again |
| `Outbox.FailedStays` | services/checkout/src/services/merchantWebhookRunnerService.js:57-67 | Failed is final |
| `Outbox.DeliveredFinalExactly` | services/checkout/src/services/merchantWebhookRunnerService.js:47-68 | Delivered is final in every continuation if and only if no worker has written it without hearing so |
| `Outbox.DeliveredGoesBack` | services/checkout/src/services/merchantWebhookRunnerService.js:47-68 | A row is marked delivered, the answer is lost, and the row is pending again |
| `Outbox.UnseenEndsAsRefusal` | services/checkout/src/services/merchantWebhookRunnerService.js:56-67 | Left alone, a delivery not heard of ends as a refusal would |
| `Outbox.WorkRunsOut` | services/ledger/internal/outbox/outbox.go:117-222 | No run of useful steps by any number of workers, lost answers included, is longer than the work there was, a sum of remaining retries |
| `Outbox.StaysAttended` | services/ledger/internal/outbox/outbox.go:135-175 | With no crash or lost result every processing row stays in somebody's batch |
| `Outbox.WorkExactlyWhenUnfinished` | services/ledger/internal/outbox/outbox.go:117-133 | Such a queue has something useful left to do exactly when some row is neither delivered nor failed |
| `OutboxService.DrainWorks` | services/ledger/internal/outbox/outbox.go:117-133 | A drain whose results are all written leaves fewer deliveries to come or finds nothing to do |
| `OutboxService.EnoughDrains` | services/checkout/src/services/merchantWebhookRunnerService.js:71-77 | As many drains as there are deliveries left end with every row delivered or failed, whatever the webhooks answer |
| `OutboxService.Consumer.ClaimBatch` | services/checkout/src/services/merchantWebhookRunnerService.js:14-29 | Selects and flips rows as the specified claim does |
| `OutboxService.Consumer.MarkResult` | services/ledger/internal/outbox/outbox.go:203-222 | Writes the status and retry count a result calls for |
| `OutboxService.Consumer.DrainOnce` | services/checkout/src/services/merchantWebhookRunnerService.js:71-77 | Claims a batch and finishes it row by row: the specified cycle of steps |
| `RateLimit.CounterExact` | services/gateway/src/services/rateLimitService.js:15-25 | A counter holds exactly the requests its key made in its minute since the last rollup that closed the minute's day |
| `RateLimit.ClockMinutesAndDays` | services/gateway/src/services/rateLimitService.js:15-25 | Windows are clock minutes, and their days UTC days |
| `RateLimit.DecisionDiffersExactly` | services/gateway/src/middleware/auth.js:33-38 | A request is decided otherwise than by a plain log if and only if its minute has had its limit of requests, but not since the rollup that closed the minute's day; it is then admitted in excess |
| `RateLimit.LimiterIsPlainLogExactly` | services/gateway/src/middleware/auth.js:33-38 | A whole run is decided as by a plain log if and only if no request of it is so misjudged |
| `RateLimit.LateRequestLetIn` | services/gateway/src/services/usageRollupService.js:25-27 | Under a limit of one, a request, the next midnight's rollup and a late request for the first one's minute: both are admitted |
| `RateLimit.LimiterIsPlainLog` | services/gateway/src/middleware/auth.js:33-38 | While requests come before their day is rolled up, rollups change no decision |
| `RateLimit.MinuteAdmits` | services/gateway/src/middleware/auth.js:33-38 | While requests come in time a key is admitted min(limit, requests) times in every clock minute |
| `RateLimit.SixtySecondsAdmit` | services/gateway/src/middleware/auth.js:33-38 | While requests come in time no interval of sixty seconds or less admits more than twice the limit |
| `RateLimit.MinuteAdmitsAtMost` | services/gateway/src/middleware/auth.js:33-38 | In any run a minute admits at most its limit and once more for each rollup that closed its day |
| `RateLimit.SixtySecondsAdmitAtMost` | services/gateway/src/middleware/auth.js:33-38 | In any run sixty seconds admit at most twice the limit and once more for each closing of their minutes |
| `Usage.TotalAfterRollup` | services/gateway/src/services/usageRollupService.js:15-24 | A rollup adds to each key's total exactly its past counters |
| `Usage.DayAfterRollup` | services/gateway/src/services/usageRollupService.js:25-27 | A rollup clears the past days' counters completely and no others |
| `Usage.RecordedIsLogged` | services/gateway/src/services/usageRollupService.js:13-30 | In every interleaving, late requests included, a key's total and counters for a day add up to its requests that day |
| `Usage.ShownLagsExactly` | services/gateway/src/services/usageService.js:33-56 | At any time what is shown for a key and day is what it asked that day, less what of an earlier day no rollup has counted yet |
| `Usage.ShownIsLogged` | services/gateway/src/services/usageService.js:33-56 | Straight after a rollup what is shown for a key and day is what the key asked that day |
| `Usage.DailyAddsUp` | services/gateway/src/services/usageService.js:58-68 | Straight after a rollup the days reported for a key add up to its requests in the range |
| `GatewayService.Gateway.IncrementAndGetCount` | services/gateway/src/services/rateLimitService.js:15-25 | Stores and returns one more than the counter held |
| `GatewayService.Gateway.RequireApiKey` | services/gateway/src/middleware/auth.js:33-38 | Admits as specified and reports what is left of the limit |
| `GatewayService.Gateway.RollupAndPrune` | services/gateway/src/services/usageRollupService.js:13-30 | The row-by-row rollup ends in the specified totals and counters |
| `GatewayService.Gateway.GetUsage` | services/gateway/src/services/usageService.js:21-73 | Reports exactly the tenant's keys with usage in range, each with its days in order and their sum |
| `GatewayService.Gateway.MergedUsage` | services/gateway/src/services/usageService.js:33-56 | Stored totals with today's live counts over them |
| `CardLedger.MoneyShape` | services/ledger/internal/wallet/wallet.go:225-243 | The ledger writes nothing or the settlement under its key, and when done its key has an entry |
| `Cards.LimitsHold` | services/cards/src/services/cardService.js:70-138 | Over every run of settlements, each run whole, the rows of a card on a UTC day add up to at most its daily limit and each is positive and within its single limit |
| `CardApprovals.DecisionExactly` | services/cards/src/services/cardService.js:70-109 | Approved exactly for an active card, an amount within its single limit and with the day's rows within its daily limit, and a wallet that holds it; otherwise the first failing condition is the reason |
| `CardApprovals.SettlementExactly` | services/cards/src/services/cardService.js:116-138 | A settlement writes its movement exactly when it is spendable, sent and accepted by the ledger, and its row exactly once and only when answered |
| `CardApprovals.IssuedActive` | services/cards/src/services/cardService.js:31-41 | A card issued starts active, with the customer and limits asked for, and touches nothing else |
| `CardApprovals.StatusExactly` | services/cards/src/services/cardService.js:46-68 | Over every run a card that started active is closed if it ever was, frozen if that was the last word, and otherwise active, with the limits it had |
| `CardApprovals.FrozenNeverCharged` | services/cards/src/services/cardService.js:87-126 | After any run that leaves a card frozen or closed, no settlement of it changes anything, run whole or begun among others |
| `CardApprovals.UnfreezeRestores` | services/cards/src/services/cardService.js:46-60 | Freezing and unfreezing an active card leaves everything as it was |
| `CardRuns.SettleIsSchedule` | services/cards/src/services/cardService.js:116-138 | With nobody in between, settling is authorising, calling the ledger and writing the row |
| `CardRuns.OverlapBoundsExcess` | services/cards/src/services/cardService.js:116-138 | In every interleaving of those steps a card's rows of a day pass its limit by no more than was in flight for that card and day when another settlement was approved |
| `CardRuns.NoOverlapNoExcess` | services/cards/src/services/cardService.js:116-138 | In every interleaving in which no settlement of a card and day is approved with another in flight, the limit holds on rows |
| `CardRuns.RowsBacked` | services/cards/src/services/cardService.js:116-138 | In every interleaving each key has at most one row, every row has its ledger entry for the key's one amount, and no other entry is a card settlement |
| `CardRuns.LedgerExcess` | services/cards/src/services/cardService.js:116-138 | In every interleaving what the ledger takes for a card on a day is within its limit but for what was in flight at an approval and the charges not written down |
| `CardLedger.LedgerWithinLimits` | services/cards/src/services/cardService.js:70-138 | With each settlement run whole, what the ledger takes for a card on a day is within its daily limit plus that day's charges whose answer was lost |
| `CardLedger.LostChargeEscapesExactly` | services/cards/src/services/cardService.js:70-138 | A charge whose answer is lost is not counted by the next check, so two charges pass the limit exactly when what was taken plus both amounts does |
| `Witnesses.LostChargePassesLimit` | services/cards/src/services/cardService.js:116-138 | With 200 in the wallet the ledger takes 120 on a day limited to 100 |
| `CardLedger.RowsMatchEntries` | services/cards/src/services/cardService.js:116-138 | Over every run of whole settlements each key has at most one entry, one charge and one row, for one amount; rows and charges have their entry, and answered charges their row |
| `CardLedger.RowExactlyWhenCaptured` | services/cards/src/services/cardService.js:116-138 | Over every run of whole settlements a key has an entry exactly when some sending of it was approved and reached the ledger, and a row exactly when one such was answered |
| `CardLedger.RetryApprovedExactly` | services/cards/src/services/cardService.js:111-126 | Sent again straight after, a settlement that took money is approved if and only if the wallet had held twice the amount and the day has room for it once more |
| `CardLedger.RetryRepairsExactly` | services/cards/src/services/cardService.js:111-138 | A retry straight after a lost answer writes the missing row if and only if the wallet had held twice the amount and the day has room; otherwise it changes nothing |
| `CardLedger.LaterRetryRepairsExactly` | services/cards/src/services/cardService.js:111-138 | A retry of a charge without a row, sent at any later time, writes the row if and only if it is approved then, changes nothing otherwise, and never charges again |
| `Witnesses.LostChargeNotRepaired` | services/cards/src/services/cardService.js:116-138 | With 100 in the wallet, 60 taken and the answer lost, the retry changes nothing |
| `CardRuns.OverlapExceedsExactly` | services/cards/src/services/cardService.js:116-126 | Any number of settlements all approved on one reading, then charged and written one after another, pass the daily limit exactly when what was spent plus all their amounts does |
| `Witnesses.OverlapPassesLimit` | services/cards/src/services/cardService.js:116-126 | Two settlements of 60 approved on one reading both go through on a day limited to 100 |
| `CardService.CardDesk.SumToday` | services/cards/src/services/cardService.js:70-78 | Adds up the card's rows since midnight |
| `CardService.CardDesk.Authorize` | services/cards/src/services/cardService.js:87-109 | Returns the specified decision, checks in order |
| `CardService.CardDesk.Settle` | services/cards/src/services/cardService.js:116-138 | Checks again, charges, and writes the row once, as specified |
| `CardService.CardDesk.FreezeCard` | services/cards/src/services/cardService.js:46-52 | Freezes any card that is not closed |
| `CardService.CardDesk.UnfreezeCard` | services/cards/src/services/cardService.js:54-60 | Unfreezes exactly frozen cards |
| `CardService.CardDesk.CloseCard` | services/cards/src/services/cardService.js:62-68 | Closes exactly cards not yet closed |
| `Nuban.OneCheckDigit` | services/payments/src/providers/selfIssuedNuban.js:18-25 | For any length and weights exactly one digit makes the weighted sum a multiple of ten, and it is the computed one |
| `Nuban.CheckDigitFormula` | services/payments/src/providers/selfIssuedNuban.js:11-25 | The check digit is what the digits weighted 3, 7, 3 in turn lack to a multiple of ten |
| `Nuban.WorkedExample` | services/payments/src/providers/selfIssuedNuban.js:6-10 | Bank 011 and serial 000000022 give 0000000220 |
| `Nuban.SingleChangeDetected` | services/payments/src/providers/selfIssuedNuban.js:11-25 | Under weights coprime to ten every change of a single digit is noticed |
| `Nuban.SwapMissedExactly` | services/payments/src/providers/selfIssuedNuban.js:11-25 | At any length, under weights of three and seven, a swap of neighbours is missed exactly when both have one weight or the digits are equal or differ by five |
| `Nuban.IssuedExactly` | services/payments/src/providers/selfIssuedNuban.js:68-80 | A number is issued exactly for a three-digit bank code and nine-digit serial, and is the one ten-digit extension of the serial that checks |
| `Nuban.RefusedExactly` | services/payments/src/providers/selfIssuedNuban.js:19-20 | Which malformed input each refusal is for |

## Left out

- Postgres itself: each transaction is one atomic step, unique indexes hold, and the serialization retry loop, row-level security and triggers are taken as given.
- Width of amounts: Go's int64 and JavaScript's numbers are modelled as unbounded integers, so overflow is not modelled.
- Entry fields that are carried and never read: initiator, metadata, transaction timestamps; an account's own currency column, which nothing compares with an entry's.
- Ledger.LedgerStore.OpenAccount: account numbers drawn at random and the retry on a clash are not modelled; the number is a parameter and a taken one is refused.
- Provision.PostLoanProvision: the entry's description omits the bucket label and the date.
- Wallet.OperationIsRun: resolving accounts and posting are one step here and two transactions in the services; `Wallet.ResolutionStable` is why that makes no difference.
- LoanRuns.LoanAccount: an interest pass lists a loan and reads its balance in one step, and a provisioning pass reads the balance in the step that posts; each is two calls in the service.
- Loan.DaysPastDue: the source divides floating-point hours (loan.go:73), which far past maturity can round up a nanosecond before a whole day; the model's days are exact.
- TenantPasses.TenantPassPays: for a day not yet accrued and accounts in use as seeded, so that no posting of the pass is refused or lost; the same holds for `TenantPasses.TenantPassSystem`. `Accrual.RerunIsNoOp` is the day already accrued.
- LoanRuns.LoanAccount and `LoanRuns.LoanLife`: posts by others that name the loan (manual adjustments) are not part of the equation; `LoanClosing.NoReadingIsSafe` says what one of them can do.
- Cards.LimitsHold and the lemmas of `CardLedger`: each settlement runs whole; `CardRuns` interleaves its steps. Within the authorising step the card, the day's sum and the wallet are read at once.
- A loan row without a customer: paying it out is modelled as a missing customer account, after the status has changed.
- Screening.NormalizeNormalizes: lower-casing and canonical decomposition are done by the runtime's libraries; names are taken after them.
- Screening rules for transactions, delinquency flags and case review: single comparisons.
- Checkout.CompletionSafe: reading the session back after claiming it is merged with the claim, since the columns it uses never change; creating sessions and verifying signatures are not modelled.
- Inbound settlement: it posts a deposit under its own key, which is the checkout case without the race; here inbound attempts only occupy references.
- Settlement.HandlerIsSchedule: looking an attempt up and creating it are one step, which the unique index on provider and reference makes them.
- Reconciliation.SettledInTime: passes run to their end and without interleaving; an error looking up the provider or updating a row aborts the rest of a pass (`Reconciliation.CutShortPointwise`), and a payout behind one that always errs so is not settled in time. The settings are the same for every pass.
- Bills payments and their reconciliation, which repeat settlement with no harder property.
- Outbox.QueueSafe: rests on the serialization retry loop being left out, since outbox.go:136-157 appends claimed rows to a slice declared outside the closure that is rerun, and a rerun could put rows in it twice.
- Outbox.DeliveredFinalExactly: deliveries not heard of are the merchant queue's; the ledger's own consumer only logs such an error and lets go of the row.
- Outbox.Claimable: a delivery's content and its webhook call are reduced to the result; a merchant row's next_attempt_at is always the time of its last failure, and rows not yet due are among those passed over.
- Usage.RecordedIsLogged: the rollup's two statements are one step, and no API key is ever deleted.
- GatewayService.Gateway.GetUsage: keys are reported as a map, so their order by total is not modelled; labels and tiers are left out.
- RateLimit.MinuteAdmits: tiers, sessions and token checks come before the counter and are not modelled.
- Cards.LimitsHold: issuing, freezing and closing leave out the card provider's own calls.
- Nuban.IssuedExactly: the serial is a parameter, since the service derives it by a hash.
- Staff approvals, policies, tenant provisioning, chart seeding, credentials, encryption, the HTTP layer and the consoles.
