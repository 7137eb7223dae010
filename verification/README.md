# Verified model of the trading engine, the CREON gateway and their ledgers

The repository stages, approves and submits stock orders, follows them at a broker, keeps a paper
positions table, and talks to CREON through a gateway process. This project models its core in
Dafny and proves what holds after any run. `dafny verify dfyconfig.toml` checks all of it.

## How the files follow the program

| file | what it models |
|---|---|
| `OrderStatuses.dfy` | the lifecycle table and the reading of a broker's status word |
| `Tables.dfy` | the rows: `Order`, `Position` and `Database` are objects that methods update in place; `Store` is the contents of all tables as a value |
| `OrderLifecycle.dfy`, `TradingEngine.dfy` | the methods of `order_lifecycle.py` and of `TradingEngine` on those objects |
| `OrderMachine.dfy`, `EngineSpec.dfy` | what they do, as functions: on one order, on all tables, and over runs of requests |
| `EngineService.dfy` | sequences of engine calls on the objects, which end in the tables that the run functions give |
| `RequestEffects.dfy` | each request written out in the columns of the tables: who may make it, when it acts, what it leaves |
| `EngineRuns.dfy`, `Approvals.dfy` | what holds after every run, for every broker |
| `PaperLedger.dfy`, `PaperLedgerFacts.dfy`, `PaperRuns.dfy`, `PaperPositions.dfy` | the paper positions as a fold of fills, and what the folded quantity and average are |
| `PaperCounterexamples.dfy` | runs after which orders and positions disagree |
| `TradingSafety.dfy`, `Risk.dfy` | settings, caps and the risk gate |
| `CreonOrders.dfy`, `OrderNumbers.dfy` | paged order history, its fold into one status, order numbers |
| `CreonCancel.dfy`, `CancelEffects.dfy`, `ComLock.dfy` | the check, cancel, re-read protocol, every way it can go, alone and interleaved with other requests under the COM lock |
| `Composition.dfy`, `EndToEnd.dfy` | gateway and engine together, first over the facts that the gateway extracts, then over CREON's own rows |
| `Reconciliation.dfy` | the comparison with the broker's account |
| `PasswordText.dfy` | the stored password text |
| `PyText.dfy`, `Wrappers.dfy` | Python's text and list operations |

A broker is an arbitrary environment: each call raises, or answers with any status word and any
optional id. The same holds for quotes, for the planner's decision and for everything the COM
objects answer; all of these are parameters, so each theorem ranges over all of them. A request to
the engine is an `Op`, a run is a sequence of them by any users on any orders. Each engine method
is proved to change the tables exactly as its `Op` does, and the theorems are about runs of `Op`s.

## Where the code does not do what one may expect

The model follows the code, and each case has a theorem that says when it matters.

- A cancel that the broker answers with FILLED makes the order FILLED but books no position
  (`trading_engine.py:290-312`). `PaperCounterexamples.LateFillLosesPosition` is such a run. It
  needs a broker other than `PaperBroker`, which fills at once and answers every cancel with
  CANCELED and is the only one that `factory.py` builds in paper mode.
- A decision's limit price may have more than two decimals. An automatic order is priced, sent and
  booked at that price in the transaction that creates it (`trading_engine.py:379-401`, `:509`),
  and the commit then stores it rounded (`models.py:102`). So the orders table may show a price at
  which the fill would have booked another row: `PaperCounterexamples.RoundingSplitsLedger` is such
  a run with `PaperBroker` itself, and `PaperLedgerFacts.RoundingShowsExactly` says for which prices
  and positions it happens. Apart from late fills, positions always agree with the prices at which
  fills were booked.
- `PaperRuns.StepKeepsLedgerExactly` says that these two are the only ways in which a request makes
  orders and positions disagree.
- A first SELL on a symbol without a row leaves a negative quantity
  (`trading_engine.py:515-526`); the clamp at 0 works from the second fill on
  (`PaperLedgerFacts.QuantityIsPlainTotalExactly`).
- A position cap of 0 is replaced by the system cap (`risk.py:26`), so a tighter setting can loosen
  the gate. `Risk.MonotoneExactly` says exactly for which pairs of settings.
- The risk gate replaces a limit price of 0 by the snapshot's price, the approval check does not
  (`risk.py:23`, `trading_engine.py:435-438`); a market order is checked again at a new quote. So
  an automatically executed order without a limit price can still be rejected
  (`Approvals.AutoExecutedIsSubmittedExactly`).

## Model

| member | source | states |
|---|---|---|
| OrderStatuses.NormalizeBrokerStatus | backend/app/services/trading_engine.py:474-486 | every status word a broker may return becomes a status that the table allows after SUBMITTING, and never PENDING_APPROVAL, APPROVED or SUBMITTING |
| OrderStatuses.WordReadsBack | backend/app/services/trading_engine.py:474-486 | the plain word for each of the five broker statuses reads back as that status |
| OrderStatuses.WordsExactly | backend/app/services/trading_engine.py:474-486 | which words, once capitalised, stand for which status; every other word is a failed submission |
| OrderStatuses.TableByTarget | backend/app/services/order_lifecycle.py:36-59 | for each status, from exactly which others the table lets an order reach it |
| OrderStatuses.SetsFollowTable | backend/app/services/order_lifecycle.py:26-34 | a status is terminal exactly when it has no successors, approvable exactly when the table leads from it to APPROVED, and cancelable when it leads to CANCELED, except while submitting |
| OrderLifecycle.TransitionOrder | backend/app/services/order_lifecycle.py:74-107 | a transition that the table allows moves the row, sets its stamp and appends one event from the old to the new status; one that it does not allow changes nothing |
| OrderLifecycle.StampStatusTime | backend/app/services/order_lifecycle.py:159-171 | only the stamp of the reached status is set, and it stays set |
| OrderLifecycle.RecordOrderEvent | backend/app/services/order_lifecycle.py:110-129 | one event from the current status to itself is appended and no row changes |
| OrderLifecycle.AddOrder | backend/app/services/order_lifecycle.py:132-156 | a new order is PENDING_APPROVAL with no attempts or stamps, and its first event has no previous status |
| OrderMachine.Perform | backend/app/services/order_lifecycle.py:85-86 | the invalid-transition error is unreachable from every engine method, from every status, for every status word and exception of the broker |
| OrderMachine.SubmitWork | backend/app/services/trading_engine.py:187-237 | a submission is three events APPROVED, SUBMITTING, result, one broker call and one more attempt, and it ends in SUBMISSION_FAILED exactly when the call failed |
| OrderMachine.PerformKeepsLife | backend/app/services/trading_engine.py:144-377 | every method keeps an order's row, event log and call log in agreement (rest states, stamps, chain, counts, accepted calls) |
| TradingEngine.Engine.GetUserOrder | backend/app/services/trading_engine.py:403-409 | an order is found exactly when it exists and belongs to the user |
| TradingEngine.Engine.OrderSafetyReasons | backend/app/services/trading_engine.py:440-451 | a reason is given exactly when the notional exceeds the smaller cap or, in the live modes, a live gate is closed |
| OrderLifecycle.SettleTerms | backend/app/models.py:102 | what a commit leaves of a new order: its limit price rounded to hundredths and nothing else changed |
| TradingEngine.Engine.CreateManualOrder | backend/app/services/trading_engine.py:120-142 | the tables change as the staging step says, for any limit price, and an added row object is new |
| TradingEngine.Engine.PreviewOrderApproval | backend/app/services/trading_engine.py:144-155 | the tables change as the preview step says, and not at all for a foreign order or a failing quote |
| TradingEngine.Engine.ApproveOrder | backend/app/services/trading_engine.py:157-244 | the tables and the broker calls change as the approval step says, over confirmation, safety check, submission, failure and paper fill; an added position object is new |
| TradingEngine.Engine.CancelOrder | backend/app/services/trading_engine.py:246-314 | the tables change as the cancel step says, locally or by the broker's answer |
| TradingEngine.Engine.RefreshOrderStatus | backend/app/services/trading_engine.py:316-377 | the tables change as the refresh step says, with the paper fill booked once; an added position object is new |
| TradingEngine.Engine.RunDecision | backend/app/services/trading_engine.py:63-118 | the tables change as the decision step says, for any limit price, with nothing kept when the execution raises, the reported risk status the gate's verdict, and added row objects new |
| EngineService.Serve | backend/app/api/routes.py:183-351 | one request served by an engine for its user leaves the tables and the reply of its step |
| EngineService.ServeAll | backend/app/api/routes.py:183-351 | any sequence of engine calls on the database ends in exactly the tables of the run, so the theorems on runs hold of the objects |
| EngineRuns.StepFollowsPlan | backend/app/services/trading_engine.py:63-377 | every request stages at most one new order and runs at most one method on one order; all other tables stay |
| EngineRuns.StepKeepsInv | backend/app/services/trading_engine.py:63-377 | every request by anyone keeps every order's life sound, every log entry attached to an order and all settings within the system limits |
| EngineRuns.EveryOrderLivesSoundly | backend/app/services/order_lifecycle.py:74-171 | after any run an order's events chain from no status through table steps to its status, its attempts are its submit-started events and its `place_order` calls, its final stamps agree with its status and every stamp with the statuses that its events reached, it is at rest, every call but the last failed, and it made at most 3 * attempts + 2 real changes |
| EngineRuns.NoSecondSubmission | backend/app/services/trading_engine.py:157-231 | once `place_order` was answered with anything but a failed submission, no later run calls it again for that order |
| EngineRuns.TerminalIsFinal | backend/app/services/trading_engine.py:144-155 | a FILLED, REJECTED or CANCELED order keeps its row and calls through any run, and only preview events are added |
| EngineRuns.RunStoresPrices | backend/app/models.py:102 | after any run every stored limit price is in whole hundredths, whatever prices requests and decisions name |
| EngineRuns.EveryCallIsGuarded | backend/app/services/trading_engine.py:162-185 | every `place_order` call of any run was made by a request that confirmed that order, within the smaller order cap at the approval price, and in the live modes with both live gates open at that moment |
| RequestEffects.SwitchedOffOnlyPeopleCall | backend/app/services/trading_engine.py:102-118 | with automatic execution off, every `place_order` call of any run was made by a person's approval that had to make it, with the order's own terms |
| RequestEffects.SwitchedOffNoAutomaticOrders | backend/app/services/trading_engine.py:102-108 | with automatic execution off, no run creates an order from a decision |
| RequestEffects.CallsExactly | backend/app/services/trading_engine.py:157-231 | a request calls the broker if and only if it is an approval that must submit or a decision that must be placed |
| RequestEffects.ApprovalCallsExactly | backend/app/services/trading_engine.py:157-231 | an approval calls `place_order`, once and with the order's terms, exactly when the order is the user's own, is PENDING_APPROVAL or SUBMISSION_FAILED, the text is its confirmation, it has a price, that price keeps it within both order caps, and the live switches are on in the live modes |
| RequestEffects.ApprovalRefused | backend/app/services/trading_engine.py:157-172 | an approval of an order in any other status, or without a price, leaves all tables as they were |
| RequestEffects.WrongTextEffect | backend/app/services/trading_engine.py:162-173 | a wrong text leaves the order as it was, with one event, and raises the mismatch |
| RequestEffects.UnsafeEffect | backend/app/services/trading_engine.py:174-185 | a confirmed order that is not safe ends REJECTED with its stamp and one event, and the broker is not called |
| RequestEffects.SubmissionEffect | backend/app/services/trading_engine.py:187-244 | the row, events, call, paper position and settings row that a submission leaves, column by column, for every answer of the broker |
| RequestEffects.LocalCancelEffect | backend/app/services/trading_engine.py:251-262 | a cancel of a PENDING_APPROVAL, APPROVED or SUBMISSION_FAILED order, or of an open one without a broker id, leaves it CANCELED with its stamp, whatever the broker would answer |
| RequestEffects.BrokerCancelEffect | backend/app/services/trading_engine.py:275-312 | a cancel of an open order with a broker id leaves the reported status if the table allows it, else the old one, and never books a position |
| RequestEffects.CancelRefused | backend/app/services/trading_engine.py:248-249 | a cancel of a terminal order, or of one that is being submitted, changes nothing |
| RequestEffects.LocalRefreshEffect | backend/app/services/trading_engine.py:314-329 | a refresh changes nothing on a terminal order, and only adds an event on one without a broker id |
| RequestEffects.BrokerRefreshEffect | backend/app/services/trading_engine.py:331-377 | a refresh leaves the reported status if the table allows it, else the old one, and in paper mode books the order exactly when it becomes FILLED |
| RequestEffects.ManualOrderEffect | backend/app/services/trading_engine.py:120-142 | a manual order has the requested side, quantity, type and capitalised symbol, its price rounded, and waits for approval |
| RequestEffects.PreviewEffect | backend/app/services/trading_engine.py:144-155 | a preview adds one event and the user's settings row, and changes nothing if there is no price |
| RequestEffects.ForeignOrderIsNotFound | backend/app/services/trading_engine.py:403-409 | no request reaches a missing order or another user's |
| RequestEffects.DecisionWithoutOrder | backend/app/services/trading_engine.py:63-108 | a decision leaves nothing but the user's settings row when the switch is off, the gate does not approve, or it does not trade |
| RequestEffects.DecisionRolledBack | backend/app/services/trading_engine.py:102-118 | a decision that executes but cannot create or price its order leaves nothing at all |
| RequestEffects.PlacementEffect | backend/app/services/trading_engine.py:379-401 | the order, events, call and paper position that an executed decision leaves, with the decided side, quantity, type and symbol, sent at the unrounded and stored at the rounded price |
| RequestEffects.UnsafeDecisionEffect | backend/app/services/trading_engine.py:379-401 | an executed decision that is not safe leaves a REJECTED order and no call |
| RequestEffects.DecisionCallsExactly | backend/app/services/trading_engine.py:102-118 | a decision calls `place_order`, once and with the decided terms, exactly when the switch is on, the gate approves a trade, the id is new, and the order is priced and safe |
| Approvals.ConfirmationNamesOneOrder | backend/app/services/trading_engine.py:453-454 | one confirmation text approves at most one order id, and the engine's own text approves its order |
| Approvals.AutoExecutedIsSubmittedExactly | backend/app/services/trading_engine.py:379-451 | an automatically executed decision makes exactly one `place_order` call with the decided terms if its unrounded approval price keeps it within the effective order cap, and none otherwise |
| Approvals.AutoExecutedLimitOrderIsSubmitted | backend/app/services/trading_engine.py:435-451 | an automatically executed decision with any limit price always reaches `place_order`: the approval safety check never rejects it |
| TradingSafety.AcceptedRowsAreEffective | backend/app/services/trading_safety.py:95-115 | a settings row passes the update checks exactly when each effective setting equals the stored one |
| RequestEffects.EffectiveSettingsExactly | backend/app/services/trading_safety.py:95-115 | the order cap, position cap, confidence floor and live gate in force are the strictest of the user's, the system's and, for positions, the requested one |
| RequestEffects.SettingsInForce | backend/app/services/trading_safety.py:27-46 | a user without a row has the system's caps, manual approval on and no live opt-in |
| RequestEffects.SettingsChange | backend/app/services/trading_safety.py:49-67 | a settings request stores its payload exactly when it is within the system limits, and otherwise changes nothing |
| TradingSafety.GetOrCreate | backend/app/services/trading_safety.py:27-46 | the existing row is returned unchanged, or a default row with manual approval and no live opt-in is inserted |
| TradingSafety.Update | backend/app/services/trading_safety.py:49-67 | the row is replaced by the payload exactly when it is within the system limits, else nothing is assigned |
| Risk.RejectReasons | backend/app/services/risk.py:36-52 | exactly the rejecting rules that apply are listed |
| Risk.Evaluate | backend/app/services/risk.py:21-63 | the status is REJECTED, NEEDS_APPROVAL or APPROVED by the rules that apply, and the reasons are exactly those rules |
| Risk.VerdictExactly | backend/app/services/risk.py:21-63 | the verdict on every decision, over the user's and the system's own settings: which quantity, confidence, notional and live switches reject, and what asks for approval |
| Risk.TighteningIsMonotone | backend/app/services/risk.py:21-63 | tightening any user setting never moves any decision towards APPROVED, unless a position cap of 0 opens |
| Risk.ZeroCapLoosens | backend/app/services/risk.py:26 | where it opens, there is an order that the looser settings reject and the tighter ones let through |
| Risk.MonotoneExactly | backend/app/services/risk.py:21-63 | the gate is monotone for a pair of settings rows if and only if the zero cap does not open |
| PaperLedger.UpsertPaperPosition | backend/app/services/trading_engine.py:508-543 | the positions table gets the booked row of this user and symbol and no other change |
| PaperLedger.UpdatePosition | backend/app/services/trading_engine.py:528-543 | the row object ends as the booked row in every branch |
| PaperLedgerFacts.FirstFillEffect | backend/app/services/trading_engine.py:515-526 | a first fill opens the row with the order's quantity, negative for a sale, at its rounded price |
| PaperLedgerFacts.SaleEffect | backend/app/services/trading_engine.py:528-537 | a sale on an existing row leaves its quantity less the order's, or 0 if that would be negative, and the old average |
| PaperLedgerFacts.PurchaseEffect | backend/app/services/trading_engine.py:528-543 | a purchase on an existing row adds the order's quantity and blends the average, unless the row was short by as much |
| PaperLedgerFacts.RoundingShowsExactly | backend/app/services/trading_engine.py:508-543 | booking an order at its limit price and at its stored limit price gives different rows if and only if the price is above 0 and below half a hundredth, or a purchase is blended to averages in different hundredths |
| PaperRuns.StepKeepsLedgerExactly | backend/app/services/trading_engine.py:239-312 | in paper mode one request keeps every position equal to the fold of its fills if and only if it is not a cancel answered FILLED, or that fill would change nothing; for the prices that the orders table shows it must also not be an automatic fill whose unrounded price shows in the row |
| PaperRuns.LedgerIsFoldOfFills | backend/app/services/trading_engine.py:239-240 | after any paper run whose cancels are never answered FILLED, every position row is the fold of the fills of its user and symbol in fill order at the prices they were booked at, each filled order counted once and no other; with decisions in whole hundredths these are the stored prices |
| PaperRuns.PaperBrokerKeepsLedger | backend/app/broker/paper.py:56-62 | the paper broker's cancel answers meet the condition on cancels |
| PaperRuns.LateFillBooksNothing | backend/app/services/trading_engine.py:290-312 | a cancel answered FILLED leaves the order FILLED and the positions as they were |
| PaperCounterexamples.LateFillLosesPosition | backend/app/services/trading_engine.py:290-312 | a concrete three-request run, with a broker that answers a cancel with FILLED, after which a FILLED paper order has no position row |
| PaperCounterexamples.RoundingSplitsLedger | backend/app/services/trading_engine.py:379-401 | a concrete two-request run with the paper broker's answers after which the position was booked at 0.004 and the orders table shows 0.00, which as a fill means 1.00 |
| PaperCounterexamples.BlendShowsRounding | backend/app/services/trading_engine.py:539-543 | a purchase at 10.005 on top of one share at 10.00 stores an average that the stored price 10.01 would not give |
| PaperRuns.LiveModesNeverBook | backend/app/services/trading_engine.py:239-240 | in the live modes no run writes a position |
| PaperRuns.OnlyOwnPositions | backend/app/services/trading_engine.py:512-514 | a request leaves every position of every other user as it was |
| PaperPositions.OthersNeverTouchPositions | backend/app/services/trading_engine.py:512-514 | a user's positions stay as they are through any run of other users' requests |
| PaperPositions.StoredQuantityIsClampedTotal | backend/app/services/trading_engine.py:515-543 | after any such paper run, at any prices, a row exists exactly where an order of that user and symbol was filled; one order leaves its own signed quantity, and from the second on the row holds what the filled orders bought less what they sold, clamped at 0 |
| PaperPositions.StoredAverageIsNearCost | backend/app/models.py:143-155 | after any such paper run, at any prices, a held position opened by a BUY stores an average within 0.005 per BUY since last flat of the exact cost per share, and between the rounded lowest and highest of those BUY prices; in whole hundredths the first BUY does not count and the bounds are the prices themselves |
| PaperLedgerFacts.QuantityIsClampedTotal | backend/app/services/trading_engine.py:515-543 | the quantity after n >= 2 fills is the largest of S_n and S_n - S_k, 2 <= k <= n, with S_k the running totals |
| PaperLedgerFacts.QuantityIsPlainTotalExactly | backend/app/services/trading_engine.py:528-532 | from the second fill on the quantity is not negative, and equals the plain sum if and only if no running total from the second on is negative |
| PaperLedgerFacts.AverageIsBetweenBuyPrices | backend/app/services/trading_engine.py:534-543 | while shares are held, the stored average lies between the lowest and the highest BUY price since last flat, both rounded as the column rounds, and between the prices themselves if they are whole hundredths |
| PaperLedgerFacts.AverageDrift | backend/app/services/trading_engine.py:539-543 | rounding on storage keeps the average within 0.005 per BUY since last flat of the exact cost-weighted average, over any mix of BUYs and SELLs at any prices; in whole hundredths the first BUY does not count |
| PaperLedgerFacts.ExactAverageAfterBuy | backend/app/services/trading_engine.py:539-542 | without rounding, adding a BUY's cost to the position's cost gives the average of the code's formula |
| PaperLedgerFacts.ExactAverageAfterSell | backend/app/services/trading_engine.py:534-537 | without rounding, a SELL that leaves shares takes its share of the cost and keeps the average |
| CreonOrders.FetchOrderRecords | gateway/creon_client.py:370-400 | the loop returns all rows of a history that ends within 50 pages, the error of the first failing page, or the page-limit error, after exactly the pages it had to request |
| CreonOrders.ReadFromIsReading | gateway/creon_client.py:378-400 | the result is the one that the pages determine: all rows up to the first page that does not continue, or an error, never a part of them |
| CreonOrders.ReadingOfSplit | gateway/creon_client.py:378-400 | rows spread over up to 50 pages are all returned however they are split; over more pages the reading is the page-limit error |
| CreonOrders.StatusMeaning | gateway/creon_client.py:439-500 | FILLED, REJECTED, CANCELED, PARTIALLY_FILLED and SUBMITTED and the filled quantity each hold exactly under a condition on the set of rows, with nothing remaining once terminal |
| CreonOrders.RemainingMeaning | gateway/creon_client.py:489-494 | the remainder of an open order is the largest cancelable quantity that its rows state, or, if they state none, the rest of the largest ordered quantity |
| CreonOrders.CancelRecordExactly | gateway/creon_client.py:552-559 | a row is a cancel row exactly when its code is 3 or its text holds "cancel", each letter small or capital, or the Korean word |
| CreonOrders.StatusSeesOnlyRelatedRows | gateway/creon_client.py:439-500 | row order, repeated rows and rows about other orders change neither the status nor the quantities nor the error |
| CreonOrders.StatusIgnoresPages | gateway/creon_client.py:378-500 | any two splits of the same related rows over at most 50 pages give the same answer |
| CreonOrders.StatusNeedsWholeHistory | gateway/creon_client.py:394-443 | which pages give a status and which an error, page by page: a status exactly when the history ends within 50 readable pages with a row of the order and a positive quantity; a longer history and an absent order are errors of their own |
| OrderNumbers.IdMeetsRowExactly | gateway/creon_client.py:773-790 | a requested id matches a row's order number if and only if both denote the same positive number |
| OrderNumbers.IdRefusedExactly | gateway/creon_client.py:773-781 | an id is refused exactly when its stripped text is not all digits or denotes no positive number |
| OrderNumbers.RowNumberExactly | gateway/creon_client.py:783-790 | which values of a row field are an order number, which are none and which are an error |
| OrderNumbers.NormalizedIsCanonical | gateway/creon_client.py:773-790 | normalising an accepted id is idempotent, agrees with the row normaliser, and `int` of the result is the number asked for |
| CreonCancel.ComWorker.ReadStatus | gateway/creon_client.py:307-313 | one reading appends its page exchanges to the log and answers the fold of what it read |
| CreonCancel.ComWorker.CancelOrderOnce | gateway/creon_client.py:304-361 | the exchanges and the answer are those of the protocol, the lock is as before on every way out, and a busy worker does nothing |
| CreonCancel.ComWorker.CancelOrder | gateway/creon_client.py:184-186 | an id that does not normalise is the invalid-id error without any exchange; else the call is that of the protocol for the normalised id |
| CreonCancel.CancelIsGuarded | gateway/creon_client.py:304-361 | a call sends at most one cancel request, exactly when the session opens and the history just read shows the order open with a positive remainder, and an answered status is the fold of the history read last |
| CreonCancel.CancelNamesTheOrder | gateway/creon_client.py:531-537 | a request is only sent for the number that the caller named |
| CreonCancel.CancelAnswer | gateway/creon_client.py:304-361 | an answered cancel is the fold of the history after the request if one was sent, and of the one before otherwise |
| CancelEffects.AcceptedCancel | gateway/creon_client.py:333-361 | a request that CREON accepts with a readable number is followed by a second reading of the history, whose status is the answer |
| CancelEffects.RefusedCancel | gateway/creon_client.py:542-548 | a request that CREON refuses is answered with the cancel-rejected error and nothing is read after it |
| CancelEffects.BrokenCancel | gateway/creon_client.py:531-550 | a request that raises, or whose number cannot be read, is answered with the general error and nothing is read after it |
| CancelEffects.NothingToCancel | gateway/creon_client.py:313-332 | an order that the history does not show open with something left is answered as it is, or with the error of its reading, and no request is sent |
| CancelEffects.SessionFails | gateway/creon_client.py:304-312 | a missing library, a failing login and a raising login each have their own error, and the apartment is closed before any reading |
| CancelEffects.PrimaryIsFirst | gateway/creon_client.py:519-529 | the symbol of a request is that of the first row with the order's own number |
| ComLock.NoInterference | gateway/creon_client.py:204-215 | in every interleaving of requests of any kind the exchanges of each are one uninterrupted block in its own order |
| ComLock.LockIsHeldExactlyInside | gateway/creon_client.py:204-215 | the lock is held by exactly the one request that is inside, and is free whenever none is |
| ComLock.BusyExactlyBehindAnother | gateway/creon_client.py:204-215 | a waiting request can be turned away as busy exactly while another one is inside |
| ComLock.BusyNeedsAnother | gateway/creon_client.py:204-215 | a request that was turned away came after another one took the lock, so one that is alone never is |
| ComLock.StuckExactlyWhenAllEnded | gateway/creon_client.py:204-215 | as long as a request has not returned, raised or timed out, some request can go on; when all have, the lock is free |
| ComLock.TurnsAreBounded | gateway/creon_client.py:204-215 | no run of requests goes on for ever: its turns are at most two per request and one per exchange |
| ComLock.EveryRequestCanEnd | gateway/creon_client.py:204-215 | from every reachable moment all requests can be brought to their ends, with the lock free |
| ComLock.CancelIsUndisturbed | gateway/creon_client.py:304-361 | in every interleaving with requests of any kind, a cancel request in the common log lies inside its own call's uninterrupted block and directly follows that call's reading of the open order |
| Composition.ForwardIsTableStep | gateway/creon_client.py:474-500 | when fills never fall, rejections and cancels persist and terminal facts freeze, a later gateway status is a lifecycle-table step from an earlier one |
| Composition.LaterStatusIsTableStep | gateway/creon_client.py:439-500 | the same for the answers to two row lists, with fills that never fall and terminal answers that stay whole |
| Composition.StoredStatusIsLastRead | backend/app/services/trading_engine.py:290-377 | through any run by anyone, as long as the order's broker history moves forward, its stored status is the last one read |
| Composition.FallbackIsNeverTaken | backend/app/services/trading_engine.py:349-351 | then the branch that keeps the old status is never taken |
| Composition.PlacedOrderFollowsGateway | backend/app/services/trading_engine.py:205-237 | an order placed by an approval or by an automatic decision and accepted by the gateway shows the last status read, from its placement on |
| EndToEnd.PollIsAnsweredFrom | backend/app/broker/creon_gateway.py:69-95 | a refresh or a cancel answered through the gateway raises or carries the status of CREON's rows at that moment, whatever pages, order, repetition and other rows they come with, and whether or not a cancel request was sent |
| EndToEnd.StoredStatusIsCreonStatus | gateway/creon_client.py:180-186 | an order placed by an approval or an automatic decision and then polled through the gateway, among any other requests, has the status of CREON's rows at the moment of the last answered poll, as long as those rows move forward |
| Reconciliation.RowsAreSortedOuterJoin | backend/app/services/account_reconciliation.py:102-111 | the rows are strictly sorted and there is exactly one for each symbol held on either side |
| Reconciliation.RowsAreRight | backend/app/services/account_reconciliation.py:126-166 | each row's quantities, values (quantity times price) and status are those of the two sides |
| Reconciliation.AllMatchedExactly | backend/app/services/account_reconciliation.py:102-166 | all rows are MATCHED if and only if both sides hold the same quantities of the same symbols |
| Reconciliation.RowsKeepTotalValue | backend/app/services/account_reconciliation.py:126-166 | the rows' application values add up to quantity times price over the application's positions |
| Reconciliation.UnavailableKeepsRows | backend/app/services/account_reconciliation.py:70-93 | without a snapshot there is one BROKER_UNAVAILABLE row per application position, in order, with its quantity and value and nothing of the broker's; the total value is the same |
| Reconciliation.ResponseExactly | backend/app/services/account_reconciliation.py:26-59 | the status says paper ledger, synced or unavailable by mode and snapshot, and which two sides were compared |
| Reconciliation.LastOneStays | backend/app/services/account_reconciliation.py:102-105 | of several positions in one symbol the last one that is not 0 counts |
| Reconciliation.BelowExactly | backend/app/services/account_reconciliation.py:106 | the rows' order is by the first differing character, a proper prefix first |
| Reconciliation.PaperModeAlwaysMatches | backend/app/services/account_reconciliation.py:26-47 | paper mode always gives all MATCHED |
| Reconciliation.LiveModesMatchExactly | backend/app/services/account_reconciliation.py:26-59 | in the live modes all rows match if and only if the broker reports exactly the quantities of the user's positions table |
| PasswordText.PaddingIsRestored | backend/app/core/auth.py:219-225 | stripping the padding and restoring it from the length is the identity on every encoded byte string |
| PasswordText.DecodeUndoesEncode | backend/app/core/auth.py:219-225 | decoding undoes encoding for every byte string |
| PasswordText.QuadIsNumber | backend/app/core/auth.py:219-220 | three bytes become the four sextets of their 24 bits, most significant first |
| PasswordText.LettersAreTheTable | backend/app/core/auth.py:219-220 | the letters are those of the base64url table, in its order |
| PasswordText.DecodesExactly | backend/app/core/auth.py:223-225 | which texts without a pad the lenient decoder refuses, by the count of their letters and of all their characters |
| PasswordText.SplitExactly | backend/app/core/auth.py:43-45 | a text splits into four given parts if and only if it is their join and the first three contain no separator |
| PasswordText.HashReadsBack | backend/app/core/auth.py:25-40 | the stored text reads back as the same algorithm, iterations, salt and digest |
| PasswordText.VerifyAcceptsExactly | backend/app/core/auth.py:43-56 | a password is accepted against a stored hash if and only if it derives the same digest with the stored salt and iterations, whatever the current setting; the hashed password always is |
| PasswordText.VerdictExactly | backend/app/core/auth.py:43-56 | the verdict on every text, built by the hash or not: accepted exactly when it is `pbkdf2_sha256$iterations$salt$digest` with a readable number and two decodable fields and the derived digest equals the named one; everything else is refused, unless the derivation raises |

## Left out

- Risk.Evaluate: states which reasons are listed, not their order or their texts.
- PaperLedger.UpsertPaperPosition: the division is exact and rounding happens on storage; the 28 digits of Python's decimal context and the 18 of the columns are not modelled.
- Risk.TighteningIsMonotone: confidence values are reals, not floating-point numbers.
- TradingEngine.Engine.CreateManualOrder: `upper` on the symbol is exact for ASCII symbols only; a symbol outside ASCII may differ.
- OrderNumbers.IdMeetsRowExactly: digits are the ASCII ones; other Unicode digits, floating-point COM values and Python's limit on the length of integer texts are not modelled.
- CreonOrders.FetchOrderRecords: a failing DIB status and a row that does not decode are one error; the fields' own decoding is not modelled.
- CreonCancel.ComWorker.CancelOrderOnce: one worker runs alone here, so a taken lock stays taken until the timeout; waiting for it is in `ComLock`.
- Concurrent requests on one order: the engine takes no row lock, so requests are committed steps that do not overlap.
- Settings rows are values in a map of the database, not objects of their own; sharing one row object between callers is not captured.
- Ids are inputs, and a taken id is an error; the database's own numbering is not modelled.
- Event messages, payloads, raw broker payloads and timestamp values, beyond whether a stamp is set.
- The columns `mode` and `decision_id`, and the tables of agent runs and trade decisions.
- The planner and the language model: a decision is an arbitrary input.
- SQL, sessions and migrations; the order of positions that the database's collation gives.
- The gateway's checks of its platform and configuration before a request takes the lock.
- HTTP routes, cookies, sessions and the user interfaces.
- Quotes and their retry loop, and placing an order at CREON: single calls without a protocol of their own.
- The account snapshot's loop over at most 20 pages (`creon_client.py:591-611`): the same shape as the order history's, and nothing is folded from its rows.
- The key derivation, its hash function and the random salt: a function parameter and an input.
- `broker/creon.py`: it calls a library that is not part of this model.
