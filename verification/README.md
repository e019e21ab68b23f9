# Handly marketplace protocol, modelled and proved in Dafny

A model of the API side of a home-services marketplace: a customer describes a job, gets a quote, and submits it;
masters are offered the job one after the other until one accepts; the job is done, paid and reviewed. Customers,
masters, the expiry queue, the offer cascade, payment webhooks and administrators all write the same rows, and any
of them may die half-way.

`dafny verify dfyconfig.toml` checks everything.

## How it is built

**One order with all that hangs on it is a `Deal`** (`Orders`, `Payments`, `Deals`): the row with every value it has
had, its history, offers, in-flight searches, payments, review and penalties. `Step` is the effect of one atomic step
of any of 24 kinds; `Run` is any interleaving of them. A guarded write may act on any earlier version of the row, so
every delay between a read and its write is covered, and a search is a program counter that any other step may
overtake and a crash may end. `DealInvariants` says what holds always, `DealProofs` that every step keeps it,
`DealTheorems`, `DealEvolution`, `SearchTermination` and `Stalls` what follows for every run, and `Market` puts all
orders together with the counters on the masters' profiles.

**The services are classes that write the rows in place** (`Database`, `OrdersService`, `DispatchService`,
`PaymentsService`, `ReviewsService`; `Profiles` for the counters on the masters' profiles). `OrderTables.Await` stands wherever a call waits for the database: an arbitrary
script of other callers' steps runs there. `Valid()` says that the tables are what the recorded steps make of a sound
beginning, so every theorem about runs holds of them.

**Beside it**: quotes and the split of a payment (`Pricing`), scoring and the weighted pick (`Scoring`), the
eligibility query stage by stage against its specification (`Eligibility`), the Gregorian calendar and the booking
slots (`Calendar`, `Slots`, after section 21.4.1 of ECMA-262), trust scores (`Trust`), referrals (`Referrals`),
refresh sessions (`Sessions`), trials (`Subscriptions`), cursor paging (`Paging`). Four modules drop assumptions made
above: accepting an offer and reviewing a master taken statement by statement (`AcceptRace`, `ReviewRace`), the
pre-submission calls with a delay between read and write (`StaleWizard`), and the searches such submissions start
(`StaleSubmission`).

Every formula is stated twice: as the code computes it, and by what each ingredient is worth, written out in numbers
(`Pricing.QuoteMeetsBand`, `Scoring.ScoreOfEachMerit`, `Trust.FactorsAddUp`, `Calendar.DaysFollowDays`).

## Assumptions

- A database transaction, or a single write, is one atomic step; a read made before it is a separate step.
  `AcceptRace` and `ReviewRace` drop this for the two transactions that do not lock all they read.
- Edit, diagnose and submit write unguarded after an earlier read. Each is taken as one step, as the order wizard
  calls them one after the other: with no delay the delayed calls are these (`StaleWizard.FreshEdit`,
  `StaleWizard.FreshPrice`, `StaleSubmission.FreshSubmission`). `StaleWizard` drops this and says exactly when a delayed
  one is harmless; `StaleSubmission` says it of the whole deal, among all other steps, and what overlapping submissions
  do to the search.
- The classification of a problem, the provider's answer, the clock, random draws, the masters of the world and their
  distances are arbitrary inputs. Settings are legal ones: tax rate in [0, 1], page limit positive.
- Multipliers, scores and averages are exact reals; the structural bounds of a quote hold for arbitrary raw prices.
- Distinct refresh tokens hash distinctly. Creating a user and recording its referral is one step.

## Where the code and its promises part

- The page cursor is the first row not returned, and the next page skips the cursor's row: every (take + 1)-th row is
  never shown (`Paging.PagesOmitEveryNext`).
- As long as no submission is overtaken, the retry on a uniqueness violation and the withdrawal of other offers never
  take effect (`DealTheorems.RetryNeverFires`, `DealTheorems.OffersAreRanked`, `StaleSubmission.OffersAreSafeWhileCallsStand`).
  Two overlapping submissions bring out both: two searches run, and the second insert retries exactly when both picked
  one master; otherwise two offers stand open and an acceptance withdraws one (`StaleSubmission.TwoSubmissionsOverlap`,
  `StaleSubmission.RetryFiresIffSameMaster`, `StaleSubmission.OverlapRetriesOrWithdraws`).
- The settlement by webhook never takes effect (`Payments.WebhookIsNoOp`).
- An order with an address but no coordinates may be submitted, is never offered to anybody, and if it expires does so
  for want of a place (`Stalls.AddressAloneExpires`, `DealTheorems.AddressAloneFindsNobody`,
  `DealTheorems.ExpiredForPlaceIffUnlocated`).
- A process that dies during a search strands the order until its customer cancels; one that dies between the insert of
  an offer and the queueing of its job leaves the order to the parties (`Stalls.OnlyCrashesStall`,
  `Stalls.LostSearchStaysLost`, `Stalls.ForgottenOfferWaits`).
- A submission, pricing or edit overtaken by another write leaves orders without a quote and histories that are no walk
  (`StaleWizard.EditUnderSubmit`, `StaleWizard.DelayIsHarmlessIff`).
- The accepting transaction writes the offer unguarded: an expiry or decline between its read and its write is
  overwritten, and then an open offer or a search is left beside the match
  (`AcceptRace.AnswerIsOverwrittenIffItCameBetween`, `AcceptRace.MatchAtStatementGrain`).
- Reviews are averaged without a lock: of two at the same time, r and s, one may be missing from the stored rating,
  which then is as it should be exactly when r == s (`ReviewRace.TwoReviewsRace`,
  `ReviewRace.RatingCountsAllIffAveragedLast`).
- Revoking all sessions does not stop a refresh already in flight (`Sessions.RevokeAllForcesLoginIffNoneInFlight`).
- Slots of the years 0 to 99 come back a century off (`Slots.SlotRoundTrip`, `Slots.TwoDigitYearsMove`).
- At the very instant a trial ends the service still calls the master premium and the dispatch query no longer does
  (`Subscriptions.QueryAgreesExceptAtTheEnd`).

## Model

| member | source | states |
|---|---|---|
| `DealTheorems.SearchTokenIsConserved` | apps/api/src/modules/dispatch/dispatch.service.ts:38-136 | with accepting and submitting taken as one step each: in every reachable deal, open offers, accepted offers, in-flight searches and searches lost to a crash never exceed one between them; none before submission; exactly one while searching or matched |
| `DealTheorems.OffersAreRanked` | apps/api/src/modules/dispatch/dispatch.service.ts:76-107 | with submitting taken as one step: cascade ranks are exactly 1..n in creation order, no master is offered an order twice, no offer is ever withdrawn |
| `DealTheorems.RetryNeverFires` | apps/api/src/modules/dispatch/dispatch.service.ts:112-120 | with submitting taken as one step: the insert never meets the uniqueness violation its retry branch is for |
| `DealTheorems.MatchIsSafe` | apps/api/src/modules/dispatch/dispatch.service.ts:148-200 | with accepting and submitting taken as one step each: at most one accepted offer ever; the order has a master exactly when there is one and it is that master; no open offer beside a matched, expired or master-cancelled order |
| `DealTheorems.LeftoverOfferNeverMatches` | apps/api/src/modules/orders/orders.service.ts:361-384 | an offer left open by a customer cancellation is never accepted, whatever happens afterwards |
| `DealTheorems.StepFollowsGraph` | apps/api/src/modules/orders/order-state.ts:19-54 | every step keeps the status or takes an edge of the transition table; final rows never change |
| `DealTheorems.FinalStaysFinal` | apps/api/src/modules/orders/order-state.ts:19-54 | a final status ends the order for every run |
| `DealTheorems.HistoryIsAWalk` | apps/api/src/modules/orders/orders.service.ts:361-384 | the status history is a walk from Draft ending at the current status, stale reads notwithstanding, except between the two writes of a failed search; at most five rows follow a submission |
| `DealTheorems.QuotesAreFresh` | apps/api/src/modules/orders/orders.service.ts:253-316 | every order past its draft has a price, but for one cancelled unpriced; wherever there is one, cancelled orders included, it is the quote of both ends of the category's band for the row's own complexity and tier, in multiples of 5 000 from 30 000 up; the final amount of a finished order lies inside it |
| `DealTheorems.PaymentsAreSound` | apps/api/src/modules/payments/payments.service.ts:34-153 | every payment is the final amount split without loss into non-negative fee, tax and net, the tax being the recorded four-decimal rate's share but for half a so'm and the decimals lost; at most one is active; each settles at most once; every webhook is a no-op |
| `DealTheorems.ExpiredMeansNobodyLeft` | apps/api/src/modules/dispatch/dispatch.service.ts:218-243 | an order expires only without a location, or located and after a second-pass query, leaving out exactly the masters already offered, that nobody in the world satisfied |
| `DealTheorems.ExpiredAtExpandedRadius` | apps/api/src/modules/dispatch/dispatch.service.ts:74-93 | under one setting of the expansion factor, that query used it |
| `DealTheorems.ExpiredForPlaceIffUnlocated` | apps/api/src/modules/dispatch/dispatch.service.ts:69-72 | an expired order expired for want of a place exactly when it has no coordinates |
| `DealTheorems.AddressAloneFindsNobody` | apps/api/src/modules/dispatch/dispatch.service.ts:69-72 | an order submitted without coordinates is never offered to anybody and has no master |
| `Stalls.AddressAloneExpires` | apps/api/src/modules/orders/orders.service.ts:325-350 | a reachable run in which an order with an address and no coordinates is submitted and expires for want of a place |
| `DealTheorems.PenaltyLedgerIsExact` | apps/api/src/modules/penalties/penalties.service.ts:24-52 | with accepting taken as one step: per deal and master, penalties written, owed, in flight or lost are as many as the timed-out offers, master cancellations and ratings of at most 2 |
| `DealProofs.StepKeepsInv` | apps/api/src/modules/dispatch/dispatch.service.ts:38-243 | every one of the 24 kinds of step keeps the whole invariant |
| `DealProofs.RunKeepsInv` | apps/api/src/modules/dispatch/dispatch.service.ts:38-243 | so does every run |
| `DealEvolution.RunEvolves` | apps/api/src/modules/payments/payments.service.ts:97-200 | with accepting taken as one step: between any two moments of a run agreed deal, master and final amount stay; answered offers stay answered; inactive payments stay inactive; a succeeded payment stays so or is refunded; history, penalties and review are append-only; a queued job stays queued |
| `DealEvolution.InactiveStaysInactive` | apps/api/src/modules/payments/payments.service.ts:15-16 | a failed or refunded payment never changes status again |
| `DealEvolution.RefundFollowsSuccess` | apps/api/src/modules/payments/payments.service.ts:165-193 | a payment refunded after any step was succeeded, or refunded already, before it |
| `DealEvolution.EveryEdgeCanBeTaken` | apps/api/src/modules/orders/order-state.ts:19-54 | conversely every edge belonging to the customer or the master can be taken at once from every reachable order |
| `DealEvolution.OpenOfferCanBeAccepted` | apps/api/src/modules/dispatch/dispatch.service.ts:148-186 | accepting an open offer assigns the order exactly when it is still searching and the offer has not run out |
| `DealEvolution.NewOfferLastsItsTime` | apps/api/src/modules/dispatch/dispatch.service.ts:95-107 | from every reachable insert on, whatever else happens: while the offer is open, its master's acceptance assigns the order exactly while the order searches and the seconds given to its tier have not run out |
| `SearchTermination.SearchDescends` | apps/api/src/modules/dispatch/dispatch.service.ts:66-136 | every step on a searching order leaves the search alone or brings it strictly closer to its end |
| `SearchTermination.SearchIsBounded` | apps/api/src/modules/dispatch/dispatch.service.ts:66-136 | a whole run touches the search no more often than the distance it covers |
| `SearchTermination.SearchTerminates` | apps/api/src/modules/dispatch/dispatch.service.ts:38-136 | with M masters: at most M offers, at most M + 1 cascades started, and at most 14 M + 11 touches before the order stops searching |
| `SearchTermination.CascadesAreCounted` | apps/api/src/modules/dispatch/dispatch.service.ts:43-59 | while an order searches, the cascades started are as many as the offers answered or run out |
| `Stalls.OnlyCrashesStall` | apps/api/src/modules/dispatch/dispatch.service.ts:100-125 | a searching order stalls exactly when a crash took its search, or came between the insert of its open offer and the queueing of that offer's job |
| `Stalls.LostSearchStaysLost` | apps/api/src/modules/orders/orders.service.ts:351-357 | after the one crash only the customer cancelling ends the search |
| `Stalls.ForgottenOfferWaits` | apps/api/src/modules/dispatch/dispatch.service.ts:121-125 | after the other nothing moves the order but an answer or a cancellation |
| `Stalls.SubmittedSearchCanBeLost` | apps/api/src/modules/orders/orders.service.ts:351-357 | a reachable run with the first |
| `Stalls.JobCanBeForgotten` | apps/api/src/modules/dispatch/dispatch.service.ts:100-125 | the second can follow every reachable insert |
| `Market.CountersAreExact` | apps/api/src/modules/orders/orders.service.ts:455-495 | over every run of all orders from none: jobs done is the number of closed orders of each master and, reviews taken as atomic, the stored rating is the average of all its reviews |
| `Market.RatingIsTheSum` | apps/api/src/modules/reviews/reviews.service.ts:38-48 | reviews taken as atomic, stored average times number of reviews is their sum, to half a hundredth per review |
| `Profiles.ProfilesMirrorMarket` | apps/api/src/modules/orders/orders.service.ts:472-477 | the profile updates made in place refine the counters of the whole market: profiles that mirror all orders still do after any step of any order |
| `Profiles.ProfileTable.CountJob` | apps/api/src/modules/orders/orders.service.ts:472-475 | one more job for this master, nothing else changed |
| `Profiles.ProfileTable.Rate` | apps/api/src/modules/reviews/reviews.service.ts:39-46 | the master's stored rating is the average of all its reviews with this one, nothing else changed |
| `ReviewRace.RatingCountsAllIffAveragedLast` | apps/api/src/modules/reviews/reviews.service.ts:38-48 | statement by statement: the stored rating counts every committed review exactly when the transaction that wrote last averaged after every other had committed |
| `ReviewRace.EveryRunStoresLast` | apps/api/src/modules/reviews/reviews.service.ts:38-48 | every run with a committed review has such a last writer and the averaging it stored, and every other has nothing stored |
| `ReviewRace.TwoReviewsRace` | apps/api/src/modules/reviews/reviews.service.ts:38-48 | the run in which two reviews r and s are averaged at once: the stored rating counts s alone, and equals the rating of both exactly when r == s |
| `Market.PenaltiesMatchEvents` | apps/api/src/modules/penalties/penalties.service.ts:24-52 | with accepting taken as one step: over all orders, penalties of each kind equal the events that call for them |
| `OrderState.StageClimbs` | apps/api/src/modules/orders/order-state.ts:19-54 | past submission every history row climbs by at least one stage |
| `OrderState.SubmittedWalkIsShort` | apps/api/src/modules/orders/order-state.ts:19-54 | an order is submitted once and has at most five more rows |
| `OrderState.EdgesOfTheGraph` | apps/api/src/modules/orders/order-state.ts:19-54 | the graph has exactly these seventeen edges |
| `Orders.LegalWriteKeepsBook` | apps/api/src/modules/orders/orders.service.ts:361-384 | writes along an edge keep the history a walk and every earlier version a possible past |
| `Orders.EditIsLegal` | apps/api/src/modules/orders/orders.service.ts:117-161 | editing, with the quote dropped where it must be, is such a write |
| `Orders.DiagnoseIsLegal` | apps/api/src/modules/orders/orders.service.ts:253-316 | so is pricing |
| `Orders.SubmitIsLegal` | apps/api/src/modules/orders/orders.service.ts:320-350 | so is submission |
| `StaleWizard.DelayIsHarmlessIff` | apps/api/src/modules/orders/orders.service.ts:117-350 | a delayed edit, pricing or submission keeps history, quote and agreed deal sound exactly when it stands at its write: the status it read, and what the price was computed from, are as they were |
| `StaleWizard.RunIsSoundIffAllStand` | apps/api/src/modules/orders/orders.service.ts:117-350 | a whole run of them is sound throughout exactly when each stands |
| `StaleWizard.EditUnderSubmit` | apps/api/src/modules/orders/orders.service.ts:137-159 | from every priced order: an edit between submit's read and write leaves a searching order without a quote and a history that is no walk |
| `StaleWizard.FreshEdit` | apps/api/src/modules/orders/orders.service.ts:117-161 | a delayed edit that nothing overtakes is the atomic edit |
| `StaleWizard.FreshPrice` | apps/api/src/modules/orders/orders.service.ts:253-316 | so is a delayed pricing |
| `StaleWizard.FreshSend` | apps/api/src/modules/orders/orders.service.ts:320-350 | and a delayed submission's write of the order |
| `StaleSubmission.FreshSubmission` | apps/api/src/modules/orders/orders.service.ts:320-357 | a delayed submission that nothing overtakes is the atomic one, search included |
| `StaleSubmission.DelayedCallIsSoundIff` | apps/api/src/modules/orders/orders.service.ts:117-357 | a delayed edit, pricing or submission, with the search it starts, leaves a sound deal sound exactly when it stands at its write |
| `StaleSubmission.ActsAreSoundIffAllStand` | apps/api/src/modules/orders/orders.service.ts:117-357 | over every run of delayed calls among all other steps: every deal along it is sound exactly when each delayed call stands |
| `StaleSubmission.OffersAreSafeWhileCallsStand` | apps/api/src/modules/dispatch/dispatch.service.ts:66-120 | as long as they stand: one token at most, ranks 1..n, distinct masters, nothing withdrawn, every insert goes through |
| `StaleSubmission.TwoSubmissionsOverlap` | apps/api/src/modules/orders/orders.service.ts:320-357 | from every sound priced deal: two submissions that read the same row put two searches in flight, and the history is no walk |
| `StaleSubmission.RetryFiresIffSameMaster` | apps/api/src/modules/dispatch/dispatch.service.ts:96-120 | of two searches run side by side the second insert retries exactly when both picked one master; otherwise two offers of rank 1 stand open |
| `StaleSubmission.AcceptanceWithdraws` | apps/api/src/modules/dispatch/dispatch.service.ts:170-176 | accepting one of two open offers withdraws the other |
| `StaleSubmission.DoubleSubmission` | apps/api/src/modules/orders/orders.service.ts:320-357 | a reachable priced deal, from a new draft, that two submissions find allowed, and that has two searches in flight after them |
| `StaleSubmission.OverlapRetriesOrWithdraws` | apps/api/src/modules/dispatch/dispatch.service.ts:96-176 | from every such deal with a place, both ends: with the same master found twice the retry fires, with two masters an acceptance withdraws an offer |
| `Orders.CancelIsLegal` | apps/api/src/modules/orders/orders.service.ts:361-384 | so is a cancellation on any stale version of the row |
| `Orders.MoveIsLegal` | apps/api/src/modules/orders/orders.service.ts:613-633 | so is a move by the master on any stale version |
| `Orders.CompleteIsLegal` | apps/api/src/modules/orders/orders.service.ts:409-435 | so is completion on any stale version, with an amount inside the standing quote |
| `Orders.ConfirmIsLegal` | apps/api/src/modules/orders/orders.service.ts:455-495 | so is confirmation on any stale version |
| `Orders.AssignIsLegal` | apps/api/src/modules/dispatch/dispatch.service.ts:177-186 | so is the assignment of an accepted offer |
| `Orders.ExpireKeepsBook` | apps/api/src/modules/dispatch/dispatch.service.ts:226-230 | the first write of a failed search leaves the history exactly one row behind |
| `Orders.RecordExpiryKeepsBook` | apps/api/src/modules/dispatch/dispatch.service.ts:232-234 | its second write makes the history whole again |
| `Orders.QuoteIsFresh` | apps/api/src/modules/orders/orders.service.ts:278-314 | what every priced row promises about price, fee and final amount, whatever its status, against the band it was priced from |
| `Payments.InitiateKeepsPayments` | apps/api/src/modules/payments/payments.service.ts:34-76 | a payment created from any stale order row is sound, and the only active one |
| `Payments.SettlementKeepsPayments` | apps/api/src/modules/payments/payments.service.ts:97-106 | settlement, a refused reference or a lost provider answer keeps the payments sound |
| `Payments.ResolveKeepsPayments` | apps/api/src/modules/payments/payments.service.ts:165-193 | a resolution decided on a stale payment keeps them sound |
| `Payments.FindRefFinds` | apps/api/src/modules/payments/payments.service.ts:91-93 | the lookup finds the payment with the reference if there is one |
| `Payments.WebhookIsNoOp` | apps/api/src/modules/payments/payments.service.ts:91-95 | no reachable webhook settles anything |
| `Pricing.PriceMinIsGreatest` | apps/api/src/modules/orders/pricing.ts:30-33 | the lower price is the greatest multiple of 5 000 not above the raw price, or the floor |
| `Pricing.PriceMaxIsLeast` | apps/api/src/modules/orders/pricing.ts:34-34 | the upper price is the least multiple of 5 000 not below the raw price that keeps the range open |
| `Pricing.QuoteShape` | apps/api/src/modules/orders/pricing.ts:22-37 | bounds, multiples and fee of every quote |
| `Pricing.QuoteMeetsBand` | apps/api/src/modules/orders/pricing.ts:22-37 | the quote is the one whose lower price is the greatest multiple of 5 000 not above the band's lower end times the factor of complexity and tier, or 30 000, whose upper price is the least one above that and not below the band's upper end times the factor, with the tier's fee; no other is |
| `Pricing.SplitIsExact` | apps/api/src/modules/tax/mock-tax.provider.ts:12-16 | an amount is split in one way only: its fee as it is, the tax the nearest integer to the share, halves up, the rest to the master |
| `Pricing.QuoteIsMonotone` | apps/api/src/modules/orders/pricing.ts:22-37 | a dearer band, complexity or tier never lowers either price or the fee |
| `Pricing.TaxIsBounded` | apps/api/src/modules/tax/mock-tax.provider.ts:12-16 | the tax is the nearest integer to the exact share and lies between 0 and the gross |
| `Pricing.RateIsKept` | apps/api/src/modules/payments/payments.service.ts:70-72 | the rate column keeps the configured rate exactly when that has no more than four decimals |
| `Pricing.QuotedAmountSplits` | apps/api/src/modules/payments/payments.service.ts:59-76 | any amount not below a quoted minimum splits soundly at every rate in [0, 1] |
| `Scoring.ScoreRewardsMerit` | apps/api/src/modules/dispatch/dispatch-scoring.ts:55-65 | scores lie in [0, 1.1] and never fall with proximity, rating, experience or subscription |
| `Scoring.ScoreOfEachMerit` | apps/api/src/modules/dispatch/dispatch-scoring.ts:55-65 | what each merit is worth with the others fixed: nearness 0.5 over 20 km, rating 0.35 over five stars, experience 0.15 over a hundred jobs, a subscription 0.1; none of them is 0 |
| `Scoring.TierGate` | apps/api/src/modules/dispatch/dispatch-scoring.ts:9-21 | the trust tiers that may be given a job of each complexity |
| `Scoring.DrawHasOneOwner` | apps/api/src/modules/dispatch/dispatch-scoring.ts:72-82 | of the candidates weighted by score, at least 0.0001 each, exactly one owns a draw |
| `Scoring.OwnerIsUnique` | apps/api/src/modules/dispatch/dispatch-scoring.ts:72-82 | a roll lies in the interval of one candidate only |
| `Scoring.PickIsProportional` | apps/api/src/modules/dispatch/dispatch-scoring.ts:72-82 | candidate i is picked exactly on its own prefix-sum interval, whose width is its weight |
| `Scoring.SpendRoll` | apps/api/src/modules/dispatch/dispatch-scoring.ts:77-81 | the decrementing loop returns the owner of the roll; the return after it is dead |
| `Scoring.Roll` | apps/api/src/modules/dispatch/dispatch-scoring.ts:75-76 | the total is the sum of weights and the roll lies in [0, total) |
| `Scoring.WeightedRandomPick` | apps/api/src/modules/dispatch/dispatch-scoring.ts:72-82 | an error exactly for the empty list, otherwise the owner of the draw |
| `Eligibility.QueryRefinesSpec` | apps/api/src/modules/dispatch/dispatch-eligibility.ts:46-100 | the query returns distinct masters, each at its nearest in-range area, nearest first, and leaves one out only when the page is full of masters at least as near |
| `Eligibility.EmptyMeansNobody` | apps/api/src/modules/dispatch/dispatch-eligibility.ts:46-100 | the result of the joined, filtered and sorted rows is empty exactly when no master is eligible |
| `Eligibility.PickedIsEligible` | apps/api/src/modules/dispatch/dispatch-eligibility.ts:46-100 | whoever is returned is eligible and was not offered the order |
| `Eligibility.FoundMeetsEveryCondition` | apps/api/src/modules/dispatch/dispatch-eligibility.ts:46-100 | whoever is found meets every condition, column by column, and is reported with its own merits and the distance of its nearest area that reaches the order |
| `Eligibility.NobodyFoundIffNobodyQualifies` | apps/api/src/modules/dispatch/dispatch-eligibility.ts:46-100 | conversely nobody is found exactly when no master of the world meets every condition, column by column |
| `Eligibility.PrefilterIsHarmless` | apps/api/src/modules/dispatch/dispatch-eligibility.ts:14-14 | the constant prefilter removes nothing exactly when the radius is at most 50 km |
| `Eligibility.ExpansionKeepsEligible` | apps/api/src/modules/dispatch/dispatch-eligibility.ts:73-74 | widening by a factor of at least 1 loses nobody |
| `Database.ForeignLeavesSearch` | apps/api/src/modules/dispatch/dispatch.service.ts:66-136 | nobody else touches the offers or the searches while one search is in flight |
| `OrdersService.OrdersService.CreateDraft` | apps/api/src/modules/orders/orders.service.ts:103-115 | refused exactly for an inactive category; otherwise a new draft, every column at its default, a sound beginning |
| `Database.OrderTables.Evolved` | apps/api/src/modules/orders/orders.service.ts:361-384 | whatever ran in between, the tables only evolved |
| `Database.OrderTables.Await` | apps/api/src/modules/orders/orders.service.ts:361-384 | after waiting, the row read before is a past version of the row found |
| `OrdersService.OrdersService.UpdateDraft` | apps/api/src/modules/orders/orders.service.ts:117-161 | allowed exactly when the checks pass; writes the patch column by column and keeps the rest; drops the quote and records it exactly when description, category or tier of a priced order are named; otherwise changes nothing |
| `OrdersService.OrdersService.Diagnose` | apps/api/src/modules/orders/orders.service.ts:253-316 | each error exactly in its case; otherwise the order has the customer's category or else the suggested one, and is priced by both ends of that category's band for its tier, on record, all else kept |
| `OrdersService.OrdersService.CheckSubmission` | apps/api/src/modules/orders/orders.service.ts:320-331 | the checks of a submission and the error each raises |
| `OrdersService.OrdersService.Submit` | apps/api/src/modules/orders/orders.service.ts:320-359 | with read and write taken as one step: succeeds exactly for a priced order with a place and, if scheduled, a bookable time; moves the status, on record, clears the appointment of the other tiers and leaves one search in flight |
| `OrdersService.OrdersService.Cancel` | apps/api/src/modules/orders/orders.service.ts:361-384 | succeeds exactly when allowed on the row read and the deal found at the write has the status read, and then only moves the status, on record; otherwise writes nothing |
| `OrdersService.OrdersService.MoveOn` | apps/api/src/modules/orders/orders.service.ts:389-405 | en-route and start: the same for the assigned master |
| `OrdersService.OrdersService.CompleteService` | apps/api/src/modules/orders/orders.service.ts:409-435 | the same, with the amount checked against the quote read, which is inside the quote that stands |
| `OrdersService.OrdersService.ConfirmCompletion` | apps/api/src/modules/orders/orders.service.ts:455-476 | closes exactly an order read and found completed, for the master it had, and in the same transaction counts one more job on that master's profile and on no other |
| `OrdersService.OrdersService.CancelByMaster` | apps/api/src/modules/orders/orders.service.ts:499-537 | succeeds exactly as guarded, and owes the penalty from that write on |
| `DispatchService.DispatchService.CascadeNext` | apps/api/src/modules/dispatch/dispatch.service.ts:66-136 | when it returns nothing is in flight: either the order no longer searches, or there is one more offer - to the one candidate that owns the draw, a master that meets every condition and was not offered before, at its nearest distance, open for the seconds of the order's tier, in the second pass only after the first found nobody - whatever others did between its statements |
| `DispatchService.DispatchService.StartDispatch` | apps/api/src/modules/dispatch/dispatch.service.ts:38-40 | the same, from the first pass |
| `DispatchService.DispatchService.InsertOffer` | apps/api/src/modules/dispatch/dispatch.service.ts:96-120 | the insert succeeds with the next rank, for the master drawn, at its distance and score, until the seconds of the order's tier have passed |
| `DispatchService.DispatchService.QueueExpiry` | apps/api/src/modules/dispatch/dispatch.service.ts:121-125 | whatever has become of the offer just inserted, its job gets queued, unless the process died before |
| `DispatchService.DispatchService.FailSearch` | apps/api/src/modules/dispatch/dispatch.service.ts:218-243 | the order no longer searches, and if it expired then for this reason |
| `DispatchService.DispatchService.HandleOfferExpiry` | apps/api/src/modules/dispatch/dispatch.service.ts:43-59 | the first delivery of a queued job to find the offer open times it out, fines the master and sends the search on; every other does nothing |
| `DispatchService.DispatchService.AcceptOffer` | apps/api/src/modules/dispatch/dispatch.service.ts:148-200 | accepts exactly when under the lock the offer is open and in time and the order searches; then that offer is accepted, every other open one withdrawn, the order assigned to the caller, on record, and nothing else changed; otherwise writes nothing |
| `DispatchService.DispatchService.DeclineOffer` | apps/api/src/modules/dispatch/dispatch.service.ts:202-214 | an offer found open at the guarded write is declined, exactly then, and the search settles as a cascade does; otherwise nothing is written |
| `PaymentsService.PaymentsService.CreatePayment` | apps/api/src/modules/payments/payments.service.ts:34-76 | pays exactly for a finished order of the caller that has no payment but failed and refunded ones under the lock; the new payment is the order's amount split to the so'm at the configured rate |
| `PaymentsService.PaymentsService.Settle` | apps/api/src/modules/payments/payments.service.ts:97-114 | settles once with the provider answer, refused exactly for a reference already used, and touches no other payment; on success the order has a master to withhold tax for |
| `PaymentsService.PaymentsService.HandleWebhook` | apps/api/src/modules/payments/payments.service.ts:91-95 | changes nothing, and neither does the specified step |
| `PaymentsService.PaymentsService.Resolve` | apps/api/src/modules/payments/payments.service.ts:165-200 | resolves exactly when the checks pass on the payment read and it is found unresolved, keeps everything else of it, and touches no other; refunds only a payment that has succeeded |
| `ReviewsService.ReviewsService.Create` | apps/api/src/modules/reviews/reviews.service.ts:25-58 | inserts exactly when the order read is closed and no review is found; in the same transaction the master's rating becomes the average of all its reviews and this one; owes a complaint exactly for ratings of at most 2 |
| `Calendar.YearsAdvance` | packages/contracts/src/order.ts:96-110 | a year has 365 or 366 days by the Gregorian rule |
| `Calendar.YearIsUnique` | packages/contracts/src/order.ts:96-110 | a day falls in one year only |
| `Calendar.TimeOfFields` | packages/contracts/src/order.ts:105-110 | every time value is the time of its broken-down fields |
| `Calendar.FieldsOfTime` | packages/contracts/src/order.ts:96-103 | every valid broken-down time is what its time value breaks down into |
| `Calendar.DaysFollowDays` | packages/contracts/src/order.ts:96-110 | from midnight of 1 January 1970 on, a day later is the next day of the calendar, by the lengths of the months, and the clock counts within the day |
| `Slots.ParseOfIso` | packages/contracts/src/order.ts:105-106 | every representable instant survives printing and parsing as an ISO string |
| `Slots.SlotRoundTrip` | packages/contracts/src/order.ts:96-110 | a date and slot come back from UTC exactly when they name a real minute of a real day of the years 100 to 9999 |
| `Slots.TwoDigitYearsMove` | packages/contracts/src/order.ts:96-103 | a year below 100 comes back as a year of the twentieth century |
| `Slots.InstantRoundTrip` | packages/contracts/src/order.ts:96-110 | an instant comes back as the minute it lies in |
| `Slots.SlotIsFiveHoursAhead` | packages/contracts/src/order.ts:93-103 | the instant of a slot is five hours earlier in UTC, the day before for slots before 05:00 |
| `Slots.SlotTextInUtc` | packages/contracts/src/order.ts:96-103 | what a slot from 05:00 on is converted to, character by character |
| `Slots.SchedulableOnOffer` | apps/api/src/modules/orders/orders.service.ts:642-655 | an order can be scheduled exactly for the next fourteen days at the four local slots |
| `Slots.BookableSlots` | apps/api/src/modules/orders/orders.service.ts:642-655 | the local slot is one of the four on offer exactly when the minute of the Tashkent day is 9:00, 11:00, 14:00 or 16:00 |
| `Trust.ScoreToTier` | apps/api/src/modules/trust/trust-config.ts:27-33 | the loop counts the thresholds 40, 60 and 80 reached |
| `Trust.RawScoreIsBounded` | apps/api/src/modules/trust/trust.service.ts:54-59 | weights and factors add up to a raw score in [0, 100] |
| `Trust.MeritsAreWorth` | apps/api/src/modules/trust/trust.service.ts:49-59 | with all else fixed: fifty jobs are worth 30 points in proportion, more no more, five stars 25, verification 15 |
| `Trust.ResponseIsWorth` | apps/api/src/modules/trust/trust.service.ts:42-57 | accepting offers is worth 15 points in proportion, none offered counting as all accepted |
| `Trust.CancellationCosts` | apps/api/src/modules/trust/trust.service.ts:39-58 | cancelling jobs costs 15 points in proportion, no jobs counting as none cancelled |
| `Trust.FactorsAddUp` | apps/api/src/modules/trust/trust.service.ts:39-59 | the factors add up, from 0 for the worst standing to 100 for the spotless one |
| `Trust.ScoreIsExact` | apps/api/src/modules/trust/trust.service.ts:54-63 | the score is that sum less the points of ninety days, 20 at most, to the nearest integer, not below 0; no other number is |
| `Trust.PointsAppend` | apps/api/src/modules/trust/trust.service.ts:30-36 | a penalty counts exactly for its ninety days, with its points |
| `Trust.ScoreIsRoundedRawLessPenalties` | apps/api/src/modules/trust/trust.service.ts:61-62 | penalties commute with rounding and only the lower clamp is ever needed; the score lies in 0..100 |
| `Trust.TrustIsMonotone` | apps/api/src/modules/trust/trust.service.ts:21-76 | no better input ever lowers score or tier, no worse one raises them |
| `Trust.TimeHeals` | apps/api/src/modules/trust/trust.service.ts:30-37 | passing time alone never lowers a score |
| `Trust.PenaltiesAreCapped` | apps/api/src/modules/trust/trust-config.ts:21-22 | all penalties together cost at most 20 points |
| `Trust.Profile.RecomputeTrustTier` | apps/api/src/modules/trust/trust.service.ts:86-93 | stores the tier, by the thresholds, of the score that the factors and penalties add up to |
| `Trust.Profile.RecordEvent` | apps/api/src/modules/penalties/penalties.service.ts:24-52 | appends the penalty with the points of its kind, stores the tier, and raises neither |
| `Referrals.RewardedOnce` | apps/api/src/modules/referrals/referrals.service.ts:54-75 | under any interleaving at most one cashback per referral, and only for a rewarded one |
| `Referrals.FirstPaymentRewards` | apps/api/src/modules/referrals/referrals.service.ts:54-75 | in every reachable book, a payment whose call nothing interrupts leaves an active referral of the payer rewarded, with one more cashback of 20 000 for its referrer; without one it changes neither |
| `Referrals.LedgerAddsUp` | apps/api/src/modules/referrals/referrals.service.ts:54-75 | cashback plus what calls in flight or cut short still owe is 20 000 times the rewarded referrals |
| `Referrals.StatusOnlyClimbs` | apps/api/src/modules/referrals/referrals.service.ts:34-62 | a referral moves from pending to active to rewarded only, and cashback is never taken back |
| `Referrals.ReferralsAreAForest` | apps/api/src/modules/referrals/referrals.service.ts:19-31 | no chain of referrals leads back to its start |
| `Referrals.ReferralsService.RecordSignup` | apps/api/src/modules/referrals/referrals.service.ts:19-31 | records exactly the referral the code calls for |
| `Referrals.ReferralsService.ActivateOnVerify` | apps/api/src/modules/referrals/referrals.service.ts:34-39 | the pending referral of the referee becomes active, and nothing else changes |
| `Referrals.ReferralsService.RewardOnFirstPayment` | apps/api/src/modules/referrals/referrals.service.ts:54-75 | a referrer is returned exactly when the payer's referral is active both at the read and at the guarded write, with the one new cashback for it; otherwise the call writes none |
| `Sessions.RedeemedOnce` | apps/api/src/modules/auth/token.service.ts:63-85 | in any interleaving each session is redeemed at most once |
| `Sessions.RevokedStaysUnredeemed` | apps/api/src/modules/auth/token.service.ts:63-99 | a revoked session is never redeemed again |
| `Sessions.OnlyLoginsOpenDoors` | apps/api/src/modules/auth/token.service.ts:28-99 | live sessions and in-flight refreshes grow only by logins |
| `Sessions.SessionsAreConserved` | apps/api/src/modules/auth/token.service.ts:28-99 | they never exceed the number of logins |
| `Sessions.RevokeAllCloses` | apps/api/src/modules/auth/token.service.ts:94-99 | after revoking all, at most the refreshes in flight then and later logins remain |
| `Sessions.RevokeAllForcesLoginIffNoneInFlight` | apps/api/src/modules/auth/token.service.ts:94-99 | without a new login no live session can come back exactly when no refresh of the user is in flight |
| `Sessions.RefreshOutlivesRevokeAll` | apps/api/src/modules/auth/token.service.ts:63-99 | a run in which one does |
| `Sessions.RefreshRotates` | apps/api/src/modules/auth/token.service.ts:63-85 | with nothing in between, a token of a live session is exchanged for one new session of its user and its own is revoked; any other token changes nothing |
| `Sessions.TokenService.Issue` | apps/api/src/modules/auth/token.service.ts:28-52 | one new live session, good for the configured days |
| `Sessions.TokenService.Reissue` | apps/api/src/modules/auth/token.service.ts:28-52 | one new live session for the user of the session redeemed |
| `Sessions.TokenService.ConsumeSession` | apps/api/src/modules/auth/token.service.ts:63-85 | a session is given exactly when it is live under its lock, and then revoked; of all calls racing with one token only one is given it |
| `Sessions.TokenService.RevokeByToken` | apps/api/src/modules/auth/token.service.ts:87-92 | revokes exactly the session of the token |
| `Sessions.TokenService.RevokeAllForUser` | apps/api/src/modules/auth/token.service.ts:94-99 | revokes exactly the sessions of the user |
| `Subscriptions.PremiumIsSinceLastUpgrade` | apps/api/src/modules/subscriptions/subscriptions.service.ts:18-31 | premium is a function of the last granted upgrade and the clock |
| `Subscriptions.HealingIsUnobservable` | apps/api/src/modules/subscriptions/subscriptions.service.ts:18-31 | two histories with the same upgrades and any reads answer alike |
| `Subscriptions.QueryAgreesExceptAtTheEnd` | apps/api/src/modules/dispatch/dispatch-eligibility.ts:60-65 | the dispatch query agrees with the service at every instant except exactly the end of the trial |
| `Subscriptions.SubscriptionsService.GetStatus` | apps/api/src/modules/subscriptions/subscriptions.service.ts:18-31 | plan, status, end and premium by the last upgrade and the clock |
| `Subscriptions.SubscriptionsService.UpgradeToPremium` | apps/api/src/modules/subscriptions/subscriptions.service.ts:33-46 | refused exactly while a trial runs |
| `Paging.PagesOmitEveryNext` | apps/api/src/modules/orders/orders.service.ts:555-566 | following nextCursor shows the rows in order, once, except those at indices congruent to take modulo take + 1 |
| `Paging.RowIsSeenUnlessSkipped` | apps/api/src/modules/orders/orders.service.ts:540-566 | a row is seen exactly when its index is not such an index |
| `Paging.WalkIsCompleteOnOnePage` | apps/api/src/modules/payments/payments.service.ts:218-240 | the walk is complete exactly when there is one page |
| `Paging.LastRowCursorIsComplete` | apps/api/src/modules/orders/orders.service.ts:540-566 | with the last returned row as cursor it is always complete |
| `AcceptRace.MatchSurvives` | apps/api/src/modules/dispatch/dispatch.service.ts:153-186 | statement by statement, the order lock alone keeps the match unique and its master |
| `AcceptRace.TokenAtStatementGrain` | apps/api/src/modules/dispatch/dispatch.service.ts:38-200 | in every run, open and accepted offers, searches and searches that came to nothing are one plus the commits that overwrote an answer, at most one; penalties written, due or lost in a crash are the timed-out offers plus the timeouts overwritten; nothing is withdrawn |
| `AcceptRace.RanksAtStatementGrain` | apps/api/src/modules/dispatch/dispatch.service.ts:66-120 | in every run, overwritten answers or not: one search at most, ranks 1..n, no master offered twice, and no insert meets the uniqueness violation |
| `AcceptRace.MatchAtStatementGrain` | apps/api/src/modules/dispatch/dispatch.service.ts:153-200 | one accepted offer beside a master; and beside it no open offer, no search and none that came to nothing exactly when no committed transaction was overtaken |
| `AcceptRace.AnswersStayUnlessOverwritten` | apps/api/src/modules/dispatch/dispatch.service.ts:157-176 | an answered offer changes exactly when a commit overwrites it |
| `AcceptRace.AnswerIsOverwrittenIffItCameBetween` | apps/api/src/modules/dispatch/dispatch.service.ts:157-176 | a run overwrites an answered offer exactly when an expiry or a decline fell between the read and the write of a transaction that committed |
| `AcceptRace.TimedOutOfferIsAccepted` | apps/api/src/modules/dispatch/dispatch.service.ts:157-176 | a concrete run in which a timed-out and fined offer ends up accepted and an open offer stands beside an assigned order |

## Left out

- DealTheorems.SearchTokenIsConserved: takes accepting and submitting as one step each; statement by statement the count is off by the overwritten answers, AcceptRace.TokenAtStatementGrain, and by overlapping submissions, StaleSubmission.TwoSubmissionsOverlap.
- DealTheorems.OffersAreRanked: takes submitting as one step, as do the next two; StaleSubmission.OffersAreSafeWhileCallsStand and StaleSubmission.RetryFiresIffSameMaster say what holds without that.
- DealTheorems.RetryNeverFires: two overlapping submissions can make it fire, StaleSubmission.RetryFiresIffSameMaster.
- DealTheorems.MatchIsSafe: takes accepting as one step too, as do the next three; the clause about open offers needs that no committed acceptance was overtaken, AcceptRace.MatchAtStatementGrain.
- DealTheorems.PenaltyLedgerIsExact: an overwritten timeout keeps its penalty, AcceptRace.TokenAtStatementGrain.
- DealEvolution.RunEvolves: an answered offer stays so unless overwritten, AcceptRace.AnswersStayUnlessOverwritten.
- Market.PenaltiesMatchEvents: inherits the one-step acceptance.
- Market.CountersAreExact: takes reviewing as one step, ReviewRace says when the rating survives without that; the trust tier stored on a profile is not part of it, as it is recomputed only at certain events.
- Market.RatingIsTheSum: inherits the one-step review.
- DispatchService.DispatchService.AcceptOffer: the transaction is one step here; AcceptRace takes its statements apart.
- DispatchService.DispatchService.CascadeNext: ends with the insert; the statement after it is QueueExpiry, which others may overtake.
- PaymentsService.PaymentsService.Settle: takes effect at the provider's answer, any time after CreatePayment; the wait for the provider is not run inside one method, because other callers' scripts may contain the answer itself.
- ReviewsService.ReviewsService.Create: leaves the complaint owed rather than written, because other steps may write it first; the transaction is one step here, ReviewRace takes its statements apart.
- OrdersService.OrdersService.Submit: read and write are one step, StaleSubmission takes them apart; leaves the search in flight, which DispatchService runs.
- Slots.SlotRoundTrip: covers strings of the form YYYY-MM-DD and HH:MM with any digits; what JavaScript makes of other strings is not modelled.
- Slots.ParseOfIso: reads only the format that toISOString writes; the other formats Date.parse accepts are not modelled.
- Trust.TrustIsMonotone: the five counts of a score are taken at one instant, though the source reads them in parallel queries.
- Pricing.QuoteShape: exact multipliers; in double arithmetic a raw price on a multiple of 5 000 may land on the next step.
- AcceptRace.MatchSurvives: sets the accepting transaction against single-statement writers; the other transactions stay atomic.
- StaleWizard.DelayIsHarmlessIff: is about the order's rows alone; StaleSubmission.DelayedCallIsSoundIff is about the whole deal. Each of the three calls is one read and one write.
- AcceptRace.RanksAtStatementGrain: starts from one submission, as does the rest of AcceptRace; overlapping submissions are set against the coarser steps only.
- A master's being busy is decided by the eligibility query alone; two orders may be accepted by one master, and nothing is claimed about that.
- Deleting users or orders (cascades and nulled references) does not occur.
- Failed provider calls that raise, and the failure reason of a payment, are not distinguished from a lost answer.
- Master earnings totals and list filters: sums over the rows proved sound above.
- Notifications, realtime events, job media, AI prompts, storage, SMS, push and logging: foreign calls.
- One-time codes, login counters, passwords and access tokens: authentication beyond refresh sessions.
- Verification, guarantee claims, addresses, feature flags, suspension: the same guarded writes with easier invariants.
- Administration analytics, phone masking and all of the web client.
