# Verified models of SaaSmint

Dafny models of the state-changing core of SaaSmint, a Django and Stripe backend, with proofs of what its
operations promise. Each module follows one part of the program. Where the program updates rows, caches or a Stripe
account in place, the model is a class whose methods are proved against functions of the old state; the properties
over runs and interleavings are lemmas about those functions.

| module | part of the program |
|---|---|
| `OrgDeletion` | the single and the batched organisation delete, with their cascades and Stripe cancellations |
| `OrgSlug` | the search for a free organisation slug |
| `SubscriptionMirror` | the local mirror of Stripe subscriptions: webhook handlers, repository, optimistic writes |
| `BillingRequests` | cancel, resume, release and re-seat: the Stripe calls and what is mirrored at once |
| `PlanChange` | immediate and deferred plan switches on one Stripe subscription, and reading their schedules back |
| `Currency`, `LocalizedPrices` | friendly rounding, minor units, and the derived table of localized prices |
| `CatalogSync` | mirroring plans and products into Stripe from a prefetched lookup map |
| `Credits` | the credit ledger and its cached balances |
| `OneTimeTokens`, `OAuthExchange`, `RefreshTokens` | the three token protocols |
| `Seats` | invitations, members and paid seats of one organisation |
| `Ownership` | roles, ownership and its transfer across organisations |
| `Prelude` | options, lists with distinct keys, decimal digits |

`dafny verify dfyconfig.toml` checks everything.

## What the proofs found

Where code and documentation disagree the model follows the code.

- A redelivered `customer.subscription.deleted` event is not idempotent: it stamps `canceled_at` again
  (`SubscriptionMirror.RedeliveryIdempotent`).
- An optimistic save writes every column of the row as it was loaded, so it can bring back a pending change that a
  webhook has cleared meanwhile, and later subscription events never repair that (`StaleSaveSticks`); its comments
  promise that the webhook re-saves the same row. The exact condition is `SyncAbsorbs`.
- The two readers of a billing period treat an item's explicit null differently (`PlanChange.PeriodReadersAgree`).
- An immediate plan switch that Stripe rejects has already released the pending schedule
  (`PlanChange.RejectedChangeDropsSchedule`).
- A price change in the catalog does not carry a changed name to the Stripe product, because the product is then known
  by id only (`CatalogSync.ProductBroughtInLine`); an archived price that matches again is reused without being
  reactivated (`UpsertActive`).
- The acceptance transaction does not read the invitation's status again, so an invitation cancelled in between is still
  accepted (`Seats.CancelledYetAccepted`), and one left open twice can be accepted twice (`JoinsTwice`). The exact
  conditions are `ReservationsStep` and `AcceptedOnceEach`; the members stay within the paid seats all the same
  (`MembersWithinSeats`).
- A replayed ownership transfer is refused rather than answered like the first one; the state is unchanged either way
  (`Ownership.TransferIdempotent`).
- A schedule event delivered before the event that creates its subscription's row is lost
  (`SubscriptionMirror.RunFromNothing`, `ScheduleBeforeRowIsLost`).
- A cancellation is refused by Stripe while a live schedule has not reached the loaded row, or is one the mirror cannot
  read (`BillingRequests.RefusedIff`). A schedule that runs to its end is no event any handler looks at, so it clears
  nothing.
- At most one redemption of an OAuth code is guaranteed if and only if nobody presents it with the sentinel suffix
  appended; other junk does no harm (`OAuthExchange.OnceIff`).
- Product lookup keys can collide, by equal slugs or by a name that ends in another's currency
  (`CatalogSync.PackKeysEqualIff`). Every run brings the whole catalog in line if and only if no two synced products do
  (`RunsDoneIff`); with a colliding pair a run over an empty account fails (`SharedKeyFails`), though another may not.
- Amounts in (0, 0.24] of a two-decimal currency snap to -0.01; idempotence, order and sign hold exactly outside
  (`Currency.Idempotent`, `Monotone`, `StandardPositive`).

## Model

| member | source | states |
|---|---|---|
| `OrgDeletion.FoldIsBatch` | apps/orgs/services.py:397-437 | Deleting organisations one at a time, in any order and even with repeats, leaves exactly the tables the one-transaction batch leaves: users, memberships, orgs, invitations, customers, subscriptions and nulled links |
| `OrgDeletion.FoldSurvivalRule` | apps/orgs/services.py:378-437 | Over any such sequence a user dies if and only if they had a membership, every one of their memberships was in the deleted orgs, and no active subscription of their own was on a customer of their own; all read off the tables before the first delete |
| `OrgDeletion.FoldLeavesOrgs` | apps/orgs/services.py:397-437 | What any such sequence leaves, told from the tables before it: the other users, the other organisations with the creator nulled exactly where the creator dies, and the memberships that refer to nothing deleted |
| `OrgDeletion.FoldLeavesInvitations` | apps/orgs/services.py:397-437 | The invitations of the other organisations stay; the sender is nulled exactly where the sender dies, and nothing else changes |
| `OrgDeletion.FoldLeavesBilling` | apps/orgs/services.py:397-437 | A customer goes exactly with its user or its organisation, a subscription exactly with its user or its customer; whatever stays is unchanged |
| `OrgDeletion.VictimsStep` | apps/orgs/services.py:517-538 | The users the batch kills, plus those the next single delete kills in what is left, are those the larger batch kills |
| `OrgDeletion.CascadeSurvivors` | apps/orgs/services.py:404-437 | Cancel invitations, delete users, delete memberships, delete orgs: together they leave the rows of every table that refer to nothing deleted, and no trace of the cancelling |
| `OrgDeletion.SurvivorsCompose` | apps/orgs/services.py:517-538 | Two cascades in a row are one cascade over the unions |
| `OrgDeletion.FoldKeepsConstraints` | apps/orgs/services.py:397-437 | No sequence of deletes violates the customers' check constraint or the rule that a subscription repeats its customer's user |
| `OrgDeletion.CancelsMatchFold` | apps/orgs/services.py:491-512 | The cancel lists possible when every subscription is looked up before the first delete are those possible when each lookup follows the earlier deletes |
| `OrgDeletion.CancelsDetermined` | apps/orgs/services.py:548-566 | Without two billable subscriptions of one org created at the same instant the cancel list is unique |
| `OrgDeletion.CancelForMeans` | apps/orgs/services.py:548-566 | For one organisation the id of an active Stripe-backed subscription on a customer of its own is cancelled, one no other such is younger than; nothing if and only if there is none |
| `OrgDeletion.CancelledIsActive` | apps/orgs/services.py:491-512 | Every cancelled id is that of an active subscription on the customer of a deleted organisation |
| `OrgDeletion.ActiveIsCancelled` | apps/orgs/services.py:491-512 | Every deleted organisation with an active Stripe-backed subscription has a youngest of its own cancelled |
| `OrgDeletion.CollectCancels` | apps/orgs/services.py:503-512 | A map holding a newest billable subscription per org, read in org order, gives a list the per-org query could give |
| `OrgDeletion.BatchRefinesSingles` | apps/orgs/services.py:463-545 | Both together: same tables and same possible cancels, for every list of distinct orgs |
| `OrgDeletion.OrgTables.DeleteOrgDbOnly` | apps/orgs/services.py:397-437 | The sequence of statements against the tables is the single cascade |
| `OrgDeletion.OrgTables.GetActiveStripeSub` | apps/orgs/services.py:548-566 | Returns a newest active Stripe-backed subscription of the org, or none when there is none |
| `OrgDeletion.OrgTables.DeleteOrg` | apps/orgs/services.py:440-460 | Looks the subscription up before the delete, cancels that one or nothing, and leaves the single cascade |
| `OrgDeletion.OrgTables.ScanSubs` | apps/orgs/services.py:491-502 | The one-pass first-seen-wins scan over all orgs gives every org with a billable subscription a newest one |
| `OrgDeletion.OrgTables.DeleteOrgsCreatedByUser` | apps/orgs/services.py:463-545 | Deletes exactly the orgs the user created, as one batch, and returns a cancel list in org order that agrees with the per-org rule |
| `OrgSlug.Base` | apps/orgs/services.py:51-58 | For every slugified name the base has the form [a-z0-9][a-z0-9-]*[a-z0-9] |
| `OrgSlug.BaseKeepsWellFormed` | apps/orgs/services.py:51-58 | A name already of that form is kept |
| `OrgSlug.VariantInjective` | apps/orgs/services.py:68-82 | Different suffixes give different slugs |
| `OrgSlug.CandidateMeans` | apps/orgs/services.py:62-76 | The slugs looked at are exactly the base and the base followed by a hyphen and digits |
| `OrgSlug.NextVariant` | apps/orgs/services.py:68-82 | If base and variants 2 to k are all taken there are at least k taken slugs, so the search must stop |
| `OrgSlug.SearchSuffix` | apps/orgs/services.py:68-82 | Terminates with the least free suffix, at most one more than the number of taken slugs |
| `OrgSlug.GenerateUniqueSlug` | apps/orgs/services.py:38-82 | The slug is absent from the whole table although only base and its numbered variants were looked at, and it is well formed |
| `SubscriptionMirror.StepRow` | core/saasmint_core/services/webhooks.py:92-113 | Any delivery changes an existing row in two independent parts: the subscription fields by its subscription events, the pending change by its schedule events; id and created_at never |
| `SubscriptionMirror.RunRow` | core/saasmint_core/services/webhooks.py:245-351 | After any sequence of deliveries, failing and foreign ones included, the row is the fold of its subscription events beside the fold of its schedule events |
| `SubscriptionMirror.StreamMembers` | core/saasmint_core/services/webhooks.py:92-113 | The two streams hold exactly the delivered subscription events and schedule events of the subscription |
| `SubscriptionMirror.InterleavingIrrelevant` | core/saasmint_core/services/webhooks.py:92-113 | Every interleaving of the same two streams, mixed with events of other subscriptions in any way, ends in the same row |
| `SubscriptionMirror.RedeliveryIdempotent` | core/saasmint_core/services/webhooks.py:354-373 | An event redelivered at once changes nothing, except exactly that a redelivered deletion of a known subscription stamps canceled_at with its later clock |
| `SubscriptionMirror.LateRedelivery` | core/saasmint_core/services/webhooks.py:92-113 | An event of a run redelivered at its end leaves the row as it was if and only if what it wrote still stands after the events that followed it |
| `SubscriptionMirror.RunFromNothing` | core/saasmint_core/services/webhooks.py:293-351 | Where the row does not exist yet, the first delivery that creates it decides: the final row is the two folds of what follows it, from its fields and nothing pending; everything before is lost |
| `SubscriptionMirror.RowAppearsIff` | core/saasmint_core/services/webhooks.py:293-351 | A run makes the row if and only if it holds a subscription event that can be built |
| `SubscriptionMirror.ScheduleBeforeRowIsLost` | core/saasmint_core/services/webhooks.py:429-496 | The order of the creating event and a schedule event matters if and only if the schedule event would set a pending change |
| `SubscriptionMirror.StepValid` | core/saasmint_core/services/webhooks.py:293-351 | Ids and Stripe ids stay unique over every delivery |
| `SubscriptionMirror.BuildMeans` | core/saasmint_core/services/webhooks.py:221-290 | A row is built if and only if the payload is usable: it has an item, both period ends as integers, a known customer and price, and a known status; the row then holds customer, user, status by its name, plan of the first item, seats (one when absent or zero), trial end, both period ends, canceled_at, cancel_at and currency of the payload; otherwise which of the six errors comes out |
| `SubscriptionMirror.StatusByName` | core/saasmint_core/services/webhooks.py:245-290 | A status is read from exactly its own name |
| `SubscriptionMirror.SyncWrites` | core/saasmint_core/services/webhooks.py:293-351 | A sync of a usable payload leaves a row showing it in every column, with the pending change, key and creation time that were there, or none, a new key and now; no other row changes; an unusable payload changes nothing |
| `SubscriptionMirror.DeletionWrites` | core/saasmint_core/services/webhooks.py:354-373 | A deletion sets status and canceled_at of the known row and leaves all its other columns |
| `SubscriptionMirror.ScheduleMeans` | core/saasmint_core/services/webhooks.py:388-426 | A schedule names a switch to a price at an instant if and only if its second phase has an item for that price and the first phase ends, or else the second starts, at that instant; a zero end counts as missing |
| `SubscriptionMirror.ScheduleWrites` | core/saasmint_core/services/webhooks.py:429-524 | A schedule event sets the pending change it names if the price is known, a clearing empties it, and no other column changes |
| `SubscriptionMirror.WriteIsVisible` | core/saasmint_core/services/subscriptions.py:294-295 | A saved seat count and a saved release show in the row, every other column as it was |
| `SubscriptionMirror.SyncAbsorbs` | core/saasmint_core/services/billing.py:345-376 | An optimistic save followed by a successful sync event gives the same row as the sync alone if and only if the save left the pending change as stored |
| `SubscriptionMirror.FreshWriteAbsorbed` | core/saasmint_core/services/subscriptions.py:294-295 | With the row loaded in the same step, cancel, resume and seat writes are always absorbed; a release write is exactly when nothing was pending |
| `SubscriptionMirror.WriteIsTransient` | core/saasmint_core/services/billing.py:345-376 | However stale the saved copy, its subscription fields are gone once any later run of deliveries contains a successful sync |
| `SubscriptionMirror.StaleSaveSticks` | core/saasmint_core/services/billing.py:376-376 | A cancel, resume or seat save of a row loaded before its schedule was released brings the pending change back, and no number of subscription events removes it |
| `SubscriptionMirror.ActConsistent` | core/saasmint_core/domain/subscription.py:90-95 | No single step of any writer unpairs scheduled_plan_id and scheduled_change_at |
| `SubscriptionMirror.AlwaysConsistent` | core/saasmint_core/domain/subscription.py:90-95 | The two fields are both set or both null in every state reachable through webhooks and requests that save rows loaded at any earlier step |
| `SubscriptionMirror.MirrorStore.GetByStripeId` | apps/billing/repositories.py:115-116 | Finds the row of a Stripe id |
| `SubscriptionMirror.MirrorStore.SaveRow` | apps/billing/repositories.py:156-176 | Writes every column of the row but created_at, which is set when the row is new and kept otherwise; no other row changes |
| `SubscriptionMirror.MirrorStore.SyncSubscriptionFromData` | core/saasmint_core/services/webhooks.py:293-351 | The subscription handler: succeeds if and only if the payload is usable, and then leaves a row of its Stripe id that shows the payload column by column; otherwise it fails with the first thing missing and changes nothing |
| `SubscriptionMirror.MirrorStore.OnSubscriptionDeleted` | core/saasmint_core/services/webhooks.py:354-373 | The deletion handler |
| `SubscriptionMirror.MirrorStore.OnScheduleUpserted` | core/saasmint_core/services/webhooks.py:429-496 | The schedule handler: unparsable, unknown or unchanged schedules write nothing |
| `SubscriptionMirror.MirrorStore.OnScheduleCleared` | core/saasmint_core/services/webhooks.py:499-524 | The handler that clears a pending change |
| `SubscriptionMirror.MirrorStore.ProcessStoredEvent` | core/saasmint_core/services/webhooks.py:49-113 | Fails exactly on a subscription event whose row cannot be built, and then leaves every row as it was; the event is marked failed with its error, keeping an earlier processed_at, or processed with no error; no other event is marked |
| `SubscriptionMirror.MirrorStore.Dispatch` | core/saasmint_core/services/webhooks.py:92-113 | Which handler runs, and which error comes out |
| `SubscriptionMirror.MirrorStore.Latest` | apps/billing/repositories.py:118-125 | Some active row of the filter exists if and only if one is returned, and none is younger |
| `SubscriptionMirror.MirrorStore.GetActiveForUser` | apps/billing/repositories.py:127-138 | The maximum of the two split lookups is a latest row of the combined query |
| `BillingRequests.Billing.CancelSubscription` | core/saasmint_core/services/billing.py:214-262 | Refused by Stripe exactly when a live schedule is attached that the loaded row does not show; otherwise the response is mirrored onto a latest active row and nothing else changes |
| `BillingRequests.Billing.ResumeSubscription` | core/saasmint_core/services/billing.py:319-342 | Refused exactly when a live schedule is attached |
| `BillingRequests.Billing.ReleasePendingSchedule` | core/saasmint_core/services/billing.py:265-287 | Afterwards no live schedule is attached; a terminal one is left alone |
| `BillingRequests.Billing.ReleasePendingScheduleForCustomer` | core/saasmint_core/services/billing.py:290-316 | Releases at Stripe and clears the mirror, both or, without an active row, neither |
| `BillingRequests.Billing.GetActiveForCustomer` | apps/billing/repositories.py:140-154 | A latest active row of the customer, also when there are several |
| `BillingRequests.Billing.UpdateSeatCount` | core/saasmint_core/services/subscriptions.py:252-295 | Rejects counts below one, is refused under a live schedule, and otherwise mirrors the count |
| `BillingRequests.RefusedIff` | core/saasmint_core/services/billing.py:228-249 | Over every run of schedule changes at Stripe, deliveries in any order, other events and requests that load, call and save at steps of their own: the row shows a pending change if and only if the deliveries it reflects hold a schedule the mirror can read and no clearing after it, and a cancellation would be refused if and only if the last event emitted set a schedule and the row the request loaded reflects none such |
| `BillingRequests.CancelAnswers` | core/saasmint_core/services/billing.py:225-262 | A cancellation is refused exactly while a schedule is live that the loaded row does not show, and then changes nothing; otherwise no live schedule is left and the response is on its way to be saved with the row as loaded |
| `BillingRequests.CancelIsVisible` | core/saasmint_core/services/billing.py:345-376 | The next read sees the cancel state of the response; an unknown status keeps the old one; every other column is as it was |
| `BillingRequests.CancelSettles` | core/saasmint_core/services/billing.py:225-226 | After a cancellation the sync and the released event, in either order, leave the same row: what the sync says, with nothing pending |
| `PlanChange.StripeSubscription.ChangePlan` | core/saasmint_core/services/subscriptions.py:36-104 | In fields of the subscription: an applied change leaves the new price with the requested or else the old quantity and no schedule, a deferred one today's price and two phases meeting at the period end, a failed one at most drops a pending schedule; deferred only if the new amount is below the current one; modify and schedule creation are never refused for an attached schedule |
| `PlanChange.ChangeMeans` | core/saasmint_core/services/subscriptions.py:68-146 | The same of the function the methods are proved against, outcome by outcome and for every quantity |
| `PlanChange.ChangeOutcome` | core/saasmint_core/services/subscriptions.py:68-104 | A change is applied exactly if the new amount is not known to be below the current one and both prices are known in one currency; deferred exactly if it is, the new price is known, both period ends can be read and the currencies do not differ; without a period exactly if it is and one cannot be read |
| `PlanChange.StripeSubscription.ApplyImmediatePlanChange` | core/saasmint_core/services/subscriptions.py:107-146 | Releases a schedule before modifying |
| `PlanChange.StripeSubscription.ScheduleDowngradeAtPeriodEnd` | core/saasmint_core/services/subscriptions.py:174-249 | Writes two phases meeting at the period end into the one schedule, or reports a missing period or clashing currencies and changes nothing |
| `PlanChange.PeriodReadersAgree` | core/saasmint_core/services/subscriptions.py:149-171 | The period reader here and the webhook one agree except exactly on an explicit null in the item with a period on the subscription |
| `PlanChange.SeatsSurvive` | core/saasmint_core/services/subscriptions.py:68-146 | Over every run of plan switches without a quantity, and period ends, the seats stay the same in the item and in both phases of a schedule, which starts at today's price and meets at the period end |
| `PlanChange.PriceInForce` | core/saasmint_core/services/subscriptions.py:68-146 | Over every run of plan switches and period ends the item is at the price of the last switch that took effect, and a schedule waits exactly for a deferred one that nothing later replaced or dropped |
| `PlanChange.RejectedChangeDropsSchedule` | core/saasmint_core/services/subscriptions.py:107-146 | A rejected switch leaves the subscription alone if and only if none was scheduled or the switch was a downgrade; a rejected immediate switch drops the pending schedule |
| `PlanChange.ParseWrittenSchedule` | core/saasmint_core/services/webhooks.py:388-426 | Parsing the phases as written returns the new price and the period end |
| `PlanChange.DeferralIsMirrored` | core/saasmint_core/services/webhooks.py:429-496 | A deferred switch, delivered as a schedule event, becomes exactly the new plan at the period end in the mirror |
| `PlanChange.DearerPlanIsDowngradeIff` | apps/billing/views.py:292-314 | A switch to an equal or dearer USD plan counts as a downgrade, under one rate snapshot, if and only if the current price converts to nothing and the wanted one into (0, 0.24] of a two-decimal currency |
| `PlanChange.DearerPlanNeverDeferred` | core/saasmint_core/services/subscriptions.py:68-104 | With a positive rate and a current plan that costs something such a switch is never deferred, in any currency |
| `Currency.StandardRounding` | core/saasmint_core/services/currency.py:51-78 | For two-decimal currencies the result is the nearest of all .49/.99 prices, the lower on a tie, within 0.25; the fourth option never wins |
| `Currency.StandardPositive` | core/saasmint_core/services/currency.py:51-78 | The snapped price is positive exactly above 0.24 |
| `Currency.ZeroDecimalRounding` | core/saasmint_core/services/currency.py:51-78 | For zero-decimal currencies the result is a multiple of the step within half a step, an exact half going to the even multiple |
| `Currency.ZeroDecimalMonotone` | core/saasmint_core/services/currency.py:51-78 | Order is kept across the step switch at 1000 |
| `Currency.Idempotent` | core/saasmint_core/services/currency.py:51-78 | Rounding twice is rounding once if and only if the currency is zero-decimal or the amount is not in (0, 0.24] |
| `Currency.Monotone` | core/saasmint_core/services/currency.py:51-78 | Order is kept if and only if it is not zero-or-less against an amount in (0, 0.24] of a two-decimal currency |
| `Currency.StandardMinorUnits` | apps/billing/tasks.py:25-41 | Every stored two-decimal amount is 49 modulo 50 |
| `Currency.MinorUnitsNearest` | apps/billing/tasks.py:25-41 | Minor units are the nearest whole number of them, a half going away from zero |
| `Currency.MinorUnitsExact` | apps/billing/tasks.py:25-41 | Converting a rounded price to minor units and back gives the price |
| `Currency.FormatRoundTrip` | core/saasmint_core/services/currency.py:41-48 | Formatting an integer amount and converting it back returns it, for every integer and currency |
| `Currency.LocalizeKeepsOrder` | apps/billing/tasks.py:95-107 | Under one rate a dearer USD price is never cheaper locally, with exactly one exception |
| `Currency.LocalizedAmount` | apps/billing/tasks.py:95-107 | What is stored for a USD amount: nothing for nothing; in a two-decimal currency an amount ending in 49 or 99 within a quarter of a unit of the converted one; in a zero-decimal one a multiple of 10 within 5, or of 100 within 50 from a thousand on |
| `LocalizedPrices.PriceTable.ComputeNewAmounts` | apps/billing/tasks.py:95-107 | The rounded amount of every supported, quoted currency but USD |
| `LocalizedPrices.PriceTable.Buckets` | apps/billing/tasks.py:171-190 | The buckets built in one pass hold for each owner exactly its rows by currency |
| `LocalizedPrices.PriceTable.UpsertForPrice` | apps/billing/tasks.py:109-169 | One price is split into rows to create, to change and to touch, every pair in exactly one list |
| `LocalizedPrices.PriceTable.UpsertSource` | apps/billing/tasks.py:196-220 | One source table is accounted for, pair by pair, and the running count is creations plus changes |
| `LocalizedPrices.PriceTable.BulkCreate` | apps/billing/tasks.py:222-227 | The inserted rows are the listed ones under new ids |
| `LocalizedPrices.PriceTable.BulkUpdate` | apps/billing/tasks.py:222-227 | Writing only the named columns gives the listed rows and touches no other |
| `LocalizedPrices.PriceTable.SyncLocalizedPrices` | apps/billing/tasks.py:45-230 | The bucketed two-source run is the pointwise recompute, and returns the number of pairs created or moved; without rates it does nothing |
| `LocalizedPrices.BulkWritesRecompute` | apps/billing/tasks.py:222-227 | Creating, changing and touching the listed rows recomputes the table |
| `LocalizedPrices.ChangedCount` | apps/billing/tasks.py:109-169 | Creations plus changes are as many as the pairs whose stored amount moves |
| `LocalizedPrices.RecomputedPointwise` | apps/billing/tasks.py:45-230 | Afterwards each wanted pair is stored with the wanted amount and no other; an unwanted pair with what it had |
| `LocalizedPrices.RunStores` | apps/billing/tasks.py:45-230 | Row by row: every price has, in every supported and quoted currency but USD, one row with its localized amount synced now; an old row keeps its key and Stripe price, a new one has none |
| `LocalizedPrices.RunLeavesRest` | apps/billing/tasks.py:109-169 | A row of a price that is gone or of a currency no longer quoted is left alone, and none is added |
| `LocalizedPrices.SecondRunIsHeartbeat` | apps/billing/tasks.py:109-169 | A second run under the same rates moves no pair, adds no row, and changes nothing but synced_at |
| `LocalizedPrices.StoredPricesKeepOrder` | apps/billing/tasks.py:45-230 | After a run two prices are in their USD order in a quoted currency, except exactly when the cheaper converts to nothing and the dearer into (0, 0.24] of a two-decimal currency |
| `CatalogSync.PrefetchedRun` | apps/billing/management/commands/sync_stripe_catalog.py:210-268 | With distinct keys and columns the loop never invalidates the prefetched entries it has yet to use, and each job done has one price holding its key, matching it, with its column there |
| `CatalogSync.PrefetchMatchesFresh` | apps/billing/management/commands/sync_stripe_catalog.py:95-110 | Same prices, ids, columns and rewrites as with a lookup of its own before every upsert |
| `CatalogSync.PrefetchIsFresh` | apps/billing/management/commands/sync_stripe_catalog.py:95-110 | The whole account, products included, when jobs that share a Stripe product ask for the same name, description and metadata |
| `CatalogSync.MemorySuffices` | apps/billing/management/commands/sync_stripe_catalog.py:286-315 | Syncing a product from what was remembered of it does what syncing it from what it is would do, after any syncs that asked for the same |
| `CatalogSync.SecondRunCreatesNothing` | apps/billing/management/commands/sync_stripe_catalog.py:318-359 | Run again on its own result it creates no Product and no Price and rewrites no id column |
| `CatalogSync.UpsertHolder` | apps/billing/management/commands/sync_stripe_catalog.py:210-268 | After an upsert exactly one price holds the key, and its amount, currency and interval equal those asked for |
| `CatalogSync.UpsertCreatesIff` | apps/billing/management/commands/sync_stripe_catalog.py:226-268 | A price is created if and only if no holder of the key has the amount, the currency and the interval; if one has, no price changes |
| `CatalogSync.UpsertStands` | apps/billing/management/commands/sync_stripe_catalog.py:210-268 | The price returned is the only one with the key, and has that amount, currency and interval |
| `CatalogSync.UpsertCreates` | apps/billing/management/commands/sync_stripe_catalog.py:230-268 | A created price is active, has the metadata asked for, and belongs to the former holder's product or to a new one with the name, description and metadata asked for; the former holder is archived without its key; every other price is as it was |
| `CatalogSync.UpsertDescribes` | apps/billing/management/commands/sync_stripe_catalog.py:230-250 | The products after an upsert on a fetched product: description and metadata as asked, the name too exactly when the price fits; no other product is touched |
| `CatalogSync.LabelsIdentify` | apps/billing/management/commands/sync_stripe_catalog.py:128-163 | The metadata written to a Stripe product or price tells which local row it mirrors; name and description are that row's |
| `CatalogSync.UpsertOtherKey` | apps/billing/management/commands/sync_stripe_catalog.py:210-268 | An upsert leaves the price of every other key as it was |
| `CatalogSync.UpsertActive` | apps/billing/management/commands/sync_stripe_catalog.py:270-284 | The price standing for a job is active if and only if it is not a matching price that was archived before |
| `CatalogSync.ProductBroughtInLine` | apps/billing/management/commands/sync_stripe_catalog.py:286-315 | A known product is brought in line field by field; on a price change, where only its id is known, it keeps its old name, which is right exactly when the name had not changed |
| `CatalogSync.PlanKeyInjective` | apps/billing/management/commands/sync_stripe_catalog.py:45-48 | A plan key determines context, tier, interval and currency |
| `CatalogSync.PlanAndPackKeysDiffer` | apps/billing/management/commands/sync_stripe_catalog.py:41-53 | No plan key is a product key |
| `CatalogSync.SlugOfWords` | apps/billing/management/commands/sync_stripe_catalog.py:41-42 | The slug of a name, cut into words of letters and digits and the gaps between them, is its words in lower case joined by underscores |
| `CatalogSync.PackKeysEqualIff` | apps/billing/management/commands/sync_stripe_catalog.py:51-53 | For currency codes of three letters two product keys are equal if and only if the currencies and slugs are, or one is in USD and its slug is the other's followed by the other's currency |
| `CatalogSync.PackKeysCollide` | apps/billing/management/commands/sync_stripe_catalog.py:51-53 | A product named like another one followed by a currency is such a case |
| `CatalogSync.JobsDistinctIff` | apps/billing/management/commands/sync_stripe_catalog.py:114-170 | Over the rows the tables allow (one active plan per context, tier and interval, one price row each) and currencies listed once, the lookup keys and columns of a run are distinct if and only if no two synced products collide |
| `CatalogSync.RunsDoneIff` | apps/billing/management/commands/sync_stripe_catalog.py:59-77 | Over such rows every run, from whatever account and a map agreeing with it, ends with every job in line if and only if no two synced products collide |
| `CatalogSync.RunsServedIff` | apps/billing/management/commands/sync_stripe_catalog.py:59-77 | The same with the three equalities: every run leaves for each job one price with its key, amount, currency and interval, and its column there, if and only if no two synced products collide |
| `CatalogSync.CatalogServed` | apps/billing/management/commands/sync_stripe_catalog.py:59-77 | What a finished run means for the catalog: in every currency a plan or product costs something in, a price under its key with that amount, that currency and its interval, named by its column |
| `CatalogSync.InLineMeans` | apps/billing/management/commands/sync_stripe_catalog.py:270-284 | A job is in line if and only if a price with its key has its amount, currency and interval and its column names it |
| `CatalogSync.KeysRead` | apps/billing/management/commands/sync_stripe_catalog.py:41-53 | How the keys read, letter by letter, with and without a currency |
| `CatalogSync.AlwaysDoneIff` | apps/billing/management/commands/sync_stripe_catalog.py:210-268 | The same for any list of jobs with distinct columns: every run is good if and only if the keys are distinct |
| `CatalogSync.SharedKeyFails` | apps/billing/management/commands/sync_stripe_catalog.py:210-268 | A run that is not: over an empty account the earlier of two jobs with one key is left pointing at a price that lost it |
| `CatalogSync.JobKeysWanted` | apps/billing/management/commands/sync_stripe_catalog.py:79-93 | Every key an upsert asks for was collected for the fetch |
| `CatalogSync.HoldersBounded` | apps/billing/management/commands/sync_stripe_catalog.py:95-110 | A batch of keys has no more prices than keys, so a page of ten never cuts off a batch of ten |
| `CatalogSync.Command.ListPrices` | apps/billing/management/commands/sync_stripe_catalog.py:95-110 | The list call returns current prices of the keys, and all of them if the limit is no smaller than the number of keys |
| `CatalogSync.Command.BulkFetchExisting` | apps/billing/management/commands/sync_stripe_catalog.py:95-110 | The batched fetch holds for each key what a lookup of it would find |
| `CatalogSync.Command.CollectLookupKeys` | apps/billing/management/commands/sync_stripe_catalog.py:79-93 | Every plan and product in every currency |
| `CatalogSync.Command.SyncStripeProduct` | apps/billing/management/commands/sync_stripe_catalog.py:286-315 | Only the differing fields are sent; the resulting account |
| `CatalogSync.Command.UpsertPrice` | apps/billing/management/commands/sync_stripe_catalog.py:210-268 | Reuse on a match; archive, then create under the transferred key otherwise; create both when nothing holds the key |
| `CatalogSync.Command.WritePriceId` | apps/billing/management/commands/sync_stripe_catalog.py:318-359 | The column, if there is one, points at the id afterwards; no other column changes; a write is counted if and only if it changes something |
| `CatalogSync.Command.SyncPlans` | apps/billing/management/commands/sync_stripe_catalog.py:114-141 | One currency of plans as the run over its jobs |
| `CatalogSync.Command.SyncProducts` | apps/billing/management/commands/sync_stripe_catalog.py:145-170 | One currency of products as the run over its jobs |
| `CatalogSync.Command.Handle` | apps/billing/management/commands/sync_stripe_catalog.py:59-77 | The whole command is the run over all jobs from a map that agrees with the account at the start; over a sound catalog without colliding products every job ends in line |
| `Credits.RunBalanced` | apps/billing/services.py:38-68 | Over any sequence of deliveries every owner's balance is the sum of their ledger rows, and owners without rows have no balance row |
| `Credits.RunGrantsFirst` | apps/billing/services.py:38-68 | Each session is granted exactly once, by the first of its deliveries that resolves |
| `Credits.SameSetSameState` | apps/billing/services.py:84-135 | Duplicates and reordering change nothing when deliveries of one session agree |
| `Credits.OrderIrrelevantIff` | apps/billing/services.py:84-135 | The final state depends only on the set of deliveries if and only if deliveries of one session that resolve ask for the same grant |
| `Credits.CreditStore.GrantCreditsForSession` | apps/billing/services.py:22-68 | Rejects a wrong owner or amount without effect, reports a duplicate session without effect, otherwise inserts and adds |
| `Credits.CreditStore.OnProductCheckoutCompleted` | apps/billing/services.py:71-137 | Which deliveries resolve to which grant, and the resulting state |
| `Credits.DeliveryEffect` | apps/billing/services.py:84-135 | A delivery on a session not seen before, for a product with positive credits, adds exactly these to the balance of the known org it names, or of its known user when it names none, with one ledger row; no other balance moves, and in every other case nothing changes |
| `Credits.BalanceIsEarned` | apps/billing/services.py:84-135 | Over any deliveries an owner's balance is the sum of the credits of the distinct sessions bought for that owner |
| `Credits.LedgerHoldsBought` | apps/billing/services.py:38-68 | A session is in the ledger if and only if some delivery of it bought something |
| `OneTimeTokens.AtMostOneWinner` | apps/users/authentication.py:154-216 | Over every interleaving of read and update steps a token is consumed at most once, before its expiry, for the user it was issued to |
| `OneTimeTokens.StampedIffConsumed` | apps/users/authentication.py:171-216 | No redemption is lost: without a newer link for its user, a token is stamped if and only if some redeemer consumed it, only one did, and the stamp is its clock |
| `OneTimeTokens.DeadStaysDead` | apps/users/authentication.py:171-216 | used_at is written once over every run, and a dead token is never consumed again |
| `OneTimeTokens.InvalidatedNeverWins` | apps/users/auth_views.py:259-263 | Asking for a new link kills every earlier one, also for redeemers already past their checks |
| `OneTimeTokens.CleanupInvisible` | apps/users/tasks.py:44-70 | The cleanup deletes exactly the rows expired before its clock, and no redeemer reading later can tell |
| `OneTimeTokens.TokenTable.ConditionalUpdate` | apps/users/authentication.py:196-203 | The update changes one row exactly when the token is unused and unexpired |
| `OneTimeTokens.TokenTable.ConsumeOneTimeToken` | apps/users/authentication.py:154-216 | An undisturbed redemption is the two steps in a row |
| `OAuthExchange.AtMostOneRedeemer` | apps/users/auth_views.py:583-611 | Over every timed interleaving of cache calls, whatever other codes anybody presents and even if a caller stalls past the sentinel's lifetime, a code is redeemed at most once, for the pair stored under it, as long as nobody presents that code with ":consumed" appended |
| `OAuthExchange.OnceIff` | apps/users/auth_views.py:583-611 | The exact condition: the guarantee for a code holds in every run over a set of presented codes if and only if the set does not hold both the code and the code with ":consumed" appended |
| `OAuthExchange.UndisturbedCall` | apps/users/auth_views.py:594-611 | In keys and seconds: a caller that finds no live sentinel gets the pair if it is alive, deletes it and leaves a sentinel for sixty seconds; one that finds it changes nothing |
| `OAuthExchange.CodeLivesAMinute` | apps/users/auth_views.py:583-611 | A code called alone with no claim standing gives its pair exactly within sixty seconds of being stored |
| `OAuthExchange.StepInvariant` | apps/users/auth_views.py:594-611 | Each cache call, for whatever code, keeps the reason for one code: a claim that could still find it is backed by its sentinel |
| `OAuthExchange.KeysApart` | apps/users/auth_views.py:604-605 | A code's key can never be a sentinel if and only if the code does not end in ":consumed" |
| `OAuthExchange.SentinelPresentedAsCode` | apps/users/auth_views.py:604-611 | For every code a run in which two callers get its pair, because the appended code was presented |
| `OAuthExchange.ExchangeCache.CacheAdd` | apps/users/auth_views.py:606-607 | Sets the key only when it is not alive |
| `OAuthExchange.ExchangeCache.StoreOAuthExchange` | apps/users/auth_views.py:583-591 | Stores the pair with the lifetime of the sentinel |
| `OAuthExchange.ExchangeCache.ConsumeOAuthExchange` | apps/users/auth_views.py:594-611 | Undisturbed, it returns the pair exactly when the code is alive and unclaimed, and leaves the sentinel standing and the code gone |
| `RefreshTokens.OneLiveTokenPerLogin` | apps/users/authentication.py:87-121 | Over every run a login has at most one unrevoked token, the one no rotation has replaced, and it belongs to the user who logged in |
| `RefreshTokens.RotatesOnce` | apps/users/authentication.py:116-121 | No raw token rotates successfully twice in a run |
| `RefreshTokens.DeadStaysDead` | apps/users/authentication.py:124-136 | Revocation is permanent and its time is written once |
| `RefreshTokens.LogoutEndsOne` | apps/users/authentication.py:124-129 | After a logout its token never rotates again; every other token's row is as it was |
| `RefreshTokens.ReplayEndsSessions` | apps/users/authentication.py:100-105 | Replaying a dead token leaves its user without an unrevoked token if and only if its row is still there or there was none anyway; other users keep theirs |
| `RefreshTokens.JudgeMeans` | apps/users/authentication.py:90-115 | Each answer to a presented token, exactly when: unknown, revoked, expired, user inactive, rotated |
| `RefreshTokens.ChangeLeavesOne` | apps/users/auth_views.py:409-423 | A password change or reset leaves exactly the fresh token |
| `RefreshTokens.ChangeEndsSessions` | apps/users/auth_views.py:377-394 | No token issued before it rotates at any later point of any run |
| `RefreshTokens.IssuedTokenRotates` | apps/users/authentication.py:76-121 | A token just issued, at sign-in, rotation or password change, rotates for an active user exactly within seven days |
| `RefreshTokens.CleanupInvisible` | apps/users/tasks.py:74-78 | Deleting expired rows changes no later rotation from success to failure or back |
| `RefreshTokens.OthersDoNotInterfere` | apps/users/authentication.py:87-136 | An unrevoked token survives every run of steps about other users |
| `RefreshTokens.RefreshTokenTable.RotateRefreshToken` | apps/users/authentication.py:87-121 | The four refusals in their order, reuse detection, and revoke-then-issue |
| `RefreshTokens.RefreshTokenTable.RevokeRefreshToken` | apps/users/authentication.py:124-129 | Logout revokes the one token if it was not revoked |
| `RefreshTokens.RefreshTokenTable.RevokeAllRefreshTokens` | apps/users/authentication.py:132-136 | No token of the user is unrevoked afterwards; a token revoked earlier keeps its time, and nothing else changes |
| `RefreshTokens.RefreshTokenTable.CreateRefreshToken` | apps/users/authentication.py:76-84 | One row more, unrevoked and expiring seven days on; no other row changes |
| `RefreshTokens.RefreshTokenTable.ReplaceAllTokens` | apps/users/auth_views.py:390-394 | Revoke all, then issue, is the password-change step |
| `RefreshTokens.RefreshTokenTable.DeleteExpiredRows` | apps/users/tasks.py:44-70 | Batches of any choice delete exactly the expired rows |
| `Seats.MembersWithinSeats` | apps/orgs/services.py:338-375 | Over every interleaving of requests the members never exceed the paid seats |
| `Seats.ReservationsStep` | apps/orgs/views.py:469-491 | From a state where members and open invitations fit the seats, a step breaks that if and only if it lowers the seats under them, or accepts an invitation that stopped being pending when no unreserved seat is left |
| `Seats.ReservationsHold` | apps/orgs/views.py:469-491 | Over every run without those two steps members and open invitations together stay within the seats |
| `Seats.PendingInviteeGetsIn` | apps/orgs/services.py:338-375 | After such a run whoever holds a pending, unexpired invitation and has no account is let in |
| `Seats.CancelledYetAccepted` | apps/orgs/views.py:498-507 | A run that does break it: the invitation is cancelled while its acceptance is under way |
| `Seats.StepAccounted` | apps/orgs/services.py:366-375 | From a state where accepted invitations made one member each and others none, a step breaks that if and only if a request that found its invitation pending writes another status, or another member, after it was accepted |
| `Seats.AcceptedOnceEach` | apps/orgs/services.py:308-375 | After a run every accepted invitation has made exactly one member and no other any, if and only if the run has no such step; otherwise some invitation has made too many |
| `Seats.JoinsTwice` | apps/orgs/services.py:358-375 | Otherwise one invitation can make two members, one after the other |
| `Seats.MembersConserved` | apps/orgs/services.py:308-375 | Over every run, members at the end and those gone are members at the start and joins |
| `Seats.OrgSeats.ValidateSeatLimit` | apps/orgs/views.py:469-491 | Refuses exactly when members and open invitations fill the seats |
| `Seats.OrgSeats.CheckInvitee` | apps/orgs/views.py:424-434 | The checks before the transaction: no account and no pending invitation |
| `Seats.OrgSeats.CommitInvitation` | apps/orgs/views.py:437-449 | The transaction: refused when the seats are taken or promised, or by the index over pending invitations; registration is not read again |
| `Seats.OrgSeats.CreateInvitation` | apps/orgs/views.py:412-466 | An undisturbed request is those two steps; each refusal has its reason, in order, and the index never has to step in |
| `Seats.OrgSeats.AcceptInvitation` | apps/orgs/views.py:567-603 | An undisturbed acceptance: who is let in, each refusal, and the expiry mark |
| `Seats.OrgSeats.DeclineInvitation` | apps/orgs/views.py:613-622 | Not found unless pending, refused unless addressed to the caller, declined otherwise |
| `Seats.OrgSeats.CancelInvitation` | apps/orgs/views.py:498-507 | Not found unless pending; otherwise that invitation is cancelled and nothing else changes |
| `Seats.OrgSeats.UpdateSeats` | apps/billing/views.py:332-345 | Refused exactly when the seats would drop below the members; open invitations are not looked at |
| `Ownership.OwnershipHolds` | apps/orgs/models.py:56-80 | Over every run an organisation has at most one owner, a user owns at most one organisation, and every owner is a billing member |
| `Ownership.OwnersAfter` | apps/orgs/views.py:339-362 | Who can own what after a step: a new organisation's creator, the target of a transfer by the owner, or whoever did before |
| `Ownership.OwnershipIsHandedOver` | apps/orgs/views.py:339-362 | Over every run an owner of an existing organisation who did not own it at the start was made owner by a transfer of its owner of that moment, one that went through and ended that ownership |
| `Ownership.OwnerlessForever` | apps/orgs/views.py:285-316 | An organisation without an owner never gets one again |
| `Ownership.DeletionMeans` | apps/orgs/services.py:397-437 | What a deleted account and a deleted organisation take with them: memberships, accounts, customers; everything else stays |
| `Ownership.TransferCommitsIff` | apps/orgs/models.py:63-67 | The database refuses a permitted transfer exactly when the target owns another organisation |
| `Ownership.CreateCommitsIff` | apps/orgs/services.py:236-253 | It refuses a new organisation exactly when the creator owns one |
| `Ownership.AcceptCommits` | apps/orgs/services.py:358-365 | An invited member is never refused by the database, and belongs to that organisation alone |
| `Ownership.AcceptMeans` | apps/orgs/services.py:358-375 | An acceptance makes the account with its one membership, for a known organisation and an invitee without an account; otherwise nothing happens |
| `Ownership.PatchCommits` | apps/orgs/views.py:242-269 | A permitted role change is never refused by the database, lifts nobody to the caller's rank and leaves the caller as they were |
| `Ownership.TransferIdempotent` | apps/orgs/views.py:339-362 | Replaying a transfer changes nothing; after a success the caller is no longer permitted to ask |
| `Ownership.ThereAndBack` | apps/orgs/views.py:353-362 | A transfer and its reverse restore the table if and only if the target had no billing right to lose |
| `Ownership.CreateRedelivered` | apps/orgs/services.py:222-234 | A second delivery of the creating webhook changes nothing |
| `Ownership.MemberTable.CreateOrgWithOwner` | apps/orgs/services.py:198-255 | Returns the existing organisation on redelivery, fails exactly when the creator owns one or the customer id is taken, otherwise creates |
| `Ownership.MemberTable.UpdateMember` | apps/orgs/views.py:242-269 | Permitted exactly by the rank rules; each refusal |
| `Ownership.MemberTable.TransferOwnership` | apps/orgs/views.py:339-362 | Succeeds exactly for an owner's transfer to an admin who owns nothing else; owner and former owner afterwards |
| `Ownership.MemberTable.RemoveMember` | apps/orgs/views.py:285-316 | Deletes the account and all memberships of a lower-ranked member, never of an owner |

## Left out

- HTTP views, serializers, throttles, admin, email, Celery transport, logging, settings and authentication of requests.
- The Stripe SDK beyond the rules used: a live schedule pins its subscription, one schedule per subscription, a lookup key held by one price and moved by a transfer, metadata merged on update. Responses to cancel and resume are parameters.
- Clocks, random tokens and primary keys are parameters or counters; hashing is taken as injective and raw tokens as fresh.
- IEEE-754 rounding error: `Currency` computes in exact reals.
- Unicode: strings are sequences of characters, currency codes are lower-cased as ASCII, and a numbered slug is one with ASCII digits. Django's own `slugify` is not part of this model; the slug base is proved well formed for whatever it returns.
- Database isolation between transactions: each handler, each locked transaction and each single statement is a step. Refresh rotation, ownership transfer and the seat-reduction check take no lock in the program and are single steps here.
- The deletion callback that removes an organisation after its subscription is deleted, and the routing of checkout events.
- Local plans without a Stripe id in the mirror, and an IntegrityError of a unique Stripe id column.
- Credit balances, catalog rows and uploaded images in the organisation cascade; the tables modelled are users, orgs, memberships, invitations, customers and subscriptions.
- The exchange-rate bootstrap inside the catalog sync: the localized amounts are an input.
- "Exactly one owner": an account deletion can leave an organisation without an owner, so at most one is what holds.
- "Canceled is final": a late update event rewrites the status of a cancelled row.
- Seat limits lowered from outside, through a webhook or the billing portal, and the minimum seat count of a plan.
- Order of rows with equal timestamps: lookups of the latest row may return any of them.
- OAuthExchange.AtMostOneRedeemer: says nothing of a code once somebody presents it with ":consumed" appended, because it is then false (OnceIff), nor of a code that itself ends so, which is never issued.
- OrgDeletion.FoldIsBatch: assumes the customers' check constraint of the database; OrgDeletion.CancelsMatchFold and OrgDeletion.BatchRefinesSingles also that a subscription repeats its customer's user, as the mirror writes it.
- CatalogSync.PrefetchIsFresh: assumes that jobs sharing a Stripe product ask the same of it; without that, PrefetchMatchesFresh gives everything but the product contents.
- CatalogSync.PackKeysEqualIff: for currency codes of three letters, as all supported ones are; CatalogSync.PrefetchedRun takes distinct keys and columns as given, and JobsDistinctIff says when a run has them.
- PlanChange.DearerPlanIsDowngradeIff: one rate snapshot for both prices.
- Seats.OrgSeats.UpdateSeats: the check and the Stripe call are one step.
- LocalizedPrices.PriceTable.SyncLocalizedPrices: rows held in memory during the run are values, so two rows loaded for one key cannot alias.
