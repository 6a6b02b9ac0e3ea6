# Verified model of the Bitcoin name marketplace server

A Dafny 4.11 model of the server in which sellers list names (inscriptions held
in canister pools), buyers buy them through partially signed transactions, and a
poller applies or rolls back what the canister decides. `dafny verify
dfyconfig.toml` checks the whole project.

The model has two layers. Functions on values (`Tables`, `Rankings`,
`EventHandling`, `TradingRules`, `Runs`) give the meaning of every operation.
Classes (`Postgres`, `Redis`, `EventService`, `TradingService`, `Poller`,
`Connection`, `AtomicCounter`, `AuthService`) perform the same steps in place, and
each method is proved to do exactly what its function says. The theorems are
about the functions and about whole runs of them.

| file | contents |
|---|---|
| Domain, Tables, SortedSets, Rankings, Pricing, Sums | entities, stores, ordered sets, arithmetic |
| Queries, BasePrices | what each query over the history returns, record by record; the base price of list and relist |
| Validators, TradingRules, EventHandling, Refusals | acceptance of requests, optimistic effects, rollbacks, which error refuses what |
| PostgresStore, EventServices, Trading | the stores and services as objects |
| Runs, Invariants, Acceptance, TradePreservation, StatusPreservation, Reachability | the state machine, its invariant and the proof that every step keeps it |
| MarketTheorems, MoneyTheorems, UserTheorems | results about whole runs: rollbacks, prices and fees, primary names and points |
| TradeEffects, RankingOrder, DealStream, NewListingStream | what a trade leaves behind in terms of the request, what rankings rank by, what subscribers of the deltas see |
| RollbackLimits | what a rollback does to any market, delivered in any order or again |
| RunExamples, ReplayExamples, RebuildExamples, EarnerExamples | concrete runs that miss what one would expect |
| Interleaving | handlers of different names interleaved store call by store call; sales of one seller at once |
| Custody | where the inscription's sats are, first in, first out, with trades that never reach the chain |
| Rebuild, RebuildTotals | the startup rebuild of the rankings; its totals against the running ones |
| Polling, PollingHistory, PollerMarket, PollingExamples | the event consumer with crashes and restarts, its effect on the trade history and on the listings, a concrete run |
| Connections, OnlineCounter | one WebSocket connection; any number of them on the shared counter |
| Sessions, AuthServices, SignIn | interleaved logins over an expiring store, the service, the sign-in message |
| Inventory, TxFees | user inventories, transaction fees |

## What the runs assume

A run (`Runs.IsRun`) starts with no listings, no history and empty rankings, over
any users and pools, and interleaves logins, primary-name changes, the five
trading operations and status events in any order. The guards of
`Runs.Admissible`, all of them facts about the environment, are:

- handlers run to their end one at a time (`Interleaving` shows what remains
  when handlers of different names interleave), and store calls succeed (except
  the lookup of the last bought price, whose failure the service handles); every
  canister call succeeds or fails freely;
- a trading caller has a user row, because it has a session;
- the transaction id of a request is new;
- what a PSBT claims input 0 is worth (BIP 174, section "Specification",
  PSBT_IN_NON_WITNESS_UTXO and PSBT_IN_WITNESS_UTXO) is what the known transaction pays;
- the canister does not accept a list of a name that is listed;
- rejections of one name arrive newest first, once each. `RollbackLimits` proves
  for every market what happens without this guard.

`Custody` adds: an arbitrary set of the trades the canister takes never reaches
the chain, and only those are ever rejected; a transaction on chain spends
existing, unspent outputs; pool outputs on chain move only through a trade of
their own name; the ord backend never places an inscription where it is not.
`Polling` and `Sessions` state their own guards in `Enabled`: an address has at
most one login in flight, and ids are fresh.

## Where the code differs from its intent

Each of these has a concrete instance and an exact condition over all inputs.

- `RunExamples.OutOfOrderFails`: two purchases rejected oldest first leave the
  listing with the first buyer. `RollbackLimits.OutOfOrderIff` says exactly when
  oldest first restores the holding, `OrderMattersIff` when both orders leave the
  same row.
- `RunExamples.ReplayFails`, `ReplayExamples.SpoiledIdFails`: a rejection
  delivered again after the name was listed again removes the new listing, or
  leaves it with its seller and price but under the rejected transaction, so that
  every delist and purchase accepted before is refused; `RollbackLimits.ReplayHarmlessIff`.
- `ReplayExamples.StaleDealFails`: the replayed rejection of an exit writes no row
  for a listed name, but advertises its old price; `RollbackLimits.RollbackIndexIff`.
- `ReplayExamples.ReturnedRun`, `MarketTheorems.RolledBackRow`: a rollback never
  restores the transaction id.
  `Custody.ListedInscriptionsAreHeld` and `HeldUnlessRejected` say exactly which
  listed names are where their listing says, and `Custody.StuckAfterRejection` that
  no trade of the name reaches the chain before a new list of it.
- `RunExamples.NewListingsDeltaFails`: after a rejected purchase the last
  new-listings delta is a removal although Redis ranks the name;
  `RollbackLimits.NewListingsDeltaIff`.
- `PollingExamples.SkippedReplayLeavesOldStatus`: when the stored offset cannot be
  read, a crash inside the replay followed by a restart from the stored offset
  leaves an outdated status; `PollingHistory.SkippedRangeHarmlessIff`.
- `RunExamples.FullDiscountFails`, `RebuildExamples.TooGoodDealFails`: the running
  market never advertises a discount above 0.990; a rebuild advertises 1.0 for a
  name that has only been listed, and 0.992 for one relisted twice.
  `Rebuild.RebuiltWithinBoundIff` says exactly when a rebuild stays within 0.990,
  `Rebuild.FullDiscountIff` when it shows 1.0.
- `RebuildExamples.RebuiltEarnerFails`: after one sale the running top_earners
  score is 10,000 and the rebuilt one 70,000; `RebuildTotals.EarnersAgreeIff`, and
  `RebuildTotals.TradedAgreeIff` for most_traded.
- `EarnerExamples.EarnerRaceFails`: two sales of one seller handled at once leave
  a score of 10,000 for 25,000 earned; `Interleaving.EarnerRaceIff`.
- `Sessions.OrphanOutlivesLogin`: a login that dies between storing its session
  and adding it to the set leaves a session that later logins do not see;
  `Sessions.OnlyLogoutRemovesOrphans`, `Sessions.OrphansWereNeverReturned`.

Two more differences follow the code without an instance of their own.

- `SignIn.GeneratedAcceptedIff`: the clock difference wraps around in a release
  build, so a timestamp exactly 2^63 seconds behind the clock also counts as close.
- The buy_and_relist validator checks for two outputs but reads the third
  (src/service/trading_validators/buy_and_relist_validator.rs:19-60); the model
  follows the code, and a missing output is a failed request.

## Model

| member | source | states |
|---|---|---|
| `MarketTheorems.NestedRollback` | src/service/event.rs:465-591 | in every run, rejecting a trade gives its name back the seller, price, inscription sats and presence it had just before that trade was taken, however many trades and relists came in between, and touches no other name |
| `MarketTheorems.TakenOnce` | src/service/trading.rs:138-143 | a transaction id is taken by at most one step of a run |
| `PollerMarket.EventIsStep` | src/service/event.rs:97-133 | the poller's handling of a status event is the status step of a run, and any other event changes nothing |
| `PollerMarket.EventStatus` | src/service/event.rs:135-217 | record by record: an event sets the status of exactly the records of its transaction, to the status it names, and leaves them on a pending one |
| `PollerMarket.BatchListings` | src/service/event.rs:97-217 | for any market, a polled batch writes into the listings the rollbacks of the known records it rejects, in order, and nothing else |
| `PollerMarket.UnrejectedStays` | src/service/event.rs:97-217 | a name none of whose records the batch rejects keeps its listing through the batch |
| `PollerMarket.RejectedInBatch` | src/service/event.rs:97-217 | for any market, a batch that rejects one record of a name leaves that name with what the record says it replaced, wherever the event stands in the batch |
| `PollerMarket.PolledRun` | src/service/event.rs:60-133 | polling a batch continues the run: every theorem about runs holds of the market the poller leaves |
| `PollerMarket.PolledRejectionRestores` | src/service/event.rs:465-591 | in every run, when the poller handles the rejection of the newest trade of a name, the name is back at what it held before that trade was taken |
| `MarketTheorems.IndexAgreement` | src/service/event.rs:707-765 | in every reachable state best_deals shows exactly the listed names with current price and seller and a discount of at most 0.990; new_listings holds at most 20 names, all of them listed |
| `RankingOrder.RunRanked` | src/infra/redis.rs:575-775 | in every reachable state new_listings rank by listing time, best_deals by discount, most_traded by number of sales and top_earners by profit, each member under its own metadata |
| `RankingOrder.BestDealsAreBest` | src/infra/redis.rs:680-697 | in every run a reader of the best deals gets listed names at their price with falling discounts, and a listed name left out has no higher discount than any shown |
| `TradeEffects.TakenRow` | src/service/event.rs:244-378 | in every run a taken trade leaves exactly the row its request asks for (seller, price, transaction, sats of output 0, time) and adds its pending record; no other row and no older record changes |
| `TradeEffects.TakenDeal` | src/service/event.rs:725-765 | in every run a taken list or buy_and_relist is advertised at its price, with the discount against its base or the price it was bought for; an exit is taken off, and no other deal changes |
| `TradeEffects.TakenNew` | src/service/event.rs:725-751 | a taken list is a new listing if and only if fewer than 20 others rank above it; a sold or exited name is none |
| `TradeEffects.TakenSale` | src/service/event.rs:629-705 | a taken purchase shows the name with its price, seller, buyer and number of sales, and the seller with profit and number of sales; no other trade changes these rankings |
| `EventHandling.AsU32Is` | src/service/event.rs:637 | the 32-bit number of sales is the number modulo 2^32, and itself below 2^32 |
| `TradeEffects.SaleIsBroadcast` | src/service/event.rs:629-705 | every taken purchase is broadcast as a recent sale and as a top sale |
| `TradeEffects.TakenRelist` | src/service/trading.rs:254-335 | in every run a relist that is accepted changes the price of the row and is advertised at it, with the discount against its base; one that is not changes nothing |
| `TradeEffects.RelistEffectIs` | src/service/trading.rs:284-335 | the whole effect of an accepted relist: price, finalized record and advertised deal, nothing else |
| `TradeEffects.AnswerIs` | src/service/trading.rs:217-252 | a caller is answered with success if and only if the trade is taken, with transaction, name, price (0 for a buy_and_delist) and the caller's own address |
| `DealStream.DeltasReproduceDeals` | src/service/event.rs:629-764 | for best_deals, most_traded and top_earners: folding the deltas broadcast since any earlier moment over the rankings of that moment gives the rankings now, item by item |
| `NewListingStream.NewListingsCovered` | src/service/event.rs:707-751 | as long as no purchase is rejected, a subscriber who showed every new listing at some moment and folds the deltas since shows every new listing now, with its item; NewListingsDeltaIff is the other case |
| `MoneyTheorems.PriceBounds` | src/service/trading.rs:889-899 | every listing and record price of a name with m records is at least 55000 and at most 100000 * 1.26^m, and the band it permits is not empty |
| `MoneyTheorems.BandIsNeverEmpty` | src/service/trading.rs:712-728 | in every reachable state, whatever list, relist or a purchase takes as its base, for a listed name or not, is at least 55000 and permits some price |
| `MoneyTheorems.NoOverflowInRuns` | src/service/trading.rs:889-935 | while a name has at most 120 records, listed or not, the u64 products of any base it can be given do not overflow |
| `MoneyTheorems.FeeIsSafe` | src/service/trading.rs:901-937 | the fee of every listed name is defined for every registered buyer (no unwrap fails), lies between one and two percent of the price, and is above 330 and below the price |
| `MoneyTheorems.BuysSettle` | src/service/trading.rs:186-196 | the transaction of every taken buy pays the seller and the collector exactly the listed price between them, the collector the quoted fee |
| `MoneyTheorems.PointsAreFees` | src/service/event.rs:597-627 | in every reachable state the points of all names add up to the platform fees of the taken buys whose seller had a primary name at that moment |
| `UserTheorems.StepAwardsTo` | src/service/event.rs:597-627 | a step changes the points of each name by the fee of its taken purchase if the seller's primary name is that name, and otherwise not |
| `UserTheorems.PointsOfEachName` | src/service/event.rs:597-627 | in every run the points of each name are the sum of the fees of the taken purchases whose seller had it as primary name at that moment |
| `MoneyTheorems.PointsOnlyGrow` | src/infra/postgres.rs:694-699 | no name ever loses points along a run |
| `MoneyTheorems.QuoteNeverRises` | src/service/trading.rs:901-937 | at a fixed price and fixed primary names the quoted fee never rises along a run |
| `UserTheorems.QuoteIs` | src/service/trading.rs:901-937 | in every run the quoted fee of a listed name is 20 thousandths of its price, less one for each level that the points of the seller's and the buyer's primary names have reached |
| `UserTheorems.PrimaryStays` | src/service/auth.rs:129-186 | in every run a user's row stays and the primary name changes only at that user's own request: no login touches it |
| `UserTheorems.PrimaryIsLastAsked` | src/service/auth.rs:129-186 | the primary name is the one the user last asked for |
| `UserTheorems.LoginKeepsUsers` | src/service/auth.rs:129-160 | a login leaves every existing user's primary name as it was and gives a new user none |
| `UserTheorems.PoolAfterStep` | src/infra/postgres.rs:552-580 | the pool of a name is the one last cached for it |
| `MoneyTheorems.AggregatesAgree` | src/service/event.rs:629-705 | in every reachable state the most_traded score of a name is its number of buy records and the top_earners score of a seller is price minus previous price summed over its buy records, through failed invokes and rejections |
| `Reachability.StepKeeps` | src/service/event.rs:135-378 | every request and every status event keeps the invariant of tables, rankings, prices, users and rollback frames |
| `Reachability.RunKeeps` | src/service/event.rs:60-133 | every state of every run satisfies the invariant |
| `Reachability.FailedInvoke` | src/service/trading.rs:245-251 | a trade that is refused, or that the canister refuses, leaves the market exactly as it was |
| `StatusPreservation.RejectStep` | src/service/event.rs:465-591 | rolling back the newest trade of a name keeps the invariant |
| `MarketTheorems.RollbackRestores` | src/service/event.rs:503-591 | a rejection of the newest trade of a name restores the holding remembered when that trade was taken; no other name changes |
| `TradePreservation.StackAfter` | src/service/event.rs:223-378 | after a taken trade the name holds what the trade leaves, above frames that still rebuild every earlier holding |
| `TradePreservation.IndexAfter` | src/service/event.rs:244-378 | a taken trade keeps best_deals and new_listings in agreement with the listings |
| `TradePreservation.AggregatesAfter` | src/service/event.rs:629-705 | a taken trade keeps the most_traded and top_earners scores equal to the counts and sums over the history |
| `RunExamples.RollbackRunExists` | src/service/event.rs:490-501 | a concrete run in which a list is taken and then rejected: the guards of a run and the preconditions of NestedRollback can be met |
| `Acceptance.ListAcceptedIff` | src/service/trading.rs:578-676 | a list is accepted with exactly this record if and only if pool, caller, inscription, signatures, output 0 and price are right |
| `Acceptance.DelistAcceptedIff` | src/service/trading.rs:459-536 | a delist is accepted with exactly this record if and only if the seller asks and the listed output goes back to the seller whole |
| `Acceptance.BuyAndRelistAcceptedIff` | src/service/trading.rs:127-215 | a buy_and_relist is accepted with exactly this record if and only if the listed output is spent whole into the pool, seller and collector are paid exactly, the other inputs are signed and the new price is permitted |
| `Acceptance.BuyAndDelistAcceptedIff` | src/service/trading.rs:337-421 | the same for buy_and_delist, with output 0 to the buyer |
| `Acceptance.RelistAcceptedIff` | src/service/trading.rs:254-282 | a relist takes effect if and only if the seller asks, the price is permitted by the last bought price, the etching fee or the listed price, and the canister agrees |
| `Acceptance.TakenTradeFits` | src/service/trading.rs:578-676 | every taken trade writes a record whose seller, previous price and sats are those of the listing it replaces, and whose transaction pays what the record says |
| `Refusals.ListRefusals` | src/service/trading.rs:578-676 | which error a list is refused with: pool, ownership, inscription, seller, transaction, base, in this order |
| `Refusals.DelistRefusals` | src/service/trading.rs:459-536 | which error a delist is refused with: pool, listing, seller, transaction |
| `Refusals.PurchaseRefusals` | src/service/trading.rs:127-215 | which error a purchase is refused with: pool, buyer, listing, fee, transaction, price |
| `Refusals.RelistRefusals` | src/service/trading.rs:254-282 | which error a relist is refused with: listing, seller, price, and then the canister alone |
| `Acceptance.PreviousPriceIsPriced` | src/service/trading.rs:712-728 | the base price of list and relist is always within the price bounds of its name |
| `BasePrices.PreviousPriceIff` | src/service/trading.rs:712-728 | a price is the base if and only if it is that of the newest buy of either kind, or, without one or when the query fails, the etching price |
| `BasePrices.EtchingPriceIs` | src/service/event.rs:824 | ten times the etching fee wherever that lies between 55000 and 100000, and the nearer end otherwise |
| `BasePrices.TakenListBase` | src/service/trading.rs:578-676 | in every run a taken list asks a price within the band of that base and records the base |
| `BasePrices.RelistBaseIff` | src/service/trading.rs:254-282 | in every run a relist by the seller that the canister agrees to takes effect if and only if its price is within the band of that base, or of the listed price when there is none |
| `Validators.ListValidatorIff` | src/service/trading_validators/list_validator.rs:9-49 | accepts exactly the fully signed transactions that move input 0 whole into output 0 at the pool |
| `Validators.DelistValidatorIff` | src/service/trading_validators/delist_validator.rs:9-55 | accepts exactly the transactions that move the listed output whole back to the seller, with every other input signed |
| `Validators.BuyAndRelistValidatorIff` | src/service/trading_validators/buy_and_relist_validator.rs:9-72 | accepts exactly the transactions that move the listed output whole into the pool and pay seller and collector in outputs 1 and 2, with every other input signed |
| `Validators.BuyAndDelistValidatorIff` | src/service/trading_validators/buy_and_delist_validator.rs:9-64 | the same with output 0 to the buyer |
| `Validators.ClaimsIff` | src/service/trading_validators/mod.rs:99-112 | input 0 is worth what the witness output says, and only without one what the spent output of the full transaction says |
| `Pricing.PriceAcceptedIff` | src/service/trading.rs:889-899 | without rounding: a price is permitted if and only if it is at least 55000, at most 1.26 times the base, and 10000 times its successor exceeds 126 times the base |
| `Pricing.BandIsNonEmpty` | src/service/trading.rs:889-899 | from any base of at least 55000 both ends of the band are permitted |
| `Pricing.GrowthStep` | src/service/trading.rs:889-899 | an accepted price keeps the bound 100000 * 1.26^m with m one larger |
| `Pricing.NoOverflow` | src/service/trading.rs:890-935 | a price within the bound for at most 120 records cannot overflow 64 bits in either product |
| `Pricing.PointsAsU64Is` | src/service/trading.rs:901-937 | the cast of points to u64 is the identity on 0 up to 2^63 and adds 2^64 to a negative number |
| `Pricing.LevelReachedIff` | src/service/trading.rs:939-953 | level k is reached exactly from 5 * 10^(k+3) points, for k from 1 to 5 |
| `Pricing.FeeWithinBounds` | src/service/trading.rs:935-936 | the fee lies between one and two percent, is below the price, and the 330 floor is never the larger side |
| `Pricing.FeeAntitone` | src/service/trading.rs:935-953 | more points never mean a higher fee |
| `MoneyTheorems.FeeFromPoints` | src/service/trading.rs:901-937 | for registered users the fee is the one of the levels of both primary names' points, between one and two percent |
| `Pricing.AcceptedDiscount` | src/utils.rs:4-19 | a price accepted against a base is never advertised above 0.990 |
| `Pricing.DiscountIs` | src/utils.rs:4-19 | the discount in thousandths is the rounded-half-up quotient of the missing part of 1.26 times the previous price |
| `Pricing.RollbackDiscount` | src/utils.rs:4-19 | a price against itself, as rollbacks compute it, is 0.206 |
| `Pricing.DiscountAntitone` | src/utils.rs:4-19 | for a fixed base a higher price never has a higher discount |
| `Tables.DelRecordMembers` | src/infra/postgres.rs:412-417 | deleting leaves every record of another transaction as often as it was there, and none of this one |
| `Tables.DelRecordConcat` | src/infra/postgres.rs:412-417 | deleting keeps the order: it distributes over any split of the history |
| `Tables.DeleteUndoesAddIffFresh` | src/infra/postgres.rs:382-417 | deleting a record after a failed invoke undoes its insertion if and only if no earlier record has its transaction id |
| `Tables.StatusKeeps` | src/infra/postgres.rs:439-458 | a status change alters no lookup, price, count or sum taken from the history |
| `Tables.SetStatusAt` | src/infra/postgres.rs:439-458 | the update sets the status of exactly the records of the transaction |
| `Tables.LookupFacts` | src/infra/postgres.rs:439-458 | a lookup by transaction id finds a record exactly when one exists |
| `Queries.LookupIs` | src/infra/postgres.rs:428-458 | the lookup returns the newest record of the transaction, and none exactly when there is none |
| `Queries.LastBoughtIs` | src/infra/postgres.rs:521-530 | the last bought price is the price of the newest buy_and_relist or buy_and_delist of the name, and none without one |
| `Queries.LastRecordIs` | src/infra/postgres.rs:501-510 | the last record of a name is the newest record of it, and none exactly when there is none |
| `Queries.CountsAre` | src/infra/postgres.rs:511-520 | the number of records and of sales of a name add up one for each record of the kind |
| `Queries.EarningsAre` | src/infra/postgres.rs:532-548 | the number of sales and the earnings of a seller add up one, and price minus previous price, for each of its sales |
| `PostgresStore.Postgres.CreateListing` | src/infra/postgres.rs:295-311 | inserts the row, or leaves the table alone when the name or the transaction id is taken |
| `PostgresStore.Postgres.DeleteListingByName` | src/infra/postgres.rs:313-318 | removes exactly the row of the name |
| `PostgresStore.Postgres.UpdateListingPrice` | src/infra/postgres.rs:320-330 | changes the price of exactly the row of the name, if any |
| `PostgresStore.Postgres.UpdateListingSellerPriceTx` | src/infra/postgres.rs:332-350 | changes seller, price and transaction id of the row, never its sats; no row or a taken id changes nothing |
| `PostgresStore.Postgres.AddTradeRecord` | src/infra/postgres.rs:382-410 | appends the record |
| `PostgresStore.Postgres.DelTradeRecord` | src/infra/postgres.rs:412-417 | removes exactly the records of the transaction |
| `PostgresStore.Postgres.UpdateTradeStatus` | src/infra/postgres.rs:439-458 | sets the status and returns the updated record, if any |
| `PostgresStore.Postgres.AddNftPoints` | src/infra/postgres.rs:694-699 | adds to the points of the name, starting from zero |
| `PostgresStore.Postgres.SetEventOffset` | src/infra/postgres.rs:363-376 | stores the offset |
| `PostgresStore.Postgres.GetTopEarner` | src/infra/postgres.rs:532-548 | the loop returns price minus previous price summed over the seller's buys, and their number as 32 bits |
| `EventServices.EventService.UpdateListingRankings` | src/service/event.rs:725-765 | adds to new_listings only when new and always to best_deals, with the matching broadcasts in order |
| `EventServices.EventService.RemoveListingRankings` | src/service/event.rs:707-723 | takes the name out of both listing rankings, with the matching broadcasts in order |
| `EventServices.EventService.UpdateSaleRankings` | src/service/event.rs:629-705 | rewrites the most_traded entry of the name and the top_earners entry of the seller from the history |
| `EventServices.EventService.AddSellerPoints` | src/service/event.rs:597-627 | adds the fee to the seller's primary name, if it has one |
| `EventServices.EventService.HandlePending` | src/service/event.rs:223-242 | dispatches on the action; a relist does nothing |
| `EventServices.EventService.HandleListPending` | src/service/event.rs:244-278 | the whole effect of a submitted list |
| `EventServices.EventService.HandleDelistPending` | src/service/event.rs:280-292 | the whole effect of a submitted delist, also used to roll back a list |
| `EventServices.EventService.HandleBuyAndRelistPending` | src/service/event.rs:294-344 | the whole effect of a submitted buy_and_relist, sale rankings from the listing as it was before |
| `EventServices.EventService.HandleBuyAndDelistPending` | src/service/event.rs:346-378 | the whole effect of a submitted buy_and_delist |
| `EventServices.EventService.HandleRejected` | src/service/event.rs:465-488 | dispatches the rollback on the action |
| `EventServices.EventService.HandleExitRejected` | src/service/event.rs:503-530 | re-inserts the listing of a rejected delist or buy_and_delist from its record |
| `EventServices.EventService.HandleBuyAndRelistRejected` | src/service/event.rs:532-563 | restores seller and price and re-ranks the listing as it then is |
| `EventServices.EventService.HandleStatusChange` | src/service/event.rs:135-217 | pending changes nothing; the other statuses are stored; a rejection of a known record also rolls it back |
| `Trading.TradingService.Submit` | src/service/trading.rs:217-251 | store the record, call the canister, then apply the pending effect or delete the record |
| `Trading.TradingService.List` | src/service/trading.rs:578-710 | new market and response of a list, error cases included |
| `Trading.TradingService.Delist` | src/service/trading.rs:459-572 | new market and response (id and name) of a delist, error cases included |
| `Trading.TradingService.BuyAndRelist` | src/service/trading.rs:127-252 | new market and response of a buy_and_relist, error cases included |
| `Trading.TradingService.BuyAndDelist` | src/service/trading.rs:337-457 | new market and response of a buy_and_delist, error cases included |
| `Trading.TradingService.Relist` | src/service/trading.rs:254-335 | new market and response of a relist, error cases included |
| `RollbackLimits.RejectHolding` | src/service/event.rs:465-591 | what a rollback does to the listings of any market: the name as the record says, nothing else |
| `RollbackLimits.RollbackRestoresIff` | src/service/event.rs:490-591 | for any market: the rollback leaves the holding the record replaced if and only if it is a list, or the bought name is still listed with the same sats, or the exited name is unlisted or listed as before |
| `RollbackLimits.InRunsConsecutive` | src/service/event.rs:465-488 | the two newest trades of a name in a run meet the precondition of OutOfOrderIff |
| `RollbackLimits.OutOfOrderIff` | src/service/event.rs:465-591 | rejecting two consecutive trades newest first always restores the start; oldest first does so if and only if they are a list and a purchase of it, or both started from the same holding |
| `RollbackLimits.OrderMattersIff` | src/service/event.rs:465-591 | row by row, ids included, the order of rejecting two consecutive trades does not matter if and only if they are a list and a purchase of it |
| `RunExamples.OutOfOrderFails` | src/service/event.rs:532-563 | after a list and two sales of a run, the poller's handler rejecting oldest first leaves the listing with the first buyer, newest first returns it to the seller |
| `RollbackLimits.RejectTwice` | src/service/event.rs:195-215 | a rejection delivered twice in a row leaves every row as delivered once |
| `RollbackLimits.StatusRejects` | src/service/event.rs:195-215 | a rejection through the status handler: the status of its records, the listing of its name, nothing else of the listings |
| `RollbackLimits.ReplayHarmlessIff` | src/service/event.rs:195-215 | for any market and any delivery: a rejection leaves the listings table as it is if and only if the list's name is unlisted; the bought name is unlisted or its row has the old seller, the old price and the purchase's transaction; or the exited name is listed (or the id belongs to another row) |
| `RollbackLimits.RollbackIndexIff` | src/service/event.rs:490-591 | for any market whose best_deals agree with its rows: after a rejection they still agree, unless it is an exit whose row is not written and which differs from the listed one in seller or price |
| `ReplayExamples.ReturnedRun` | src/service/event.rs:532-547 | list, sale, rejection of the sale: the name is back with its seller at its price, under the transaction of the sale |
| `ReplayExamples.SpoiledIdFails` | src/service/event.rs:532-547 | list, sale, both rejected, list again at the old price: the replayed rejection of the sale keeps seller and price, rewrites the transaction id, and every delist and purchase accepted before is refused |
| `ReplayExamples.StaleDealFails` | src/service/event.rs:503-530 | list, delist, its rejection, relist: the replayed rejection changes no row and puts the old price into best_deals |
| `MarketTheorems.RolledBackRow` | src/service/event.rs:503-591 | in every run, after the rejection of a delist or a purchase the name is listed under the rejected transaction, never under the one before it; an exit is listed as of the rejection, a purchase keeps the listing time of its row |
| `MarketTheorems.RolledBackDiscount` | src/service/event.rs:503-591 | in every run, after such a rejection the name is advertised at 0.206 |
| `RunExamples.ReplayFails` | src/service/event.rs:195-215 | list, rejection, list again: the replayed rejection removes the second listing |
| `RunExamples.NewListingsDeltaFails` | src/service/event.rs:549-562 | list, sale, rejection of the sale: Redis ranks the name, a subscriber does not show it |
| `RunExamples.FullDiscountFails` | src/main.rs:227-229 | a name that has only been listed: at most 0.990 while running, 1.0 after a rebuild |
| `RebuildExamples.TooGoodDealFails` | src/main.rs:209-229 | a run of a list, twenty sales up to 5,000,000 and relists to 6,300,000 and 63,000: at most 0.990 while running, 0.992 after a rebuild |
| `RebuildExamples.RebuiltEarnerFails` | src/main.rs:355-388 | listed for 60,000, sold to a buyer who asks 70,000: the running score of the seller is 10,000, the rebuilt total 70,000 |
| `RebuildTotals.EarnersAgreeIff` | src/main.rs:355-388 | in every run the rebuilt total of a seller differs from the running score by the previous prices of the sales that count less the profit of the rejected ones; they agree if and only if these are equal |
| `RebuildTotals.RebuildShowsMore` | src/main.rs:355-388 | in every run, without rejected sales a rebuild shows the seller at least 55,000 a sale more |
| `RebuildTotals.TradedAgreeIff` | src/main.rs:320-353 | in every run the rebuilt count of a traded name is the running score if and only if none of its buys has been rejected, for fewer than 2^32 buys |
| `RebuildTotals.CountedTradesAre` | src/main.rs:320-388 | the rebuilt count adds one for each pending, confirmed or finalized sale of the name |
| `RebuildTotals.CountedSalesAre` | src/main.rs:320-388 | the rebuilt number of sales of a seller adds one for each such sale |
| `RebuildTotals.ProceedsAre` | src/main.rs:320-388 | the rebuilt total of a seller adds the price of each such sale |
| `RollbackLimits.NewListingsDeltaIff` | src/service/event.rs:549-562 | after a rejected purchase a subscriber never shows the name as a new listing, while Redis does if and only if it is still listed and fewer than 20 rank above it |
| `RollbackLimits.RejectedNewIff` | src/service/event.rs:490-530 | a rejected list is no new listing; a rejected exit is one if and only if fewer than 20 others rank above it |
| `SortedSets.ZRem` | src/infra/redis.rs:480-484 | removes exactly the member from the scores and keeps the order |
| `SortedSets.ZAdd` | src/infra/redis.rs:474-478 | sets exactly the score of the member and keeps the order |
| `SortedSets.ZTrim` | src/infra/redis.rs:583-594 | leaves the 20 (in general k) highest entries |
| `AuthServices.LoginIsARun` | src/service/auth.rs:103-126 | the service's login, with any delays, is one schedule of the interleaved login steps |
| `Interleaving.PendingIsCalls` | src/service/event.rs:223-378 | the pending handlers are these store calls on listings and best_deals |
| `Interleaving.RejectedIsCalls` | src/service/event.rs:465-591 | the rollback handlers are these store calls on listings and best_deals |
| `Interleaving.RelistIsCalls` | src/service/trading.rs:305-325 | a relist is these store calls on listings and best_deals |
| `Interleaving.EachNameAlone` | src/service/event.rs:223-591 | however store calls of different names interleave, a name ends with the listing and best deal its own calls give it |
| `Interleaving.InterleavingIsSerial` | src/service/event.rs:223-591 | an interleaving shows every name the same as one handler after the other |
| `Interleaving.RankingIsSales` | src/service/event.rs:679-700 | updating the sale rankings reads the seller's sum and writes it as the seller's score, and no one else's |
| `Interleaving.PurchaseIsSales` | src/service/trading.rs:217-251 | a submitted purchase adds its record, reads the sum and writes the score; a refused one adds and drops its record |
| `Interleaving.EarnerRaceIff` | src/service/event.rs:679-700 | with any number of sales of a seller at once, records dropped again included, the handler that writes top_earners last leaves the right score if and only if what was recorded and dropped after its read brings the seller nothing |
| `EarnerExamples.EarnerRaceFails` | src/service/event.rs:679-700 | after a run that lists two names, two accepted purchases and an order of their steps that leaves a score of 10,000 for 25,000 earned |
| `SortedSets.StreamingTop` | src/infra/redis.rs:575-596 | for distinct names in any order, trimming after every addition leaves exactly the k highest of everything ever added |
| `SortedSets.StreamingKeepsByRank` | src/infra/redis.rs:575-596 | an added entry survives if and only if fewer than k of all the added entries rank above it |
| `SortedSets.TopOfInsert` | src/infra/redis.rs:583-594 | trimming before an insertion loses nothing that trimming after it would keep |
| `SortedSets.TextLessIff` | src/infra/redis.rs:575-600 | among equal scores members rank by text: a prefix, or a smaller character at the first difference, ranks lower |
| `Rankings.Redis.AddNewListing` | src/infra/redis.rs:575-596 | score, metadata and trim of new_listings |
| `Rankings.Redis.RemNewListing` | src/infra/redis.rs:598-604 | score and metadata of the name are gone |
| `Rankings.Redis.AddBestDeal` | src/infra/redis.rs:661-670 | score by discount, and metadata |
| `Rankings.Redis.RemBestDeal` | src/infra/redis.rs:672-678 | score and metadata of the name are gone |
| `Rankings.Redis.AddMostTraded` | src/infra/redis.rs:732-741 | score by trade count, and metadata |
| `Rankings.Redis.AddTopEarner` | src/infra/redis.rs:765-775 | score by profit, and metadata |
| `Rankings.Redis.GetBestDeals` | src/infra/redis.rs:680-697 | the loop returns the metadata of the `count` highest entries, highest first, skipping names without; a count of 0, which no caller passes, reads the whole ranking |
| `Rankings.ReadTopIs` | src/infra/redis.rs:680-697 | reading a ranking with a limit shows the metadata of the highest entries, as many as the limit and the ranking allow, in falling order |
| `Rankings.Redis.ClearRankings` | src/main.rs:192-206 | the sorted sets are emptied, the metadata stays |
| `Rebuild.RebuildRankings` | src/main.rs:192-388 | whatever stood in Redis before and in whatever order the rows come, best_deals shows exactly the listed names as the tables have them, new_listings exactly the 20 newest, most_traded and top_earners the 20 names and sellers with the largest totals of sales that are not rejected |
| `Rebuild.RebuiltNewest` | src/main.rs:223-242 | a listed name is in the rebuilt new_listings if and only if fewer than 20 listings are newer |
| `Rebuild.RebuildBaseIs` | src/main.rs:209-229 | a rebuild measures the price against the previous price of the newest buy_and_relist or relist of the name, and 0 without one |
| `Rebuild.RebuildMatchesRunning` | src/main.rs:223-254 | rebuilding from the tables of any reachable market shows the same names, prices and sellers in best_deals as the running market |
| `Rebuild.RebuiltWithinBoundIff` | src/main.rs:227-229 | a rebuild advertises at most 0.990 if and only if the name has a positive earlier price and its price is above 0.95 percent of the benchmark |
| `Rebuild.FullDiscountIff` | src/main.rs:227-229 | a rebuild advertises the full discount if and only if there is no earlier price or the price is at most 0.05 percent of the benchmark |
| `Custody.Input0ToOutput0` | src/service/trading_validators/mod.rs:32-43 | under first in, first out every sat of input 0 lands in output 0 at its own offset |
| `Custody.TradeMovesInscription` | src/service/trading_validators/mod.rs:59-70 | every taken trade that reaches the chain moves the inscription of its name from where it sits to output 0 of the trade |
| `Custody.ListSpendsInscription` | src/service/trading.rs:619-641 | a list on chain spends the output that holds the inscription, also when the ord lookup was skipped |
| `Custody.ListedInscriptionsAreHeld` | src/infra/postgres.rs:332-350 | in every run, rejections included, a listed name's inscription is in output 0 of the listing's transaction if and only if that transaction is on chain, and then the sats column, never updated by a buy, is the value of that output |
| `Custody.HeldUnlessRejected` | src/service/event.rs:532-547 | in every run a name listed under a rejected transaction is not in that transaction's output; once every failing trade has been rejected, every other listed name is in its own |
| `Custody.StuckAfterRejection` | src/service/event.rs:532-547 | in every run, after a rejection no trade of the name reaches the chain before a new list of it does |
| `Custody.InscriptionUtxoIsRight` | src/service/trading.rs:801-814 | the output offered for listing an exited name again holds the inscription, unless the exit fails or the output has been spent, and is worth what is reported |
| `Custody.UtxoOfferedIff` | src/service/trading.rs:801-814 | an output is offered if and only if the newest record of the name is an exit of either kind, and it is output 0 of that transaction with the sats of the record |
| `Polling.Poller.constructor` | src/service/event.rs:60-73 | starts from the stored offset, or 0 |
| `Polling.Poller.PollOnce` | src/service/event.rs:97-133 | handles the batch in order and advances by exactly its length; nothing fetched changes nothing |
| `Polling.Poller.Round` | src/service/event.rs:81-94 | one turn of the loop: offset, market and stored offset, with and without a persist failure |
| `PollingHistory.RoundOfTurns` | src/service/event.rs:81-133 | fetch, the events one by one and the persisted offset are one round of the loop: if offset and statuses agree with the market before, they agree with the market after Poller.Round |
| `PollingHistory.CoupledAgrees` | src/service/event.rs:60-217 | in every run of poller and market together, restarts included, the stored offset and the statuses of the protocol are those of the tables |
| `PollingHistory.HistoryConverges` | src/service/event.rs:60-217 | whenever the poller has caught up, every record of the trade history has the status of its last event, through failures, crashes, replays and rollbacks |
| `Polling.NothingIsSkipped` | src/service/event.rs:60-133 | across fetch and persist failures, crashes and restarts every index below the stored offset, the in-memory offset and the place in the current batch has been handled, and within one life the indexes handled run on without gap or repeat |
| `Polling.StatusesConverge` | src/service/event.rs:60-217 | whenever the poller has caught up, every record has the status of its last event, whatever was replayed |
| `Polling.ResumesWhereStored` | src/service/event.rs:60-94 | a restart resumes at the end of the last batch whose offset was persisted, and at 0 when there is none or the stored offset cannot be read |
| `PollingHistory.RoundStores` | src/service/event.rs:81-94 | a round stores the offset after its batch if there was one and persisting succeeded, and otherwise leaves the stored offset |
| `Polling.LoadedRestartsAreSmooth` | src/infra/postgres.rs:354-376 | when the stored offset can be read, no restart resumes past the point where handling stopped |
| `PollingExamples.SkippedReplayLeavesOldStatus` | src/service/event.rs:61-73 | a run from the start: an unreadable offset, a crash inside the replay and a restart from the stored offset leave an outdated status |
| `PollingHistory.SkippedRangeHarmlessIff` | src/service/event.rs:135-217 | resuming past unhandled events leaves a record right if and only if a later event sets it, the skipped range does not touch it, or would have left it as it was |
| `PollingHistory.BatchHistory` | src/service/event.rs:119-130 | a batch gives each record the status of its last event and changes nothing else of the history, rollbacks included |
| `PollingHistory.ReplayKeepsHistory` | src/service/event.rs:135-217 | handling a log and then any suffix of it again leaves the history as after the first time |
| `OnlineCounter.CounterIsExact` | src/api/ws.rs:75-245 | with any interleaving of any messages, increments, loads, exchanges and clean-ups of any number of connections the counter is the number of connections counted or still decrementing, and the number subscribed to user-self when every handler waits for a message |
| `OnlineCounter.CountedOnce` | src/api/ws.rs:134-196 | no connection is counted or released twice and no decrement saturates: an increment is by a connection not counted, a successful exchange by a counted one, and takes away one |
| `OnlineCounter.FailureHasACause` | src/api/ws.rs:470-482 | every compare-and-exchange that fails does so because another connection changed the counter after the value was read |
| `OnlineCounter.RetriesAreBounded` | src/api/ws.rs:470-482 | with at most n connections the failed exchanges number at most n times the changes of the counter |
| `OnlineCounter.AtomicCounter.Increment` | src/api/ws.rs:137-138 | adds one and returns the new total |
| `OnlineCounter.AtomicCounter.DecrementOnlineUsers` | src/api/ws.rs:470-482 | whatever the others do before each exchange, the loop takes exactly one away from what they left, and stops |
| `Connections.ConnectionKeeps` | src/api/ws.rs:75-231 | after any messages: one listener for each subscription, only valid channels, the flag set exactly while user-self is subscribed, which needs an address, and the counter moved by one or zero accordingly |
| `Connections.CountsAreSubscriptions` | src/api/ws.rs:134-196 | over any number of connections the increments and decrements add up to the number subscribed to user-self |
| `Connections.AddressIsFixed` | src/api/ws.rs:111-122 | the address of a connection never changes once set |
| `Connections.DeliveredExactly` | src/api/ws.rs:256-445 | a private event reaches a connection if and only if user-self is subscribed and the event is about its own address, a public one if and only if its channel is subscribed, and never twice |
| `Connections.PublicDeliveries` | src/api/ws.rs:256-445 | which channel carries which event |
| `Connections.SubscribeIff` | src/api/ws.rs:80-183 | a subscribe takes effect if and only if the channel is one of the eight and, for user-self only, an address is known or proved by the message; other subscriptions stay, and each reply is given exactly in its own case |
| `Connections.ListenersAre` | src/api/ws.rs:123-214 | a new listener forwards for the address known by then; an unsubscribe removes exactly its own channel; anything else changes nothing |
| `Connections.SubscribedExactly` | src/api/ws.rs:75-231 | whatever messages a connection was sent, it is subscribed to a channel if and only if some permitted subscribe to it was not undone by a later unsubscribe |
| `Connections.AddressIsFirstProof` | src/api/ws.rs:80-122 | the address of a connection is that of the first message that proved one while subscribing to user-self |
| `Connections.Connection.HandleSubscribe` | src/api/ws.rs:80-183 | new state, reply and counter move of a subscribe message, refusals included |
| `Connections.Connection.HandleUnsubscribe` | src/api/ws.rs:184-214 | new state, reply and counter move of an unsubscribe message |
| `Connections.Connection.HandleWs` | src/api/ws.rs:61-245 | the receive loop and the clean-up: state after any messages, and the counter back where it was |
| `Sessions.TokenRoundTrip` | src/service/auth.rs:78-91 | a token parses back to its id and secret if and only if the id has no colon |
| `Sessions.RunKeepsSessions` | src/service/auth.rs:103-304 | every interleaving of the store operations of logins of any addresses, logouts, logins abandoned anywhere and time keeps the session invariant |
| `Sessions.IdleSessionsAreTracked` | src/infra/redis.rs:812-855 | whatever interleaves, a live session of an address with no login in flight is in its address's set, and the set does not expire before it, unless the session's own login died between storing it and adding it |
| `Sessions.OneLiveSession` | src/service/auth.rs:103-126 | apart from sessions of such logins, at most one session of an address is live, at every point of every login of every address |
| `Sessions.OrphansWereNeverReturned` | src/service/auth.rs:217-238 | the token of such a login was never returned, and its session is in no set |
| `Sessions.OnlyLogoutRemovesOrphans` | src/service/auth.rs:282-304 | no login removes such a session; only a logout with its id and a secret of the stored hash does |
| `Sessions.OrphanOutlivesLogin` | src/service/auth.rs:202-238 | a run in which the session of a login that died is still live after the next login of the address has completed |
| `Sessions.TokenValidExactlyWhile` | src/service/auth.rs:241-279 | once its session is stored a token validates if and only if no logout and no later login has removed the session and neither expiry has passed when it is checked; it yields the address that logged in |
| `Sessions.NotYetStored` | src/service/auth.rs:241-279 | before its session is stored a token does not validate |
| `Sessions.MadeEarlier` | src/service/auth.rs:202-214 | what a login stores is what it made: its id, address, the hash of its secret, the clock of that moment and the expiry one session time later |
| `Sessions.CompletedSetExpires` | src/infra/redis.rs:812-828 | a login that completes renews the expiry of the whole set to one session time from then |
| `Sessions.LaterLoginEnds` | src/infra/redis.rs:836-855 | once a later login of the address has dropped the set, every earlier session of it is gone for good, unless its own login had died half-way |
| `Sessions.OnlyOwnerRemoves` | src/service/auth.rs:282-304 | a session is removed only by a login of its own address begun after it was stored, or by a logout with its id and a secret of the stored hash |
| `Sessions.OnlyTheSecretOpens` | src/service/auth.rs:250-270 | with an injective hash no other secret validates with the id of a session |
| `AuthServices.AuthService.AddUserSession` | src/infra/redis.rs:812-828 | adds the id, then renews the expiry of the set |
| `AuthServices.AuthService.InvalidateUserSessions` | src/infra/redis.rs:836-855 | deletes every session in the address's set and the set, and counts them |
| `AuthServices.AuthService.CreateSession` | src/service/auth.rs:202-238 | makes the data, stores it, adds the id to the set and renews the set, with time passing in between |
| `AuthServices.AuthService.Authenticate` | src/service/auth.rs:103-126 | succeeds exactly when the message passes its checks and the signature is valid; then the user row exists, old sessions are gone, the new one is stored and the token returned; otherwise nothing changes |
| `AuthServices.AuthService.ValidateSession` | src/service/auth.rs:241-279 | what a token validates to, each refusal included |
| `AuthServices.AuthService.LogoutSession` | src/service/auth.rs:282-304 | deletes the session only with the right secret |
| `AuthServices.LoginValidates` | src/service/auth.rs:103-279 | the token a login returns validates, after any waiting, exactly until either expiry, to the address and times of the login |
| `AuthServices.LoginEndsOthers` | src/service/auth.rs:217-238 | after a login no other session of the address's set validates, whatever its secret |
| `AuthServices.LogoutIff` | src/service/auth.rs:282-304 | a logout deletes exactly the stored session of the id whose hash the secret has, and then the token no longer validates |
| `SignIn.SignInRoundTrip` | src/infra/bip322.rs:23-52 | every i64 timestamp and every nonce text, even one containing the separator, comes back from the generated message |
| `SignIn.ParseInverts` | src/infra/bip322.rs:23-52 | an accepted message is the prefix, a text that reads as the timestamp, the separator and the nonce, and is the generated message if and only if that text is the timestamp's decimal form |
| `SignIn.GeneratedAcceptedIff` | src/infra/bip322.rs:60-109 | a generated message passes the checks before the signature if and only if its nonce is 8 to 64 letters, digits or hyphens and its timestamp is within 300 seconds of the clock, or exactly 2^63 seconds behind it |
| `SignIn.AcceptedIff` | src/infra/bip322.rs:23-109 | any message whatever passes the checks if and only if it is prefix, a number text without blanks, separator and a good nonce, with the number within 300 seconds of the clock or exactly 2^63 seconds behind it |
| `SignIn.ParseIff` | src/infra/bip322.rs:23-52 | a message parses to a timestamp and nonce if and only if it is prefix, a text that reads as the timestamp, the first separator and the nonce |
| `SignIn.SplitIsFirst` | src/infra/bip322.rs:33-44 | the text is cut at the first separator and nowhere else |
| `SignIn.ParseI64Iff` | src/infra/bip322.rs:33-44 | a text reads as a number if and only if it is digits after at most one sign and the number fits 64 bits |
| `Inventory.PushMissing` | src/service/user.rs:142-153 | the loop adds exactly the missing names, each once |
| `Inventory.OwnedUnlisted` | src/service/user.rs:135-139 | the owned names that are not listed, each once |
| `Inventory.GetInventory` | src/service/user.rs:108-164 | listed names without duplicates are exactly the seller's listings and their value is summed; unlisted names without duplicates are (owned minus listed), pending delists and pending purchases |
| `Inventory.PendingExitsFacts` | src/infra/postgres.rs:597-617 | a name is pending if and only if some record of the user is a pending exit of it |
| `Inventory.RowsValue` | src/infra/postgres.rs:581-595 | summing the rows in query order gives the order-free sum of the seller's prices |
| `Inventory.SellersPartition` | src/infra/postgres.rs:581-595 | a listing is in exactly one seller's listed names |
| `Inventory.ValuesSumToValuation` | src/infra/postgres.rs:619-638 | the listed values of all sellers add up to the market valuation |
| `TxFees.SumPrevouts` | src/infra/blockchain.rs:367-379 | the prevout loop: the total, or nothing as soon as an input lacks its prevout |
| `TxFees.SumPreviousOutputs` | src/infra/blockchain.rs:382-399 | the lookup loop: the total, or nothing as soon as a previous transaction or output is missing |
| `TxFees.GetTxFeeSats` | src/infra/blockchain.rs:355-423 | the wallet fee if there is one, else inputs minus outputs from the first pass that succeeds |
| `TxFees.PassesAgree` | src/infra/blockchain.rs:367-399 | when the reported prevouts are those of the previous transactions both passes give the same total |
| `TxFees.FeeBalances` | src/infra/blockchain.rs:401-423 | without a wallet fee, a reported fee satisfies inputs = outputs + fee, and there is one if and only if the inputs are known and cover the outputs |
| `TxFees.FeeIs` | src/infra/blockchain.rs:355-423 | the fee from the single amounts: inputs added one by one, from the prevouts if all are there and else from the previous transactions, less the outputs added one by one; None exactly when neither is known or the outputs exceed the inputs |
| `TxFees.FindOutIs` | src/infra/blockchain.rs:382-399 | the previous output is the first with the asked index, and none exactly when there is none |

## Left out

- NestedRollback: speaks of presence, seller, price and sats; RolledBackRow and RolledBackDiscount say what the transaction id, the listing time and the discount are instead.
- StatusesConverge: holds for restarts that do not resume past the point where handling had stopped, because SkippedReplayLeavesOldStatus shows it fails otherwise; the exact condition is SkippedRangeHarmlessIff. The same holds of HistoryConverges.
- Polling.Poller.Round: one turn of the endless polling loop; restarts and crashes are turns of the protocol beside it.
- OnlineCounter.AtomicCounter.DecrementOnlineUsers: the other connections interfere with finitely many of its exchanges, because the loop need not end otherwise; the interleaved machine beside it has no such bound.
- QuoteNeverRises: points stay below 2^63, the range of their column.
- QuoteIs: the same.
- NewListingsCovered: holds while no purchase is rejected; what a rejected one does is NewListingsDeltaIff.
- LoginValidates: for ids without a colon, the only ones whose token parses back (TokenRoundTrip).
- FeeBalances: amounts are whole sats; the conversion of BTC floating-point amounts is not modelled.
- GeneratedAcceptedIff: the clock is between 0 and half the i64 range.
- AcceptedIff: the same.
- UpdateSaleRankings: the recent_sales and top_sales entries are not stored, only broadcast by name.
- HandleListPending: the market-stats, inventory and activity broadcasts are not part of this model.
- HandleDelistPending: the same broadcasts are not part of this model.
- HandleBuyAndRelistPending: the same broadcasts and the recent_sales and top_sales entries are not part of this model.
- HandleBuyAndDelistPending: the same broadcasts and the recent_sales and top_sales entries are not part of this model.
- HandleRejected: the broadcasts after a rollback are not part of this model.
- HandleStatusChange: the broadcasts after a rollback are not part of this model.
- Relist: the broadcasts after a relist are not part of this model.
- ClearRankings: recent_sales and top_sales are not part of this model.
- RebuildRankings: recent_sales and top_sales are not part of this model, and the last price, seller and buyer of a most_traded row are whatever the query returned.
- EachNameAlone: speaks of listings and best_deals; new_listings is trimmed across names, and two handlers of one name still run one after the other.
- Floating-point scores and discounts are exact integers and thousandths.
- Failures of store calls other than the last-bought-price lookup and the stored offset; the services log most of them and carry on.
- HTTP routes, JSON, cookies, configuration, logging, the network clients and the parsing of PSBT bytes.
- Signature verification, SHA-256 and UUID generation: a signed flag, a hash function and fresh ids stand for them.
- Stars, shout-outs, name metadata, ownership checks of primary names, pool creation and paginated reads, which would add only easy members.
- Lagging or failing WebSocket sends: a listener forwards every event it receives.
