# The marketplace engine, proved

A Dafny model of the market's money-and-auction engine: wallets, items and auctions, the five use cases that
change them, the in-memory store with its staged overlay, the row locks of the Postgres adapter, and the cache behind
idempotency keys.

`dafny verify dfyconfig.toml` checks everything.

## How it is built

The source changes objects and maps step by step, and so does the model: `Wallet`, `Item` and `Auction` are classes with
the methods of the domain package, `Store` and `TxRepo` hold maps and a ledger, and `Market` runs each use case on an
overlay. Each of these methods is proved equal to a function on plain values (`Wallets`, `Items`, `Auctions`, `UseCases`),
with its error, and leaves everything else alone. Those functions are then what the theorems are about.

| file | what it holds |
|---|---|
| `Domain`, `Sums`, `States` | vocabulary; sums over maps and sequences; the state and its ledger |
| `Wallets`, `Items`, `Auctions` | the domain rules, as functions and as classes |
| `Stores`, `Markets`, `Aliasing` | the overlay store, the use cases on it, and bid lists as arrays that could be shared |
| `UseCases`, `Invariant`, `Histories` | the use cases as atomic steps, what every run keeps, runs split into changes |
| `Conservation`, `Closing`, `Replay`, `Goods`, `DailyCap`, `Settlement` | one theorem about whole runs each |
| `Int64`, `Int64UseCases` | the arithmetic wrapped at 64 bits, and the use cases in it |
| `BidOrder` | runs on storage that reorders bids |
| `Locking`, `LockedUseCases`, `Concurrency`, `ConcurrentRuns` | two-phase locking in general, the use cases as locking transactions, their interleavings, and what holds over them |
| `Idempotency` | lookup, apply and record as interleaved steps |
| `Counterexamples` | runs that break a promise of the documentation |

## What holds

From any seeding of wallets with nothing reserved and no negative total, over any sequence of requests, accepted or refused, with any times:

* gold is conserved, every wallet stays solvent, and its reservation is exactly the sum of the active bids it leads;
* releasing an outbid leader and settling a winner never fail;
* the leader of an auction is its newest bid, which is never withdrawn;
* every auction closes, by a time that can be computed when it opens;
* a Legendary item is auctioned once and sold at most once; a listing is never oversold, and every unit is paid for;
* the order in which due auctions are settled, and the order in which bids are stored, do not matter;
* 64-bit arithmetic changes none of it while the gold and the listings are far enough below the limit;
* under any interleaving of transactions that lock as the code does, and on storage that may reorder bids, gold, replay,
  closing, stock, single sale and the daily-cap results hold as over a run of requests one after another
  (`ConcurrentRuns.ConcurrentMarketKeeps`), because the result is that of a serial run of the committed requests.

No theorem needs times to increase from one request to the next.

## What does not

The code falls short of its comments in six places. The model keeps the code as it is; each row gives a run that shows it and the exact condition under which the promise is kept.

| promise | run that breaks it | holds exactly when |
|---|---|---|
| the ledger replays to the reservations (internal/domain/ledger.go:5-8) | `Counterexamples.OwnRaiseUnbalancesTheLedger` | the guild never raised its own bid (`Replay.ReservedReplaysIff`) |
| a guild's spend stays within its daily cap (internal/service/auction.go:73-75) | `Counterexamples.CapIsExceeded` | each auction won that day still fits under the cap when it closes (`DailyCap.DayWithinCapIff`); what holds always is `DailyCap.DailySpendIsBounded` |
| due auctions get settled (internal/service/auction.go:189-193) | `Counterexamples.SellerWithoutWalletBlocksSettlement` | every due auction with a bid has a seller wallet (`Settlement.SettlementOutcome`) |
| reads inside a unit of work see its writes (internal/adapters/memstore/store.go:88-89) | `Counterexamples.StagedRowsAreNotSeen` | no new item is staged (`Stores.TxRepo.ListItems`), no debit or settlement of the guild is staged (`Stores.SpentSinceSeesOverlayIff`); both call sites of `SpentSince` meet the condition |
| keys cannot collide across guilds or endpoints (internal/adapters/httpapi/idempotency.go:48-50) | `Idempotency.ScopesCollide` | none of guild, method, path and key has a bar (`Idempotency.OwnsScopeIff`); guilds stay apart while their names have none (`Idempotency.GuildsApart`) |
| a replayed request is not applied again (internal/adapters/httpapi/idempotency.go:9-12) | `Idempotency.OverlappingRetriesBothApply` | a success of its scope was recorded before it looked up (`Idempotency.MissesIff`) |

The daily-cap gap is the edge that docs/adr/0002-auctions-resilience-ui.md:65 leaves open; there it is described for simultaneous winning bids only, and the run above needs one bid and one purchase.

## Model

| member | source | states |
|---|---|---|
| Auctions.IncrementIsCeiling | internal/domain/auction.go:62-70 | For a positive leading bid, `(5h+99)/100` is the exact ceiling of 5% and at least 1, so the `max(inc, 1)` never acts. |
| Auctions.IncrementIsOne | internal/domain/auction.go:62-70 | Without a positive leading amount the increment is 1. |
| Auctions.FindActive | internal/domain/auction.go:113-123 | The cancel loop stops at the first bid with the identifier that is still active, or at the end if there is none. |
| Auctions.HighestIsMaximal | internal/domain/auction.go:46-58 | The scan finds an active bid that no active bid exceeds, and finds none exactly when none is active. |
| Auctions.HighestIsFirst | internal/domain/auction.go:46-58 | Of several active bids of the largest amount the scan finds the first. |
| Auctions.LeaderIsLast | internal/domain/auction.go:46-70 | In every auction the market can reach the scan returns the newest bid, and the next minimum is that bid plus the increment. |
| Auctions.PlaceBidKeepsOrder | internal/domain/auction.go:79-100 | An accepted bid exceeds every earlier bid, withdrawn or not, by the full increment, and becomes the leader. |
| Auctions.CancelKeepsLeader | internal/domain/auction.go:106-125 | Withdrawing changes neither the leader nor the next minimum; it marks at most one bid, never the newest. |
| Auctions.CancelAcceptedIff | internal/domain/auction.go:106-125 | A withdrawal succeeds if and only if the bid is the guild's own, active and not the newest; it then marks exactly that bid. |
| Auctions.EndAfterBidBounds | internal/domain/auction.go:94-98 | A bid leaves the least closing time that is no earlier than before and at least one extension away: an early bid moves nothing, a late one leaves exactly one extension, and the auction is not yet due. |
| Auctions.PlaceBidVerdict | internal/domain/auction.go:79-100 | Cause by cause, with the time, the seller and the 5% written out, which bids are refused with which error; and the whole row that an accepted bid leaves. |
| Auctions.CancelBidVerdict | internal/domain/auction.go:106-125 | Cause by cause, which withdrawals are refused with which error. |
| Auctions.Auction.HighestBid | internal/domain/auction.go:46-58 | The loop returns the winner of the left-to-right scan. |
| Auctions.Auction.MinNextBid | internal/domain/auction.go:62-70 | Computes the minimum from the leader found by the loop, with division that truncates toward zero. |
| Auctions.Auction.PlaceBid | internal/domain/auction.go:79-100 | Each refusal with its error and no change; on success one bid appended, the closing time extended, the unseated leader returned. |
| Auctions.Auction.CancelBid | internal/domain/auction.go:106-125 | Each refusal with its error and no change; on success the first active bid of that identifier is marked withdrawn. |
| Auctions.Auction.Settle | internal/domain/auction.go:136-142 | Closes an active auction once and returns its leading bid; a closed one is refused unchanged. |
| Wallets.ReservationLifeCycle | internal/domain/wallet.go:35-73 | Reserve then release restores the wallet; reserve then settle is a debit; either keeps the wallet solvent. |
| Wallets.Wallet.Reserve | internal/domain/wallet.go:35-44 | Reserves available gold only; refusals leave the wallet alone. |
| Wallets.Wallet.Release | internal/domain/wallet.go:49-58 | Frees at most what is reserved; refusals leave the wallet alone. |
| Wallets.Wallet.Settle | internal/domain/wallet.go:63-73 | Turns a reservation into a payment; refusals leave the wallet alone. |
| Wallets.Wallet.Debit | internal/domain/wallet.go:77-86 | Spends available gold only; refusals leave the wallet alone. |
| Wallets.Wallet.Credit | internal/domain/wallet.go:89-95 | Adds a positive amount; refusals leave the wallet alone. |
| Items.Item.SellTo | internal/domain/item.go:92-114 | Refusals in the order of the code; a sale takes the stock, sells out at zero, and returns price times quantity. |
| Stores.Store.SeedGuild | internal/adapters/memstore/store.go:46-50 | Sets one wallet with nothing reserved and touches nothing else. |
| Stores.Store.SeedWallet | internal/adapters/memstore/store.go:39-42 | Sets one wallet with nothing reserved and a cap of 0. |
| Stores.TxRepo.Commit | internal/adapters/memstore/store.go:98-103 | Leaves in the store exactly the state the overlay has been showing. |
| Stores.TxRepo.CreateItem | internal/adapters/memstore/store.go:105-111 | Stages the item unless a committed item has its identifier; staged items are not searched. |
| Stores.TxRepo.GetItem | internal/adapters/memstore/store.go:113-124 | Answers as the committed overlay would, with a new copy. |
| Stores.TxRepo.UpdateItem | internal/adapters/memstore/store.go:132-135 | Changes that item in the overlay and nothing else. |
| Stores.TxRepo.ListItems | internal/adapters/memstore/store.go:137-147 | Lists exactly the items already committed, each as the overlay has it; the list is the one after commit if and only if no new item is staged. |
| Stores.TxRepo.GetWalletForUpdate | internal/adapters/memstore/store.go:149-160 | Answers as the committed overlay would, with a new copy. |
| Stores.TxRepo.UpdateWallet | internal/adapters/memstore/store.go:162-165 | Changes that wallet in the overlay and nothing else. |
| Stores.TxRepo.AppendLedger | internal/adapters/memstore/store.go:167-170 | Adds one entry at the end of the overlay's ledger. |
| Stores.TxRepo.CreateAuction | internal/adapters/memstore/store.go:180-183 | Stages the auction and nothing else. |
| Stores.TxRepo.GetAuction | internal/adapters/memstore/store.go:185-192 | Answers as the committed overlay would, with a new copy. |
| Stores.TxRepo.GetActiveAuctionByItem | internal/adapters/memstore/store.go:198-218 | Two loops over two maps find an active auction of the item exactly when the overlay has one; staged rows win. |
| Stores.TxRepo.UpdateAuction | internal/adapters/memstore/store.go:220-223 | Changes that auction in the overlay and nothing else. |
| Stores.TxRepo.ListAuctions | internal/adapters/memstore/store.go:225-237 | Lists each auction of the overlay once, or each active one, in any order. |
| Stores.TxRepo.DueAuctions | internal/adapters/memstore/store.go:239-250 | Lists each auction of the overlay that is due once, in any order. |
| Stores.TxRepo.ListLedger | internal/adapters/memstore/store.go:252-265 | Lists the guild's entries of the overlay in order. |
| Stores.TxRepo.SpentSince | internal/adapters/memstore/store.go:267-278 | Sums the guild's committed debits and settlements since a time. |
| Stores.SpentSinceSeesOverlayIff | internal/adapters/memstore/store.go:267-278 | That sum is the sum after commit if and only if no debit or settlement of the guild since then is staged. |
| Counterexamples.StagedRowsAreNotSeen | internal/adapters/memstore/store.go:137-147 | A unit that stages an item and a debit neither lists the item nor counts the debit, though its commit leaves both. |
| Aliasing.Append | internal/domain/auction.go:90-93 | Appending in place or to a larger array never changes what the shorter slice shows. |
| Aliasing.CloneAuction | internal/adapters/memstore/store.go:282-286 | The clone has the same row and a new array. |
| Aliasing.Handle.PlaceBid | internal/domain/auction.go:79-100 | On a slice over an array, in place where there is room, the effect on the auction in hand is the same. |
| Aliasing.Handle.CancelBid | internal/domain/auction.go:106-125 | The bid is marked in the array it lies in; the effect on the auction in hand is the same. |
| Aliasing.AuctionStore.GetAuction | internal/adapters/memstore/store.go:185-192 | Hands out an auction whose bids lie in an array the store does not hold. |
| Aliasing.AuctionStore.UpdateAuction | internal/adapters/memstore/store.go:220-223 | Stages a copy in a new array: the overlay changes in one row, the committed auctions in none. |
| Aliasing.AuctionStore.Commit | internal/adapters/memstore/store.go:98-103 | Committed auctions become what the overlay showed, and change nowhere else. |
| Aliasing.Handle.Settle | internal/domain/auction.go:136-142 | Closing changes the auction in hand and no bid. |
| Aliasing.AuctionStore.CreateAuction | internal/adapters/memstore/store.go:180-183 | Stages a copy in a new array. |
| Aliasing.AuctionStore.GetActiveAuctionByItem | internal/adapters/memstore/store.go:198-218 | Hands out a copy in a new array, or finds none active. |
| Aliasing.AuctionStore.ListAuctions | internal/adapters/memstore/store.go:225-237 | Hands out copies in new arrays, no two sharing one. |
| Aliasing.AuctionStore.DueAuctions | internal/adapters/memstore/store.go:239-250 | Hands out copies of exactly the due auctions in new arrays, no two sharing one. |
| Aliasing.EditApart | internal/domain/auction.go:79-142 | Any sequence of bids, withdrawals and closings by any guilds, on an auction whose array the store does not hold, leaves the store as it was. |
| Aliasing.EditsStayPrivate | internal/adapters/memstore/store.go:185-192 | Any sequence of edits of an auction that was read changes no staged and no committed bid list. |
| Aliasing.ActiveEditsStayPrivate | internal/adapters/memstore/store.go:198-218 | The same for an auction found by its item. |
| Aliasing.DueEditsStayPrivate | internal/adapters/memstore/store.go:239-250 | The same for all due auctions at once, each edited in its own way; nor do they change one another. |
| Aliasing.EditsAfterUpdateStayPrivate | internal/adapters/memstore/store.go:220-223 | Nor does any sequence of edits of the same copy after it was staged. |
| Aliasing.SharedBidsWouldLeak | internal/adapters/memstore/store.go:282-286 | Without the clone a withdrawal would change the committed auction at once. |
| Markets.Market.CreateItem | internal/service/market.go:68-92 | Run on the overlay, equals the atomic listing on plain maps; an error leaves the store unchanged; the invariant is kept. |
| Markets.Market.OpenAuction | internal/service/auction.go:14-39 | Opens the one active auction of the item inside the unit of work, or fails as the atomic form does. |
| Markets.Market.Purchase | internal/service/market.go:152-228 | Run on the overlay, equals the atomic purchase; an error leaves the store unchanged; returns the price of what was sold. |
| Markets.Market.BidOnItem | internal/service/auction.go:46-133 | Run on the overlay, equals the atomic bid: release, then reserve, then append; an error leaves the store unchanged. |
| Markets.Market.ReleaseUnseated | internal/service/auction.go:87-110 | The unseated leader gets its reservation back, on the bidder's own copy when it outbids itself, then without a ledger entry. |
| Markets.Market.CancelBidOnItem | internal/service/auction.go:138-159 | Run on the overlay, equals the atomic withdrawal; an error leaves the store unchanged. |
| Markets.Market.SettleDueAuctions | internal/service/auction.go:194-212 | The loop over the due list equals closing them all atomically and returns how many; an error leaves the store unchanged. |
| Markets.Market.SettleOneUnit | internal/service/auction.go:215-278 | Closes one auction in the overlay: payment, both entries, item status, auction row. |
| Invariant.InitialIsSound | internal/adapters/memstore/store.go:46-50 | Seeded wallets and nothing else satisfy every invariant. |
| Invariant.PurchaseOutcome | internal/service/market.go:152-228 | Exactly when a purchase is accepted, with funds and cap written out (a cap of 0 or less is none), and its whole effect. Stock alone says whether the item is available. |
| Invariant.PurchaseVerdict | internal/service/market.go:152-228 | Cause by cause, which purchases are refused with which error. |
| Invariant.CreateOutcome | internal/service/market.go:68-92 | Exactly when a listing is accepted, which is refused with which error, and the item and auction it writes, field by field. |
| Invariant.OpenAuctionOutcome | internal/service/auction.go:14-39 | On any state: refused for a price that is not positive or while the item has an active auction; otherwise the auction it writes, field by field. |
| Invariant.BidOutcome | internal/service/auction.go:46-133 | Exactly when a bid is accepted and, cause by cause, which is refused with which error, with time, seller, 5%, cap and funds written out; releasing the unseated leader never fails. |
| Invariant.BidWrites | internal/service/auction.go:82-131 | All that an accepted bid writes: the auction, both reservations, both ledger entries. |
| Invariant.CancelOutcome | internal/service/auction.go:138-159 | Cause by cause, which withdrawals are refused with which error, and the one bid that an accepted one marks. |
| Invariant.SettleOneOutcome | internal/service/auction.go:215-278 | Closing an auction fails only for want of a seller wallet, and then only with a winner; `Wallet.Settle` never fails. Its whole effect otherwise. |
| Invariant.ClosingWrites | internal/service/auction.go:215-278 | All that a closing writes: statuses, both wallets, both ledger entries. |
| Invariant.SettleAllOutcome | internal/service/auction.go:194-212 | Closing a list succeeds if and only if each can be closed, closes exactly those listed, and keeps every invariant. |
| Invariant.PurchaseEffectKeepsSound | internal/service/market.go:152-228 | A purchase keeps every wallet solvent, every reservation exact and every listing in order. |
| Invariant.CreateEffectKeepsSound | internal/service/market.go:68-92 | A listing keeps every invariant; a Legendary item gets its one auction. |
| Invariant.BidEffectKeepsSound | internal/service/auction.go:46-133 | A bid keeps each wallet's reservation equal to the bids it leads. |
| Invariant.CancelEffectKeepsSound | internal/service/auction.go:138-159 | A withdrawal keeps every invariant and every reservation. |
| Invariant.SettleEffectKeepsSound | internal/service/auction.go:215-278 | A closing keeps every invariant, with the winner's reservation gone and the item's status following the auction. |
| Invariant.ApplyKeepsSound | internal/service/auction.go:46-278 | Every request, accepted or refused, keeps every invariant. |
| Invariant.RunKeepsSound | internal/domain/wallet.go:1-21 | Over any run `0 <= Reserved <= Total`, `Reserved` is the sum of the active leading bids, auctions stay ordered, and items match auctions. |
| Histories.RunHistory | internal/service/auction.go:194-278 | Any run is a sequence of single changes between sound states. |
| Conservation.GoldIsConserved | internal/domain/wallet.go:35-95 | Over any run the sum of all totals is that of the seeds, no wallet exceeds it, and each reservation is the sum of the bids the guild leads. |
| Conservation.TransferKeepsGold | internal/service/market.go:164-206 | Reading two wallets and writing both back keeps the sum when they are different wallets. |
| Conservation.BidsWithinAlong | internal/service/auction.go:112-118 | No bid ever exceeds the gold there is. |
| Closing.BidsCompound | internal/domain/auction.go:62-99 | The i-th bid satisfies `20^i * amount >= 21^i * startPrice`. |
| Closing.BidsAreBounded | internal/domain/auction.go:62-99 | With `n` bids, `startPrice * (n + 19) <= 20 * gold`. |
| Closing.BidKeepsTimely | internal/domain/auction.go:94-98 | A bid keeps the closing time between the window and one extension per bid after it. |
| Closing.HistoryCloses | internal/service/auction.go:24-33 | The same over any history, for every auction. |
| Closing.EveryAuctionCloses | internal/service/auction.go:24-33 | On any run from seeds: bids compound, their number is bounded by the gold, and there is a time, known at the opening, from which the auction is due. |
| Replay.HistoryReplays | internal/domain/ledger.go:5-28 | Both replay results over any history, for each seeded guild. |
| Replay.LedgerReplays | internal/domain/ledger.go:5-28 | Credits less debits less settlements give every total exactly; reserves less releases less settlements give the reservation plus the amounts of the guild's own raises. |
| Replay.ReservedReplaysIff | internal/service/auction.go:87-124 | Replaying reservations is exact if and only if the guild never raised its own bid. |
| Counterexamples.OwnRaiseUnbalancesTheLedger | internal/service/auction.go:87-110 | A run in which a guild has 105 reserved and a ledger that says 205. |
| Goods.StockIsConserved | internal/domain/item.go:92-114 | From any sound state: price times units gone is the debits and the credits of the item; stock is never negative; sold out exactly at zero. |
| Goods.EverySaleIsPaidFor | internal/service/market.go:173-219 | From its listing on, price times units sold is the sum of all debit entries and of all credit entries the item ever has. |
| Goods.HistoryIsPaidFor | internal/service/market.go:173-219 | The same over any history, from the state in which the item was listed. |
| Goods.HistoryAuctionsOnce | internal/service/auction.go:215-278 | One auction, status and sale of a Legendary item over any history. |
| Goods.LegendaryIsUnique | internal/service/auction.go:14-39 | A Legendary item has exactly one auction ever; its status follows that auction; the ledger has at most one sale of it, never to its seller. |
| Goods.AuctionsStay | internal/service/auction.go:215-278 | An auction never disappears and is final once closed; each bid stays at its place, as it was or withdrawn since. |
| DailyCap.StartOfUTCDayContains | internal/service/market.go:50-53 | The start of the day is the midnight at or before the time, and less than a day before it. |
| DailyCap.SpendIsSinceMidnight | internal/adapters/memstore/store.go:267-278 | The cap check sums exactly the debits and settlements of the guild since the last multiple of 86400 seconds. |
| DailyCap.SpendIsOfTheDay | internal/service/market.go:179-188 | Entries before midnight add nothing: read on the day, the sum is the purchases and wins of the day. |
| DailyCap.DailySpendIsBounded | internal/service/market.go:179-188 | On every UTC day purchases are within the cap, each win is within the cap, and the whole spend is within the cap times one more than the wins of that day. |
| DailyCap.SpendAfterPurchase | internal/service/market.go:179-188 | Just after a purchase the day's spend is within the cap. |
| DailyCap.DayWithinCapIff | internal/service/auction.go:73-82 | Over any history a guild's whole spend of a day is within its cap if and only if each auction it won that day still fitted under the cap when it closed. |
| DailyCap.RunWithinCapIff | internal/service/auction.go:73-82 | The same for any run of requests. |
| Counterexamples.CapIsExceeded | internal/service/auction.go:73-82 | A run in which a guild with cap 105 spends 200 in a day: bid, purchase, win. |
| Settlement.SettlementOutcome | internal/service/auction.go:194-257 | Settlement succeeds exactly when each due auction with a bid has a seller wallet; it closes exactly the due ones; a second time it finds none and changes nothing. |
| Settlement.SettlementOrderIsIrrelevant | internal/service/auction.go:194-278 | Any two orders of the due list give the same verdict, wallets, items and auctions, and ledgers that are permutations. |
| Settlement.MissingSellerWalletBlocksSettlement | internal/service/auction.go:248-251 | Once an auction of a seller without a wallet has a bid, every settlement from its closing time on fails, whatever happens in between. |
| Counterexamples.SellerWithoutWalletBlocksSettlement | internal/service/market.go:68-92 | A run that gets there: listing asks for no seller wallet. |
| BidOrder.SameLeader | internal/adapters/postgres/store.go:191-208 | In any order of its bids an auction has the same leader and minimum. |
| BidOrder.SamePlaceBid | internal/adapters/postgres/store.go:191-208 | In any order a bid has the same verdict, unseats the same leader, and leads to the same bids. |
| BidOrder.SameCancelBid | internal/adapters/postgres/store.go:191-208 | In any order a withdrawal has the same verdict and marks the same bid. |
| BidOrder.SameStep | internal/adapters/postgres/store.go:232-250 | On reordered storage every request has the same verdict and the same effect up to the order of bids. |
| BidOrder.ShuffledRunsAgree | internal/adapters/postgres/store.go:232-250 | A run on storage that may reorder bids after every request ends as on storage that keeps their order. |
| Int64.WalletOpsAgree | internal/domain/wallet.go:35-86 | On a solvent wallet in range reserve, release, settle and debit never overflow, whatever the amount asked. |
| Int64.MinNextBidAgreesIff | internal/domain/auction.go:62-70 | The 64-bit minimum is the unbounded one if and only if five times the leader plus 99 fits. |
| Int64.CapCheckAgreesIff | internal/domain/wallet.go:26-31 | The 64-bit cap check agrees with the unbounded one unless the sum itself overflows under a cap. |
| Int64.Int64IsEnough | internal/domain/money.go:5-14 | If `5G + 99` and each listing's price times quantity fit, then in every state between requests each domain operation agrees, for every argument. |
| Int64UseCases.AttemptAgrees | internal/service/auction.go:46-278 | One request in wrapped arithmetic, whatever it asks for: the same verdict and the same state, the released wallet of a self-raise and the states inside a settlement included. |
| Int64UseCases.Exec64IsExec | internal/domain/money.go:5-14 | Under those bounds, and with room above what each capped guild ever spends, a run in wrapped arithmetic goes through exactly the states of the unbounded run. |
| Int64UseCases.OverflowingCapCheckPasses | internal/domain/wallet.go:26-31 | A bid so large that the cap sum overflows passes the cap check it should fail; the funds check refuses it. |
| Locking.StepsAgree | internal/adapters/postgres/store.go:144-157 | A transaction does the same on any two databases that agree on the rows it holds and the spend of the guilds it holds. |
| Locking.CommitAgrees | internal/adapters/postgres/store.go:62-73 | A commit changes nothing that a transaction holding other rows can see, the cap sum included. |
| Locking.EveryScheduleIsSerial | internal/adapters/postgres/store.go:62-73 | Any interleaving of any number of disciplined transactions, with any aborts and with stored bids reordered at any time, leaves the database of the committed ones run one after another, up to the order of bids. |
| Locking.SerialIsFeasible | internal/adapters/postgres/store.go:62-73 | Conversely, running transactions one after another, each to its commit, is one of the interleavings. |
| LockedUseCases.ListAlone | internal/service/auction.go:14-39 | The listing as a transaction, with the locking search for an active auction of the item, run alone, ends as the atomic listing, whatever the search comes up with. |
| LockedUseCases.BuyAlone | internal/service/market.go:158-223 | The purchase as a transaction, run alone, ends as the atomic purchase. |
| LockedUseCases.BidAlone | internal/service/auction.go:52-131 | The bid as a transaction ends as the atomic bid if the auction found is still the active one, and is refused otherwise. |
| LockedUseCases.CancelAlone | internal/service/auction.go:138-159 | The withdrawal as a transaction ends as the atomic withdrawal, or is refused, likewise. |
| LockedUseCases.SettleAlone | internal/service/auction.go:194-278 | Settlement as a transaction closes exactly those candidates that are due under their locks. |
| Concurrency.CommitIsRequest | internal/adapters/postgres/store.go:62-73 | A transaction that commits when run alone did what its atomic request does, and that request was accepted. |
| Concurrency.JobIsRequest | internal/adapters/postgres/store.go:223-264 | With the right candidate, a job run alone commits exactly when its atomic request is accepted, with the same state, and otherwise fails with the same error. |
| Concurrency.CommitInOrder | internal/adapters/postgres/store.go:191-208 | On storage that reordered bids a commit is, up to that order, the commit on storage that did not. |
| Concurrency.ConcurrentMarketIsSerial | internal/adapters/postgres/store.go:223-264 | Any interleaving of any number of use cases is, up to the order of bids, a serial run of the requests that committed; that run is sound and all gold is there. |
| ConcurrentRuns.RunKeeps | internal/service/auction.go:194-278 | Over any run: gold, replay, closing, stock, single sale of Legendary items, and the exact daily-cap result, together. |
| ConcurrentRuns.ConcurrentMarketKeeps | internal/adapters/postgres/store.go:62-73 | All of these over any interleaving, with any aborts and with stored bids reordered at any time. |
| ConcurrentRuns.ConcurrentMarketFits | internal/domain/money.go:5-14 | Any interleaving is a serial run in 64-bit arithmetic under the same bounds. |
| Concurrency.NoJobIsEverStuck | internal/adapters/postgres/store.go:113-157 | Under no interleaving does a use case write a row, or read or add to a guild's spend, without the lock that covers it. |
| Idempotency.ScopeIsInjective | internal/adapters/httpapi/idempotency.go:51-59 | Scopes of requests without a bar in guild, method and path are equal only for equal requests. |
| Idempotency.GuildsApart | internal/adapters/httpapi/idempotency.go:48-59 | Guilds whose names have no bar never share a scope. |
| Idempotency.OwnsScopeIff | internal/adapters/httpapi/idempotency.go:48-59 | A request is the only one with its scope if and only if none of its guild, method, path and key has a bar. |
| Idempotency.ScopesCollide | internal/adapters/httpapi/idempotency.go:48-59 | For any guild, item and key: a bid of that guild shares its scope with a listing by another guild, whose name has bars. |
| Idempotency.IdempotencyStore.Lookup | internal/adapters/httpapi/idempotency.go:61-70 | Finds what is recorded for the scope. |
| Idempotency.IdempotencyStore.Record | internal/adapters/httpapi/idempotency.go:75-80 | Keeps a response whose status is from 200 to 299, and leaves the cache alone for any other. |
| Idempotency.IdempotencyStore.Serve | internal/adapters/httpapi/idempotency.go:51-81 | Alone: no key passes through; a known scope replays without reaching the handler; a new one is applied and recorded. |
| Idempotency.NothingAppliedAfterRecord | internal/adapters/httpapi/idempotency.go:61-80 | Under any interleaving no request that looks up after a success was recorded for its scope is applied. |
| Idempotency.SuccessStopsRetries | internal/adapters/httpapi/idempotency.go:61-80 | Under any interleaving, once a request ended with a status from 200 to 299 every later request of its scope is answered from the cache. |
| Idempotency.FailuresAreNotKept | internal/adapters/httpapi/idempotency.go:75-80 | A request that ends with any other status leaves the cache as it was. |
| Idempotency.MissesIff | internal/adapters/httpapi/idempotency.go:61-80 | A retry is applied again if and only if no success of its scope was recorded before it looked up. |
| Idempotency.ReplaysAreGenuine | internal/adapters/httpapi/idempotency.go:61-80 | Each response answered from the cache is that of an applied request of the same scope, recorded before the replayed request looked up. |
| Idempotency.TwoRecordsOverlap | internal/adapters/httpapi/idempotency.go:61-80 | Two successes of one scope are recorded only by requests that overlapped. |
| Idempotency.OverlappingRetriesBothApply | internal/adapters/httpapi/idempotency.go:61-80 | Two overlapping copies of a request are both applied. |

## Left out

- HTTP handlers, JSON, routing, the console: transport and presentation.
- The price oracle: advisory, it never affects a trade.
- The settlement worker: settling is a step that may be taken at any time.
- Clocks and identifier generators: times and new identifiers are inputs. Each request may carry any time. New auction and bid identifiers are assumed not to be in use; for items the store itself checks.
- Names of items, identifiers and memos of ledger entries: nothing depends on them.
- Read-only service methods (`GetItem`, `ListItems`, `GetWallet`, `ListAuctions`, `Ledger`): they only pass on the store methods that are modelled.
- Seeding a guild after the first transaction: it overwrites balances without regard to reservations, so seeds only define the initial state, with no negative total.
- Context cancellation before a unit of work starts: it changes nothing.
- SQL text, scanning and connection handling. Assumed of Postgres: a row read `FOR UPDATE` is the latest committed one and stays locked to the end of the transaction, its writes show at commit, a failed unit leaves nothing. A deadlock victim is an abort.
- The search of Postgres for an active or a due auction: what it finds before it holds the lock is any candidate, checked again under the lock.
- LockedUseCases.ListAlone: does not model the schema's unique index on active auctions (internal/adapters/postgres/schema.sql:33-34); a new item has no auction, so it never acts.
- The Postgres error for a duplicate key: a listing with a known identifier fails in the model with the error of the in-memory store.
- The order of the ledger under Postgres: entries count as appended at commit.
- `Extension` truncated to whole seconds by the Postgres adapter: extensions are taken as they are.
- Overflow of the sum of a day's spend: `Int64UseCases` wraps it as the code does and assumes room above it for guilds with a cap; times and durations do not wrap.
- Auctions.Auction: its bids are a sequence; that they lie in arrays which may be shared is the subject of `Aliasing`.
- Idempotency: the responses that failed requests send, headers, and the loss of the cache on restart.
