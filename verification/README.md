# Order book, feed and market maker, verified

A Dafny model of a low-latency trading pipeline: an exchange that matches orders and publishes an
event log, a market data feed that recovers lost packets, and a strategy that quotes from its own
copy of the book.

## How it is built

**The order book.** `PriceTimePriority` is the simple thing: for each side a map from price to a FIFO
queue, and a matcher that walks the opposing side as one flat list. `OrderLists` and `BookState` are the
code's structure: intrusive lists in a pool, two hash maps with tombstones, two price sets and a cached
best bid and offer. Each mutates its fields, and each method's contract says what became of the simple
book. `BookStore` and `BestPrices` hold the arguments, on values. `Clob` is the matching engine over
that book, with a stop that somebody else may ask for between any two looks at the token. `ExchangeRuns`
and `Conservation` are about whole runs of requests on the simple book and `Serving` shows that the
engine does them, `Generator` shows that the book never runs out of room, and `BookFailures` shows where
the code departs from the simple book.

**The feed.** `ReorderBuffer`, `CircularCache` and `LazyRingBuffer` are machines of atomic steps: every
load, store and compare-exchange is a step of its own, and what is proved holds of every interleaving.
`StaleClaims` shows what the one unsafe step of the reorder buffer leads to. `GapDetector`, `Wire`,
`Retransmit`, `MessageCache`, `RetransmitServer` and `RetransmitClient` are the path of a packet asked
for again; `Feed`, `FeedRuns`, `FeedComplete`, `FeedOvertaken` and `Replica` put all of it together,
from the engine's log through cache, multicast, TCP stream and reorder buffer to the strategy's copy of
the book.

**The strategy.** `MarketMaking` holds the market maker's decisions as functions, `StrategyRules` says
in prices, quantities and requests alone what these are, `MarketMaker` is the object that takes them,
`QuoteStream` the discipline of the request stream, `TradingRuns` the loop as a function of the fills,
prices and risk data that come in, `TradingRules` what a verdict of the risk check leads to, and
`Trader` the loop.

Start with `Clob.CentralLimitOrderBook.Submit`, `ExchangeRuns.RunsUncrossed`,
`StaleClaims.SpoilsExactly`, `Replicas.ReplicaFollows`, `FeedCompleteness.FeedIsComplete` and
`TradingRuns.EveryRunFaithful`.

## What the code does not do

- An order to buy at the lowest 32-bit price, or to sell at the highest, rests unseen by the matching
  engine (`BookFailures.SentinelUnseen`); the exact condition is in `BookState.BestOpposingOrder`.
- A quantity update leaves the cached best prices wrong but in the cases of `BestPrices.BestAfterUpdate`,
  because it calls the helper of the opposite direction (`BookFailures.SpoiledByUpdate`). When the order
  is then traded away, its price stays cached with nothing resting at it (`BookFailures.PhantomBest`).
- The reorder buffer loads the reader index and claims the slot in two steps. A duplicate that loads
  before its index is consumed and claims after it puts a stale packet into a later slot
  (`StaleClaims.OvertakenRunMisdelivers`). Exactly such claims do harm (`StaleClaims.SpoilsExactly`). In the
  whole feed a multicast that reorders two packets is enough for an event to be put out twice, the second
  time in the place of another (`OvertakenFeed.ReorderedFeedMisdelivers`).
- The gap detector starts over after packet 2^64 - 1: it asks for everything below the next packet again
  (`GapDetection.StartsOver`). Each packet is accounted for exactly once if and only if nothing comes after
  that packet (`GapDetection.OnceExactly`).
- A cache nothing was put into answers a get of item 0 with its initial contents
  (`CircularCaching.EmptyCacheAnswers`); the feed asks for no packet before it was cached.
- The retransmission server hands a 64-bit packet number to a cache with 32-bit indices and sequences. The
  exact condition for a wrong answer, in the number of puts, the capacity and the packet, is in
  `RetransmitServing.WrongPacketExactly`; `RetransmitServing.WrongPacketSent` sends one.
- The risk check of an increase looks at the increase alone, so the order as increased can leave the
  position limit (`MarketMaking.IncreaseOvershoots`).

## Model

| member | source | states |
|---|---|---|
| `Machine.Mask` | includes/order-book/closed-hash-map.hpp:43-53 | `x & (CAPACITY - 1)`, bit by bit, is the remainder by any power-of-two capacity |
| `Machine.MaskIsRemainder` | includes/order-book/closed-hash-map.hpp:43-53 | the bitwise mask of a power of two is the remainder, for every number and every power |
| `ClosedHashing.ClosedHashMap.constructor` | includes/order-book/closed-hash-map.hpp:77-79 | an empty map, for any hash function and any power-of-two capacity |
| `ClosedHashing.ClosedHashMap.ProbeNew` | includes/order-book/closed-hash-map.hpp:55-62 | the first slot on the key's cyclic path that is not occupied: every slot before it is; and none exactly when every slot is occupied |
| `ClosedHashing.ClosedHashMap.ProbeExisting` | includes/order-book/closed-hash-map.hpp:64-74 | the slot of a live key, and none exactly for a key that is not live |
| `ClosedHashing.ClosedHashMap.Find` | includes/order-book/closed-hash-map.hpp:104-109 | agrees with the finite map: a slot holding the key's value exactly when the map has the key |
| `ClosedHashing.ClosedHashMap.Add` | includes/order-book/closed-hash-map.hpp:88-94 | with fewer live keys than slots, an absent key is added to the finite map, tombstones reused, and no other key hidden or duplicated |
| `ClosedHashing.ClosedHashMap.Remove` | includes/order-book/closed-hash-map.hpp:96-102 | true exactly when the key was live; the map loses that key and nothing else |
| `ClosedHashing.ClosedHashMap.Assign` | includes/order-book/closed-hash-map.hpp:104-109 | writing through a found value changes that key's value and nothing else |
| `ClosedHashing.ClosedHashMap.HasRoom` | includes/order-book/closed-hash-map.hpp:55-62 | while fewer keys are live than there are slots, some slot is not occupied |
| `ClosedHashing.ClosedHashMap.LiveKeys` | includes/order-book/closed-hash-map.hpp:46-48 | counts the keys of the occupied slots, each key in one slot |
| `OrderPools.OrderPool.constructor` | includes/order-book/order-pool.hpp:17-19 | every index free, none live |
| `OrderPools.OrderPool.Allocate` | includes/order-book/order-pool.hpp:21-25 | hands out an index that was not live and stores the order there; every other cell is unchanged |
| `OrderPools.OrderPool.Free` | includes/order-book/order-pool.hpp:27-29 | the index is no longer live; cells are unchanged |
| `OrderPools.OrderPool.Partition` | includes/order-book/order-pool.hpp:12-19 | every index is either live or on the free stack, and never both |
| `OrderPools.OrderPool.Join` | src/order-book/book-state.cpp:165-169 | links two cells to each other and changes nothing else |
| `OrderPools.OrderPool.Bridge` | src/order-book/book-state.cpp:175-184 | links the neighbours of a cell past it and changes nothing else |
| `PriceTimePriority.Best` | includes/order-book/book-state.hpp:46-47 | the front of a price set: the one price better than all others of its side |
| `PriceTimePriority.BestExists` | includes/order-book/book-state.hpp:46-47 | a non-empty price set has a best price |
| `LadderOrder.RankOrder` | includes/order-book/book-state.hpp:46-47 | in the ladder of a side a better price comes first, and within a price the earlier order |
| `LadderOrder.RankSpot` | includes/order-book/book-state.hpp:46-47 | the ladder holds each queued order at the place its price and queue position give it |
| `LadderOrder.RungIsResting` | includes/order-book/book-state.hpp:46-47 | every rung of a ladder is an order resting in a queue |
| `LadderOrder.LadderDescends` | includes/order-book/book-state.hpp:46-47 | prices down the ladder never get better |
| `LadderOrder.LadderDeterminesSide` | includes/order-book/book-state.hpp:46-47 | two sides with the same ladder are the same side: the flat list loses nothing |
| `BookStore.LinkedIsNeighbourly` | includes/order-book/book-state.hpp:36-40 | in a list spelled by its links the cell before and the cell after point at each other |
| `BookStore.ChainUnique` | includes/order-book/book-state.hpp:36-40 | the links of a level spell one list only: two chains with the same ends and links are equal |
| `BookStore.DetachKeepsList` | src/order-book/book-state.cpp:175-184 | after `detach` the links spell the list without the detached cell, whether it was head, tail, inner or only cell |
| `BookStore.AppendKeepsList` | src/order-book/book-state.cpp:165-169 | after linking behind the tail the links spell the list with the new cell at the end |
| `BookStore.LevelDistinct` | src/order-book/book-state.cpp:144-173 | the ids of a level's list are pairwise different |
| `BookStore.LiveFit` | src/order-book/book-state.cpp:144-173 | live pool cells and live ids are in one-to-one correspondence: there are as many |
| `BookStore.OpenRefines` | src/order-book/book-state.cpp:154-163 | a first order at a price: the structure stays consistent and the simple book gains a queue of one |
| `BookStore.QueueRefines` | src/order-book/book-state.cpp:164-170 | a further order at a price: the structure stays consistent and the order joins the back of the queue |
| `BookStore.PlaceRefines` | src/order-book/book-state.cpp:144-173 | `add` refines adding to the simple book, keeps every level, link, total and id consistent, and changes only its level's total |
| `BookStore.CloseRefines` | src/order-book/book-state.cpp:196-202 | removing the last order of a level removes the price from the simple book |
| `BookStore.DetachRefines` | src/order-book/book-state.cpp:203-205 | removing one of several orders removes exactly it from its queue, and keeps the rest in order |
| `BookStore.PurgeRefines` | src/order-book/book-state.cpp:196-211 | `purge_order` refines cancelling on the simple book; the level test on a zero total is right because resting quantities are positive |
| `BookStore.ResizeRefines` | src/order-book/book-state.cpp:230-237 | a new positive quantity refines amending on the simple book and moves the level total by the difference |
| `BestPrices.BestAfterAdd` | src/order-book/book-state.cpp:49-73 | an addition keeps the cached price the best and the cached 32-bit quantity the level total modulo 2^32 |
| `BestPrices.BestAfterReduce` | src/order-book/book-state.cpp:84-108 | a reduction does too, although "emptied" is judged on 32 bits: when the 32-bit quantities agree and the 64-bit total is not used up, refilling from the front finds the same price and the right remainder |
| `BestPrices.CacheAfterAdd` | src/order-book/book-state.cpp:75-82 | both cached sides stay right after an addition |
| `BestPrices.CacheAfterReduce` | src/order-book/book-state.cpp:110-117 | both cached sides stay right after a reduction |
| `BestPrices.BestAfterUpdate` | src/order-book/book-state.cpp:252-263 | after a quantity update, whose helper calls are the opposite ones, the cache is right if and only if UpdateKeepsBest holds of the old cache, price and quantities |
| `BestPrices.CacheAfterUpdate` | src/order-book/book-state.cpp:240-267 | the same for both cached sides |
| `BookFailures.SentinelUnseen` | src/order-book/book-state.cpp:3-43 | an order alone at its side's sentinel price: the reference matcher trades with it, the code's best opposing order is the invalid one |
| `BookFailures.SpoiledByUpdate` | src/order-book/book-state.cpp:249-266 | one order, added and then updated: the cached best prices are right if and only if the quantities agree modulo 2^31 or the new one is twice the old one |
| `BookFailures.PhantomBest` | src/order-book/book-state.cpp:84-108 | one order, added, updated down and then traded away: the book is empty, and the cached best price of its side is still the order's price, with twice the difference as its quantity, unless the two quantities agree modulo 2^31 |
| `BestPrices.EmptyReading` | src/order-book/book-state.cpp:4-20 | the sentinel test reads a side as empty exactly when no price but the sentinel rests there |
| `BookReading.AbsIsOk` | src/order-book/book-state.cpp:144-238 | the simple book of a consistent structure is well formed: no empty queue, positive quantities, every id in one place |
| `BookReading.HoldsCell` | src/order-book/book-state.cpp:190-194 | what rests on the simple book is found through the id map at one cell, with that side, price and quantity |
| `BookReading.IdsAreResting` | src/order-book/book-state.cpp:45-47 | the id map knows exactly the resting ids |
| `BookReading.IdsAreKeys` | includes/order-book/book-state.hpp:44 | the ids of the simple book are the keys of the id map |
| `BookReading.HeadOfLevel` | src/order-book/book-state.cpp:22-42 | the head of a level's list is the first of its queue |
| `BookReading.TotalFits` | includes/order-book/book-state.hpp:35-40 | a level's total always fits the 64 bits it is stored in |
| `BookReading.TotalOfLevel` | includes/order-book/book-state.hpp:36-40 | a level's stored total is the total of its queue |
| `BookReading.TradeIsAmend` | src/order-book/book-state.cpp:220-238 | trading a resting order is amending it to what is left |
| `BookReading.AddableIsPlaceable` | src/order-book/book-state.cpp:144-173 | the simple book accepts an addition exactly when the structure does |
| `BookEffects.AmendHolds` | src/order-book/book-state.cpp:240-267 | after an amendment every other order is where it was, and the amended one holds the new quantity in its place or is gone |
| `BookEffects.ApplyKeepsOk` | src/order-book/book-state.cpp:282-296 | every executable event keeps a book well formed |
| `BookEffects.AddGrows` | src/order-book/book-state.cpp:144-173 | an addition adds its id and its price and touches neither the other side nor another price |
| `BookEffects.AmendShrinks` | src/order-book/book-state.cpp:196-211 | an amendment removes prices and ids at most |
| `OrderListing.OrderLists.constructor` | includes/order-book/book-state.hpp:42-52 | the empty book |
| `OrderListing.OrderLists.Add` | src/order-book/book-state.cpp:144-170 | pool, links, level map, id map and price set move together: the order joins the back of its queue on the simple book |
| `OrderListing.OrderLists.Purge` | src/order-book/book-state.cpp:190-211 | the order leaves list, level map, id map, price set and pool together |
| `OrderListing.OrderLists.Resize` | src/order-book/book-state.cpp:240-267 | the order holds a new positive quantity in its place; the level total follows |
| `OrderListing.OrderLists.Take` | src/order-book/book-state.cpp:229-238 | the order gives up quantity in its place; the level total follows |
| `OrderListing.OrderLists.Head` | src/order-book/book-state.cpp:22-42 | the oldest order at a live price |
| `OrderListing.OrderLists.Exists` | src/order-book/book-state.cpp:45-47 | true exactly for resting ids |
| `OrderListing.OrderLists.FrontOf` | src/order-book/book-state.cpp:84-108 | the best price of a side with its total modulo 2^32, or the sentinel |
| `OrderListing.OrderLists.Read` | src/order-book/book-state.cpp:190-194 | the order of a live id as it rests on the simple book |
| `OrderListing.OrderLists.Room` | includes/order-book/book-state.hpp:42-44 | as many ids and levels are used as orders and prices rest |
| `BookStates.BookState.constructor` | includes/order-book/book-state.hpp:49-52 | the empty book with sentinel best prices |
| `BookStates.BookState.Add` | src/order-book/book-state.cpp:144-173 | refines adding to the simple book; needs only the lists in order, and keeps right cached best prices right; a new best bid is reported exactly for a buy at the old cached bid or above it, a new best offer exactly for a sell at the old cached offer or below it; what it does to wrong cached prices is stated too, as for the next three |
| `BookStates.BookState.Cancel` | src/order-book/book-state.cpp:190-215 | refines cancelling, likewise; a new best price is reported exactly for an order at its side's old cached price |
| `BookStates.BookState.Trade` | src/order-book/book-state.cpp:220-238 | refines trading, likewise: a full trade removes the order, a partial one keeps its queue position; reported as for a cancellation |
| `BookStates.BookState.UpdateQuantity` | src/order-book/book-state.cpp:240-267 | lists and totals refine amending; right cached best prices stay right if and only if the quantity is zero or UpdateKeepsBest holds; right or wrong, they move as the helper of the opposite direction says; a lower quantity is reported as an addition is, any other as a reduction |
| `BookStates.BookState.Execute` | src/order-book/book-state.cpp:282-296 | every executable event, updates included, does to the book what it does to the simple book; which best price is reported as new, and that none is, has its exact condition in the order's side and price and the old cached prices |
| `BookStates.BookState.BestOpposingOrder` | src/order-book/book-state.cpp:3-43 | the first order of the best opposing queue, or the invalid order at price 0 exactly when no price but the sentinel rests there |
| `BookStates.BookState.OrderExists` | src/order-book/book-state.cpp:45-47 | true exactly for resting ids |
| `BookStates.BookState.Snapshot` | includes/order-book/book-state.hpp:81 | the cached price is the best of its side and the cached quantity its queue's total modulo 2^32, or the sentinel on an empty side |
| `BookStates.RoomShrinks` | includes/order-book/book-state.hpp:42-44 | a smaller book has room if the larger had |
| `Matching.MatchConserves` | src/exchange/clob.cpp:37-54 | what was asked for is traded or left over, and what was offered is traded or still rests |
| `Matching.MatchTakesFromTheTop` | src/exchange/clob.cpp:27-35 | trades are the best opposing orders in order, all but the last in full, a buy's at no more and a sell's at no less than its limit, and trading stops only when filled or when the next order is beyond the limit |
| `Matching.MatchExactly` | src/exchange/clob.cpp:27-55 | a fill is the matcher's answer if and only if its trades are the first opposing orders at prices within the limit, taken whole but for the last, what was asked for is used up or the next order is beyond the limit, and the rest is what was not taken |
| `Matching.MatchStep` | src/exchange/clob.cpp:37-54 | the matcher's answer is one trade with the top and then its answer for the rest |
| `Matching.LadderTrade` | src/order-book/book-state.cpp:220-238 | a trade with the head of the best queue shortens the top of the ladder in place, or removes it |
| `Matching.TradeStep` | src/exchange/clob.cpp:39-51 | a trade with the top of the ladder keeps price-time priority (best price, head of the queue, no more than it holds), and leaves the own side untouched |
| `Matching.MatchOnBook` | src/exchange/clob.cpp:68-107 | the matcher's trades can be made one after the other, each with the head of the best queue at its turn and for no more than it holds, and lead to the matcher's rest |
| `Matching.LadderPositive` | src/exchange/clob.cpp:29-37 | every order a new order can meet has a positive quantity |
| `ExchangeModel.LeftoverFits` | src/exchange/clob.cpp:77-84 | what is left of a new order is acceptable to the book and does not cross the other side |
| `ExchangeModel.WorseThanTop` | src/exchange/clob.cpp:29-35 | when the best opposing price is beyond the limit, every opposing price is |
| `ExchangeModel.NewOrderPublishes` | src/exchange/clob.cpp:68-107 | what a new order publishes, event by event: trades with the first orders of the opposing ladder at prices within its limit, and then, if something is left over, its own addition, when every opposing order left is beyond the limit |
| `ExchangeModel.SubmitServes` | src/exchange/clob.cpp:6-25 | every event a request publishes serves it: a trade is on the other side within the request's own price, an addition at that price, a cancellation or an update of the order it names |
| `ExchangeModel.AddStaysSound` | src/exchange/clob.cpp:57-66 | adding the leftover keeps the book uncrossed and every id below the counter |
| `ExchangeRuns.TradeStaysSound` | src/exchange/clob.cpp:39-51 | every single published trade leaves the book well formed and uncrossed |
| `ExchangeRuns.NewOrderSound` | src/exchange/clob.cpp:68-107 | at every event a new order publishes, the event is executable, a trade is with the head of the best queue, and the book is well formed and uncrossed |
| `ExchangeRuns.CancelSound` | src/exchange/clob.cpp:109-123 | so it is at a cancellation |
| `ExchangeRuns.UpdateSound` | src/exchange/clob.cpp:125-142 | and at an update |
| `ExchangeRuns.SubmitKeepsOk` | src/exchange/clob.cpp:6-25 | a request keeps the whole log executable event by event, and the book equal to its replay |
| `ExchangeRuns.RunKeepsOk` | src/exchange/clob.cpp:6-25 | so does every run of requests |
| `ExchangeRuns.RunsUncrossed` | src/exchange/clob.cpp:6-25 | in every run of requests, updates included, after every published event: the log so far is executable, its book is well formed and uncrossed, no price holds both sides, the next event, if a trade, is with the head of that book's best queue, and the whole log builds the engine's book |
| `ExchangeRuns.EveryEventServes` | src/exchange/clob.cpp:6-25 | in every run each event of the log was published by one of the requests and serves it, so no order ever trades beyond its own limit |
| `ExchangeRuns.SoundAtEveryEvent` | src/exchange/clob.cpp:39-66 | stopping after any number of events leaves a sound book |
| `ExchangeRuns.ReplayAppend` | src/order-book/book-state.cpp:282-296 | replaying two logs one after the other is replaying the joined log |
| `Conservation.LogBalances` | src/order-book/book-state.cpp:196-267 | over any executable log: added + revised by updates = resting + cancelled + traded |
| `Conservation.OrderFlow` | src/exchange/clob.cpp:68-107 | per new order: requested quantity = its trades + its addition |
| `Conservation.Conserved` | src/exchange/clob.cpp:37-54 | in every run: accepted + revised by updates = resting + cancelled + 2 x traded |
| `Conservation.DepthSplit` | includes/order-book/book-state.hpp:36-40 | the quantity of a side can be counted level by level in any order |
| `Clob.CentralLimitOrderBook.constructor` | src/exchange/clob.cpp:6-25 | an engine over the empty book, first id 1 |
| `Clob.CentralLimitOrderBook.ExecuteTrade` | src/exchange/clob.cpp:27-55 | one trade with the first order of the best opposing queue, at a price within the limit, published and applied; none only when there is no such order or a look at the stop token saw a request; the token is looked at in any case, and a trade is made only if no look had seen a request |
| `Clob.CentralLimitOrderBook.TradeAll` | src/exchange/clob.cpp:77-78 | the trading loop ends, and what it traded and what is left complete the reference matcher's answer; it stops early only when a look at the token saw a request, and there was a look that saw none for every trade |
| `Clob.CentralLimitOrderBook.PutOrder` | src/exchange/clob.cpp:57-66 | the order is published and rests, or neither and a look at the token saw a request |
| `Clob.CentralLimitOrderBook.NewOrder` | src/exchange/clob.cpp:68-107 | published and applied are the first events of the reference matcher's answer, and all of them unless a stop was seen; the book stays uncrossed; ids are used up only by resting orders or a stop; room is asked for only if something is left to rest |
| `Clob.CentralLimitOrderBook.CancelRequest` | src/exchange/clob.cpp:109-123 | an unknown id is reported and changes nothing; otherwise the order leaves the book and its cancellation is published, or neither and a stop was seen |
| `Clob.CentralLimitOrderBook.UpdateRequest` | src/exchange/clob.cpp:125-142 | an unknown id is reported; otherwise the quantity changes in place and the update is published, or neither and a stop was seen; the engine is as good as before if and only if the cached best prices allow the update |
| `Clob.CentralLimitOrderBook.Submit` | src/exchange/clob.cpp:6-25 | when nobody ever asks for a stop, every request publishes exactly the events of the simple book's answer; otherwise a first part of them, all of it unless a look at the token saw a request; each event serves the request, and was published after a look at the token and before one saw a request; the book is their replay and sound; the engine stays in order but for an update the cached best prices do not allow; what is returned is the new id, the invalid id or the error |
| `Serving.Serve` | src/exchange/clob.cpp:6-25 | the engine over any run of requests it can take: when nobody ever asks for a stop, or none is seen, its book, its id counter and all it published are those of the run on the simple book; in any case what it published is a first part of what that run publishes, and its book is the replay of it; a stop asked for at the k-th look leaves time for k events at most |
| `Serving.ServeOne` | src/exchange/clob.cpp:6-25 | one request of such a run, and what it returns; the token is looked at for every request that may change the book |
| `Clob.ProgressStep` | src/exchange/clob.cpp:77-78 | one more trade keeps the invariant of the trading loop and uses up some of the quantity |
| `Clob.ProgressEnd` | src/exchange/clob.cpp:77-79 | when nothing more can be traded the loop has done exactly the matcher's trades |
| `Clob.BestIsTop` | src/exchange/clob.cpp:30-35 | the best opposing order is the top of the opposing ladder |
| `Clob.LeftoverAddable` | src/exchange/clob.cpp:79-84 | after the loop the leftover meets every precondition of `BookState::add`: fresh id, positive quantity, no opposing level at its price, room |
| `Clob.RoomIsEnough` | src/exchange/clob.cpp:68-107 | an order submitted to a book with room finds room for what is left of it: trades only make room |
| `RandomContainers.SwapRemovedItems` | includes/utils/random-container.hpp:55-70 | moving the last item into the gap removes exactly one occurrence of the chosen item |
| `RandomContainers.RandomContainer.Add` | includes/utils/random-container.hpp:38-46 | the item joins the container unless it is full |
| `RandomContainers.RandomContainer.RemoveRandom` | includes/utils/random-container.hpp:55-70 | any item may go, and the last takes its place; nothing on an empty container |
| `Tracking.TrackedHasRoom` | src/exchange/order-generator.cpp:96-120 | at most 2^13 orders and 1000 levels rest, so pool and maps never run out |
| `Tracking.NewOrderGrows` | src/exchange/order-generator.cpp:112-120 | whatever part of a new order's events was published, the book gains at most that order at its price |
| `Tracking.NewOrderTracked` | src/exchange/order-generator.cpp:118-120 | a new order keeps every resting order tracked once its returned id is added |
| `Tracking.CancelTracked` | src/exchange/order-generator.cpp:56-60 | an order no longer tracked has left the book, unless a stop came first |
| `Tracking.PriceRangeOk` | src/exchange/order-generator.cpp:15-37 | the drawn range is never empty, and holds exactly the prices in [1, 1000] that lie within 10 of the own side's best price or, if aggressive, from the best opposing price to 20 beyond it |
| `OrderGenerator.MarketRequestGenerator.GeneratePrice` | src/exchange/order-generator.cpp:9-41 | a price in [1, 1000] and within 10 of the own side's best resting price or, if aggressive, from the best opposing price to 20 beyond it; 350 stands in for the best bid of an empty side, 650 for the best offer |
| `OrderGenerator.MarketRequestGenerator.SubmitNew` | src/exchange/order-generator.cpp:112-112 | a BuyRequest or a SellRequest, as the side says, at the price and for the quantity given, unless a stop was seen |
| `OrderGenerator.MarketRequestGenerator.PostOrder` | src/exchange/order-generator.cpp:112-120 | submits it and tracks what rests, never beyond the container's capacity |
| `OrderGenerator.MarketRequestGenerator.CancelOne` | src/exchange/order-generator.cpp:56-71 | takes one order off the list, and submits its cancellation if it still rests, which takes it off the book |
| `OrderGenerator.MarketRequestGenerator.PostCancel` | src/exchange/order-generator.cpp:43-73 | keeps the engine sound and every resting order tracked; the last request it makes is a cancellation, unless a stop was seen; no round goes by without a request made or an order taken off the list |
| `OrderGenerator.MarketRequestGenerator.PostNew` | src/exchange/order-generator.cpp:96-120 | so does a new order, after purging a full list; the last request is the new one, on the side asked for, at a price and of a quantity in range |
| `OrderGenerator.MarketRequestGenerator.Purge` | src/exchange/order-generator.cpp:139-143 | on return the list has room or a stop was requested, and no round was idle |
| `OrderGenerator.MarketRequestGenerator.Populate` | src/exchange/order-generator.cpp:131-137 | on return 2^8 orders are tracked or a stop was requested, and no round was idle |
| `OrderGenerator.MarketRequestGenerator.Start` | src/exchange/order-generator.cpp:159-165 | every run keeps the engine sound, prices in range and, until a stop, every resting order tracked; the requests made are a run the engine can take, what it published is a first part of that run's events, and its book is their replay; none was made after a look at the token saw a stop |
| `OrderGenerator.MarketRequestGenerator.Take` | src/exchange/order-generator.cpp:59-60 | a request of the generator joins the run so far, and the engine goes on with that run |
| `OrderGenerator.GenerateRun` | src/exchange/exchange-simulator.cpp:6-22 | the engine driven by the generator from an empty book: the requests made are a run the engine can take from there, and the event log is a first part of its events; until a stop is seen at least every fourth round has made a request, but for 6 rounds |
| `ReorderBuffering.StepKeeps` | includes/utils/reorder-buffer.hpp:78-151 | each atomic step but a stale claim (a compare-exchange that finds its slot empty for an index consumed since the reader index was loaded) keeps the buffer in order |
| `ReorderBuffering.ClaimFails` | includes/utils/reorder-buffer.hpp:119-140 | AlreadyWritten after a failed compare-exchange is truthful: the index was claimed |
| `ReorderBuffering.ClaimSucceeds` | includes/utils/reorder-buffer.hpp:119-140 | a claim of an index not yet consumed is exclusive |
| `ReorderBuffering.AdvanceKeeps` | includes/utils/reorder-buffer.hpp:85-92 | incrementing before emptying is safe: the slot outside the window of CAPACITY - 1 is the only one changing roles |
| `ReorderBuffering.ReleaseKeeps` | includes/utils/reorder-buffer.hpp:91-95 | emptying the slot read disturbs no index of the window |
| `ReorderBuffering.PublishKeeps` | includes/utils/reorder-buffer.hpp:142-151 | a slot becomes ready with its index's own data |
| `StaleClaims.SpoilsExactly` | includes/utils/reorder-buffer.hpp:130-151 | from any buffer in order, at any capacity, a step opens the way to a reader or writer that is misled if and only if it is a stale claim |
| `StaleClaims.StaleClaimSpoils` | includes/utils/reorder-buffer.hpp:130-151 | a stale claim always has a continuation without further stale claims that delivers a wrong packet or reports an index written that nobody wrote |
| `ReorderRuns.AtomicRunsFaithful` | includes/utils/reorder-buffer.hpp:78-151 | with validate-and-claim as one step, for any number of writers and duplicates: the k-th item consumed is the payload of index start + k, and every AlreadyWritten is truthful |
| `ReorderRuns.OnceRunsFaithful` | includes/utils/reorder-buffer.hpp:130-140 | with the load and the compare-exchange apart, the same when no index is attempted twice |
| `StaleClaims.OvertakenRunMisdelivers` | includes/utils/reorder-buffer.hpp:130-151 | with the two apart and one duplicate, at every capacity: a run of two writers, each with the right data, delivers packet 1 in the place of packet capacity + 1 |
| `ReorderRuns.RunKeeps` | includes/utils/reorder-buffer.hpp:78-151 | a run without stale claims keeps the buffer in order |
| `ReorderRuns.AtomicNotStale` | includes/utils/reorder-buffer.hpp:130-140 | claims made at once are never stale |
| `ReorderRuns.OnceRunKeeps` | includes/utils/reorder-buffer.hpp:130-140 | first attempts are never stale |
| `ReorderRuns.LoadTells` | includes/utils/reorder-buffer.hpp:130-140 | a write goes on exactly with an index of the window and is AlreadyWritten at once exactly with one consumed; one too far ahead is told LikelySlowReader exactly when the packet the reader waits for has been written, and LikelySlowWriter otherwise |
| `ReorderRuns.WriterDelivers` | includes/utils/reorder-buffer.hpp:142-151 | from any buffer in order, a free writer can write an index of the window nobody claimed: its slot is then ready with that data, and nothing else changed |
| `ReorderRuns.ReaderDelivers` | includes/utils/reorder-buffer.hpp:78-95 | a polling reader finds the packet it waits for exactly when that was written, and can then consume it and free its slot |
| `GapDetection.GapDetector.HasGap` | src/market-data-handler/gap-detector.cpp:4-15 | the range missing before the packet, exactly when the packet is more than one ahead; the newest id never goes back, but for an arrival other than 2^64 - 1 once that was the newest |
| `GapDetection.EveryPacketOnce` | src/market-data-handler/gap-detector.cpp:4-15 | if nothing comes after the last 64-bit id, each id up to the newest either came in and advanced the detector or is in exactly one requested range; no other id is |
| `GapDetection.OnceExactly` | src/market-data-handler/gap-detector.cpp:4-15 | for every sequence of arrivals: every id is accounted for exactly once if and only if nothing comes after the last 64-bit id |
| `GapDetection.StartsOver` | src/market-data-handler/gap-detector.cpp:4-15 | a detector that has seen packet 2^64 - 1 asks, at the next packet, for everything below it from packet 0 on |
| `GapDetection.RequestsOrdered` | src/market-data-handler/gap-detector.cpp:4-15 | if nothing comes after the last 64-bit id, the requested ranges are non-empty, disjoint and increasing, and each ends at a packet that arrived |
| `GapDetection.WatchAppend` | src/market-data-handler/gap-detector.cpp:4-15 | one more arrival adds to what was asked and never changes it |
| `CircularCaching.StepKeeps` | includes/utils/circular-cache.hpp:47-78 | every load and store of `put_item` and `try_get_item` keeps the cache and the reader's knowledge in order, below 2^32 - 1 puts |
| `CircularCaching.AnswersTruthful` | includes/utils/circular-cache.hpp:47-78 | every answer of every interleaving is truthful: the item put under the index, too old = overwritten, does not exist = not published when asked, concurrent write = a put shared the slot |
| `CircularCaching.AnsweredItem` | includes/utils/circular-cache.hpp:61-68 | an answer is the item put under the index, if any put was complete at the first load or the index is not 0 |
| `CircularCaching.EmptyCacheAnswers` | includes/utils/circular-cache.hpp:47-69 | an empty cache answers a get of item 0 with its initial contents |
| `CircularCaching.FirstLoadSees` | includes/utils/circular-cache.hpp:49-59 | what the first load can see: a lock of that slot, the last item put there, or the initial 0 |
| `CircularCaching.SecondLoadKeeps` | includes/utils/circular-cache.hpp:61-68 | equal sequence loads mean that the data between them is the item's |
| `CircularCaching.LockKeepsStore` | includes/utils/circular-cache.hpp:72-75 | locking the next slot hides only the item a whole capacity older, however many puts there were |
| `CircularCaching.StepKeepsStore` | includes/utils/circular-cache.hpp:47-78 | every step of the writer and of the reader keeps each slot holding the last item put there under its truncated sequence, however often the 32 bits wrapped |
| `CircularCaching.MisansweredExactly` | includes/utils/circular-cache.hpp:47-78 | after any number of puts, a get of an item by its 32-bit index is answered with another item if and only if another put of the current lap has that index |
| `CircularCaching.MisansweredEarly` | includes/utils/circular-cache.hpp:47-78 | below 2^32 puts that is so exactly for item numbers beyond 32 bits whose low 32 bits name an item still cached |
| `CircularCaching.MisansweredLate` | includes/utils/circular-cache.hpp:71-78 | after 2^32 + 1 puts item 2^32 is answered rightly under index 0, and item 0 wrongly |
| `MessageCaching.MessageCache.TryGetItem` | includes/utils/circular-cache.hpp:47-69 | between the writer's interleaved steps: what is answered is the message put under the index, or, on a cache nothing was put into, perhaps the initial contents of item 0; with all messages put, exactly the answer of the cache at rest |
| `LazyRings.RunsAreQueues` | includes/utils/lazy-ring-buffer.hpp:71-140 | in every interleaving, however often the 64-bit cursors wrap: consumed is a prefix of published, at most CAPACITY items wait, and the consumer's slot is never the producer's |
| `LazyRings.StepKeeps` | includes/utils/lazy-ring-buffer.hpp:71-140 | each step keeps the ring equal to what was published and not consumed |
| `LazyRings.CursorsTell` | includes/utils/lazy-ring-buffer.hpp:37-43 | the wrapped cursors tell full and empty apart exactly |
| `LazyRings.WrappedSlot` | includes/utils/lazy-ring-buffer.hpp:72-76 | a wrapped cursor points to the slot of the unwrapped count, because the capacity divides 2^64 |
| `LazyRings.FillKeeps` | includes/utils/lazy-ring-buffer.hpp:71-77 | writing a claimed slot overwrites no item not yet consumed |
| `LazyRings.ProducerMoves` | includes/utils/lazy-ring-buffer.hpp:71-77 | in any state a producer is refused a slot exactly when the ring is full, and otherwise can publish any item |
| `LazyRings.ConsumerMoves` | includes/utils/lazy-ring-buffer.hpp:107-113 | in any state a consumer is refused exactly when the ring is empty, and otherwise can consume the oldest item waiting |
| `Wire.BytesRoundTrip` | src/exchange/binary-protocol.cpp:12-28 | network byte order loses nothing |
| `Wire.BytesOnto` | src/exchange/binary-protocol.cpp:38-51 | every string of bytes is the encoding of what it decodes to |
| `Wire.ByteAt` | src/exchange/binary-protocol.cpp:12-17 | byte k of an n-byte field is x / 256^(n - 1 - k) modulo 256 |
| `Wire.Encode` | src/exchange/binary-protocol.cpp:8-31 | the buffer filled field by field is the 18-byte encoding |
| `Wire.EventRoundTrip` | src/exchange/binary-protocol.cpp:8-54 | decoding the encoding of any market event gives the event |
| `Wire.DecodedRoundTrip` | src/exchange/binary-protocol.cpp:33-54 | encoding what bytes decode to gives the bytes |
| `Wire.EventLayout` | src/exchange/binary-protocol.cpp:8-31 | byte 0 is the kind (0 add, 1 cancel, 2 trade, 3 update), then 8 bytes of id, 4 of price in two's complement and 4 of quantity, each highest byte first, and byte 17 the side (0 buy, 1 sell) |
| `Wire.HeaderRoundTrip` | src/exchange/protocol.cpp:6-13 | decoding an encoded header gives the header |
| `Wire.HeaderOnto` | src/exchange/encoded-message.cpp:13-18 | encoding a decoded header gives its bytes |
| `Wire.HeaderLayout` | src/exchange/protocol.cpp:6-13 | 8 bytes of sequence number and 2 of length, highest byte first |
| `Wire.RequestRoundTrip` | src/exchange/tcp-retransmit.cpp:19-40 | parsing a serialized retransmission request gives the request |
| `Wire.RequestLayout` | src/exchange/tcp-retransmit.cpp:31-40 | 8 bytes of first and 8 of last packet, highest byte first |
| `Wire.Sequencer.GenerateMessage` | includes/exchange/sequencer.hpp:24-43 | consecutive numbers, each with its event's encoding |
| `Retransmission.SendRange` | src/utils/network-utils.cpp:83-94 | for any short counts: exactly the bytes up to the new cursor were sent; it fails exactly when a send did, with that error, or went nowhere |
| `Retransmission.RecvRange` | src/utils/network-utils.cpp:96-104 | for any short counts: the next bytes the peer sent, exactly those up to the new cursor, are in place; closed and failed each have their cause in the last receive |
| `Retransmission.Connection.Save` | includes/exchange/tcp-connection.hpp:86-92 | the bytes join what is pending |
| `Retransmission.Connection.Send` | includes/exchange/tcp-connection.hpp:94-112 | sent and pending together do not change: what did not go out stays pending, in order; to a socket that takes all it is given, everything goes out; each error has its cause in the last send |
| `Retransmission.Connection.Receive` | includes/exchange/tcp-connection.hpp:116-141 | a message is the next bytes from the peer, put together from its parts, however they arrive; each error has its cause in the last receive |
| `Retransmission.Connection.Clear` | includes/exchange/tcp-connection.hpp:72-76 | nothing is pending |
| `RetransmitServing.SavedConnection.StreamPackets` | src/exchange/tcp-retransmit.cpp:248-283 | sent plus owed is always what was promised: without an error everything was sent once, after an error a first part, and a later call resumes where this one stopped; InvalidPacket exactly for a first packet below 1 or an item the cache does not have, too old, unavailable and connection errors each for their own cause; none when all packets are held and the socket takes all it is given |
| `RetransmitServing.SavedConnection.SendNext` | src/exchange/tcp-retransmit.cpp:263-279 | one packet more, wholly or in part, as the cache answers while the exchange goes on putting: PacketTooOld, InvalidPacket and PacketUnavailable for the cache's answers too old, does not exist and concurrent write, a connection error only for a failed send, and the whole packet when the cache is at rest with an answer and the socket takes all it is given |
| `RetransmitServing.SavedConnection.ResumeSend` | src/exchange/tcp-retransmit.cpp:255-261 | the rest of a packet partly sent, and no byte of it twice; it fails only when a send does |
| `RetransmitServing.SavedConnection.ReceiveRequest` | src/exchange/tcp-retransmit.cpp:285-295 | a request is parsed once all its bytes are there, and promises its stream; it is there when the peer has sent it, and else the last receive says why not |
| `RetransmitServing.SavedConnection.HandleRequest` | src/exchange/tcp-retransmit.cpp:297-360 | an event leaves the client served, waiting or to be closed, waiting only for a socket that would block, closed only for an error with its cause; a request whose packets are all held is served whole, with its stream sent, to a socket that takes all it is given, and one for packet 0 is answered InvalidPacket; the promise grows by exactly the stream of the request whose bytes came in, and by nothing if none did; what was sent is never taken back |
| `RetransmitServing.SavedConnection.SentIsPrefix` | src/exchange/tcp-retransmit.cpp:248-283 | what the client got is always a first part of what it was promised |
| `RetransmitServing.SavedConnection.HeldIsFound` | src/exchange/tcp-retransmit.cpp:263-276 | with all messages put, the cache has an answer for each of the last 2^15 packets |
| `RetransmitServing.WrongPacketExactly` | src/exchange/tcp-retransmit.cpp:263-276 | after any number of puts, a request for a packet is answered from the cache with the message of another packet if and only if another put of the current lap has its 32-bit index |
| `RetransmitServing.SentForAnother` | src/exchange/tcp-retransmit.cpp:263-279 | whatever else happens, such a client is sent packet 1 or gets an error |
| `RetransmitServing.WrongPacketSent` | src/exchange/tcp-retransmit.cpp:263-279 | for any log that fits the cache: the exchange puts its messages, a client asks for packet 2^32 + 1, which was never put, and is sent packet 1, without an error |
| `RetransmitServing.StreamIsSlice` | src/exchange/tcp-retransmit.cpp:263-279 | while fewer than 2^32 - 1 messages were put a request [a, b) is answered with the messages a, ..., b - 1, one after the other |
| `RetransmitReceiving.ReceiveHeader` | src/market-data-handler/tcp-client.cpp:46-68 | the next 10 bytes as a header; an error message of the server, a closed and a failed connection are told apart, each with its cause |
| `RetransmitReceiving.ReceivePayload` | src/market-data-handler/tcp-client.cpp:70-84 | the next 18 bytes, or the last receive failed |
| `RetransmitReceiving.ReceivePacket` | src/market-data-handler/tcp-client.cpp:46-84 | one whole packet with the expected number, without an error when its bytes come; each error has its cause |
| `RetransmitReceiving.ReceivePackets` | src/market-data-handler/tcp-client.cpp:86-121 | what was received is the packets first, first + 1, ... in order, up to the first look that sees a stop, the last packet or a failure; when the packets of the request are what comes, they are received without an error |
| `RetransmitReceiving.NextComes` | src/market-data-handler/tcp-client.cpp:91-104 | the bytes after n received packets of a whole request are those of the next one, with its number |
| `RetransmitReceiving.FramingUnique` | src/market-data-handler/tcp-client.cpp:46-84 | bytes can be cut into packets in one way only |
| `RetransmitReceiving.ClientGetsLog` | src/market-data-handler/tcp-client.cpp:86-121 | whatever part of the answer came through, the client has the packets of the request in order, each with its own event |
| `MarketFeed.FoundIsMessage` | src/exchange/tcp-retransmit.cpp:263-276 | what the server finds in the cache, step by step against the exchange's puts, is the message of the packet it is to send next |
| `MarketFeed.CutIsPacket` | src/market-data-handler/tcp-client.cpp:86-121 | the packet the client cuts from the bytes that came through is the next packet of the log |
| `MarketFeed.StepKeeps` | src/market-data-handler/market-data-handler.cpp:37-85 | every step of exchange, cache, server, network, client, handler and publisher that is no stale claim keeps the feed in order; only packets already sent, and so cached, are asked for or written |
| `FeedRuns.AtomicFeedDelivers` | src/market-data-handler/market-data-handler.cpp:37-85 | under any loss, duplication and reordering of the multicast, any interleaving with the cache, and any parts in which the TCP stream comes through, with validate-and-claim as one step, the decoded output is a prefix of the exchange's event log |
| `FeedRuns.OrderedFeedDelivers` | src/market-data-handler/market-data-handler.cpp:37-85 | with the two-step claim of the code, the same over a multicast that only loses packets |
| `OvertakenFeed.ReorderedFeedMisdelivers` | src/market-data-handler/market-data-handler.cpp:37-85 | with the two-step claim over a multicast that also reorders packets it fails: at every capacity from 3 on and for every log long enough, some run of exchange, server, client, listener and publisher puts out the first event again in the place of event capacity + 1, before that was even sent |
| `OvertakenFeed.Overtaken` | includes/utils/reorder-buffer.hpp:130-151 | so whenever packet 2 waits in its slot and the client has checked packet 1 and not yet claimed it |
| `OvertakenFeed.FirstFetchedNext` | src/market-data-handler/tcp-client.cpp:86-121 | the request for packet 1 is answered from the cache, and the client begins to write it |
| `FeedRuns.InvDelivers` | includes/market-data-handler/publisher.hpp:23-41 | the output is decoded from the packets of the log, in order, and none is put out before it was sent |
| `FeedRuns.UntriedStep` | src/market-data-handler/market-data-handler.cpp:49-65 | over such a multicast the ranges still to fetch stay disjoint and untried |
| `FeedRuns.FirstTriesStep` | src/market-data-handler/market-data-handler.cpp:49-65 | so no packet is tried twice, and no claim is stale |
| `FeedCompleteness.EveryPacketTried` | src/market-data-handler/gap-detector.cpp:4-15 | at rest, each packet up to the newest was tried: it arrived, or it was in a range that was fetched |
| `FeedCompleteness.RestIsComplete` | src/market-data-handler/market-data-handler.cpp:37-85 | a feed at rest has every packet up to the newest: consumed, or ready in its slot with its own data |
| `FeedCompleteness.FeedIsComplete` | src/market-data-handler/market-data-handler.cpp:37-85 | so has every run, under any loss, duplication and reordering, whenever it has come to rest |
| `FeedCompleteness.OrderedFeedIsComplete` | src/market-data-handler/market-data-handler.cpp:37-85 | the same with the two-step claim over a multicast that only loses packets |
| `Replicas.OrderBookEngine.Consume` | src/strategy-oms/engine.cpp:4-16 | an event, updates included, is executed; new best prices are published exactly when it reports some, and those published stay those of the book |
| `Replicas.OrderBookEngine.Start` | src/strategy-oms/engine.cpp:4-16 | after any replayable events the book is their replay and the published best prices are in step; without updates they are the right ones |
| `Replicas.RunReplayable` | src/exchange/clob.cpp:6-25 | the whole log of a run whose requests were submitted as the engine asks can be replayed: every event executable, every addition with room |
| `Replicas.GeneratedSubmission` | src/exchange/exchange-simulator.cpp:18-22 | the requests the order generator makes from an empty book are such a run |
| `Replicas.ReplicaFollows` | src/exchange/exchange-simulator.cpp:24-53 | end to end, over a network that may lose, repeat and reorder: what comes out of the feed can be replayed, and its replay is the matching engine's book after as many events, well formed and uncrossed |
| `Replicas.ReplicaFollowsInOrder` | src/exchange/exchange-simulator.cpp:24-53 | the same with the two-step claim over a multicast that only loses packets |
| `Replicas.Replicate` | src/strategy-oms/engine.cpp:4-16 | so a replica fed with it holds, in its own order book, the engine's book of that moment, and without updates right best prices |
| `SingleThreadRings.SingleThreadRingBuffer.TryPush` | includes/utils/single-thread-ring-buffer.hpp:22-27 | the item joins the back of the queue unless it is full |
| `SingleThreadRings.SingleThreadRingBuffer.TryFront` | includes/utils/single-thread-ring-buffer.hpp:36-39 | the oldest item |
| `SingleThreadRings.SingleThreadRingBuffer.Pop` | includes/utils/single-thread-ring-buffer.hpp:41-43 | the oldest item leaves |
| `MarketMaking.PairIsPassive` | src/strategy-oms/market-maker.cpp:23-36 | a new pair lies strictly inside the market, at least the minimum spread apart and within the maximum of the midpoint |
| `MarketMaking.NewOrderPasses` | includes/strategy-oms/trader.hpp:78-117 | from a position within the limit, a new order passes the check if and only if no fill of it, partial or whole, can take the position out of the limit and the other limits are kept |
| `MarketMaking.IncreasePasses` | includes/strategy-oms/trader.hpp:98-114 | an increase passes if and only if no fill of what it adds can |
| `MarketMaking.IncreaseOvershoots` | includes/strategy-oms/trader.hpp:102-109 | so the order as increased can still leave the limit after the increase passed: exactly when its whole quantity reaches beyond the limit and what was added does not |
| `MarketMaking.OvershootExample` | includes/strategy-oms/trader.hpp:102-109 | flat, with a limit of 100, an order may be raised from 75 to 150 |
| `MarketMaking.RebalanceLeans` | src/strategy-oms/market-maker.cpp:115-133 | rebalancing leans against the net fill: the exit order grows and the other shrinks within [25, 75); up to 150 the exit order filled whole leaves one base quantity beyond flat, and the other adds at most the least quantity or leaves one base quantity |
| `StrategyRules.PairExactly` | src/strategy-oms/market-maker.cpp:22-36 | a pair is quoted if and only if both sides of the market quote, 6 ticks or more remain between the ticks next to the best prices and the bid would be at least 1; it is max(mid - 10, bid + 1) and min(mid + 10, offer - 1) |
| `StrategyRules.GetOrdersExactly` | src/strategy-oms/market-maker.cpp:135-145 | new prices lead, with room in the queue, and if a side has no order or the midpoint is more than 2 from the quoted one, to the cancellations of what was placed and, if the market can be quoted, a buy and a sell order of 75 under the next two ids, strictly inside the market and noted as placed; and otherwise to nothing |
| `StrategyRules.FilledExactly` | src/strategy-oms/market-maker.cpp:147-157 | a fill takes min(filled, left) off the order and adds it to the position; the order stays placed exactly while something is left |
| `StrategyRules.RebalanceExactly` | src/strategy-oms/market-maker.cpp:115-133 | from a net position of 25 on the order that leads back is raised by the position, 150 at most, and the other lowered by it, to 25 at least, each by an update of what is placed; below, nothing happens |
| `StrategyRules.OnFillExactly` | src/strategy-oms/market-maker.cpp:147-159 | a fill of a placed order does both, of any other nothing |
| `StrategyRules.NotifyInvalidExactly` | src/strategy-oms/market-maker.cpp:170-192 | a rejected update gets its previous quantity back and a rejected new order is not placed; a halt or too great a loss cancels both sides, too much exposure the side of the request, as far as there is room; and nothing else changes |
| `StrategyRules.VerdictExactly` | includes/strategy-oms/trader.hpp:78-117 | the exact condition of each verdict, in the order of the checks |
| `MarketMakers.PassiveMarketMaker.QueueCancelOrders` | src/strategy-oms/market-maker.cpp:45-62 | cancels both placed orders, or neither when the queue lacks room |
| `MarketMakers.PassiveMarketMaker.QueueNewOrderPair` | src/strategy-oms/market-maker.cpp:64-93 | both sides are placed and queued under new ids at the prices of PairExactly, or neither |
| `MarketMakers.PassiveMarketMaker.RebalanceExposure` | src/strategy-oms/market-maker.cpp:115-133 | the object and its queue end as the rebalancing decision says (`MarketMaking.RebalanceLeans` says what that is for) |
| `MarketMakers.PassiveMarketMaker.GetOrders` | src/strategy-oms/market-maker.cpp:135-145 | new prices change the strategy and its queue as GetOrdersExactly says |
| `MarketMakers.PassiveMarketMaker.Update` | src/strategy-oms/market-maker.cpp:147-159 | a fill is booked on its side and exposure rebalanced, as OnFillExactly says |
| `MarketMakers.PassiveMarketMaker.NotifyInvalid` | src/strategy-oms/market-maker.cpp:170-192 | a rejection is undone, and orders cancelled as its reason asks, as NotifyInvalidExactly says |
| `QuoteStream.NoSecondOrder` | includes/strategy-oms/trader.hpp:47-76 | in a disciplined stream two new orders on a side have the cancellation or the full fill of the first between them |
| `QuoteStream.NoIdTwice` | includes/strategy-oms/trader.hpp:47-76 | in a clean stream no two new orders have the same client id |
| `QuoteStream.GetOrdersSteady` | src/strategy-oms/market-maker.cpp:135-145 | new quotes from an empty queue keep queue and stream in order, and at most 6 requests and placed orders to work off |
| `QuoteStream.UpdateSteady` | src/strategy-oms/market-maker.cpp:147-159 | so does a fill |
| `QuoteStream.SendSteady` | includes/strategy-oms/trader.hpp:65-73 | sending the front keeps it so and is progress |
| `QuoteStream.RejectSteady` | src/strategy-oms/market-maker.cpp:170-192 | so does any rejection, although it may queue cancellations; a halt or too great a loss leaves both sides not placed |
| `QuoteStream.Unsent` | src/strategy-oms/market-maker.cpp:176-182 | if a new order is not sent after all, the requests queued behind it still make a disciplined stream |
| `QuoteStream.QueueNewPairSteady` | src/strategy-oms/market-maker.cpp:64-93 | a new pair may follow queued cancellations |
| `Traders.Trader.CheckRisk` | includes/strategy-oms/trader.hpp:78-117 | the verdict VerdictExactly gives on what is found at its turn; after a stop nothing passes |
| `Traders.Trader.PlaceFront` | includes/strategy-oms/trader.hpp:49-73 | one request is checked, and sent, popped and handed over if it passes, or popped, rejected and undone, as CheckedExactly says; on a full trade buffer it is sent and stays |
| `Traders.Trader.PlaceNewOrders` | includes/strategy-oms/trader.hpp:47-76 | terminates, with the queue worked off, stopped or on a full trade buffer, exactly as PlaceAll says of the same readings; what was sent is never changed; too great a loss, or a halt, found at the front leaves both sides without an order, and too much exposure the side of the request |
| `Traders.Trader.ForwardUpdates` | includes/strategy-oms/trader.hpp:119-128 | each fill is taken and what it queues placed, exactly as AfterFills says |
| `Traders.Trader.Start` | includes/strategy-oms/trader.hpp:130-158 | the trader and all its histories end exactly as AfterRun says of the same fills, prices and readings |
| `TradingRuns.EveryRunFaithful` | includes/strategy-oms/trader.hpp:130-158 | in every run, whatever comes in: the stream is clean, each request of it passed the risk check against what was found at its own turn, orders ended by fills were ended by fills that came in that order and at that place of the stream, the position is what these fills came to, and at most 6 checks are made per fill and per round |
| `TradingRuns.SecondOrderExplained` | includes/strategy-oms/trader.hpp:130-158 | between two new orders sent on one side the first was cancelled, or one of the fills that came was of it and of no less than was left of it, and was taken after the first was sent and before the second |
| `TradingRuns.HaltFlattens` | includes/strategy-oms/trader.hpp:49-73 | while trading is halted only requests that reduce exposure are sent, and once another one has come up both sides of the strategy are left without an order |
| `TradingRuns.PlaceAllWork` | includes/strategy-oms/trader.hpp:47-76 | placing orders takes no fills and makes at most one check for each request queued and each order placed |
| `TradingRuns.CheckedKeeps` | includes/strategy-oms/trader.hpp:49-73 | each check keeps queue and stream in order and is progress, although a rejection may queue cancellations |
| `TradingRuns.FillGained` | src/strategy-oms/market-maker.cpp:147-159 | a fill moves the position by no more than the order had left |
| `TradingRuns.FillAppended` | src/strategy-oms/market-maker.cpp:147-159 | a fill adds to the stream the end of its order exactly when it used up what was left of it |
| `TradingRules.CheckedExactly` | includes/strategy-oms/trader.hpp:49-73 | what passes is sent, what is rejected is popped and answered as its verdict asks, and after a stop nothing happens |
| `TradingRules.LossFlattens` | src/strategy-oms/market-maker.cpp:184-185 | too great a loss, or a halt, at a check leaves both sides without an order, whatever the checks after it find |
| `TradingRules.ExposureCancels` | src/strategy-oms/market-maker.cpp:161-168 | too much exposure takes the order of the rejected request's side out of the market, with one cancellation at most, and leaves the other side as it was |

## Left out

- BookStates.BookState.UpdateQuantity: the cached best prices are claimed right after an update only under the exact condition; the code calls the helper of the opposite direction.
- Clob.CentralLimitOrderBook.Submit: asks, of an order some of which is left to rest, that it is not priced at its own side's sentinel (`BookFailures.SentinelUnseen` says why) and that pool and maps have room for it (`Tracking.TrackedHasRoom` gives it for the generator), and that the 64-bit id counter does not wrap; after an update the cached best prices do not allow, only the lists are claimed right.
- Clob.CentralLimitOrderBook.NewOrder: a stop between taking the id and claiming a slot returns an id that never rests, as the code does.
- BookStates.BookState.Add: asks for a fresh id, a positive quantity, a price that holds no opposing order, and room; the engine is proved to meet all of them.
- ExchangeRuns.RunsUncrossed: speaks of the simple book's answers, which are the code's as long as no update spoiled the cached best prices (`Serving.Serve`); a run in which one did is not followed further.
- OrderGenerator.MarketRequestGenerator.Start: the loops end with probability one only; `fuel` cuts a run anywhere, and what is proved holds of every such run. Choices are nondeterministic within the stated ranges.
- ReorderRuns.AtomicRunsFaithful: treats the load of the reader index and the compare-exchange as one step; the code does not, see `StaleClaims.OvertakenRunMisdelivers` and `OvertakenFeed.ReorderedFeedMisdelivers`.
- ReorderBuffering.StepKeeps: packet numbers are unbounded, so `reader_index_ + MAX_INDEX_AHEAD` does not wrap; LikelySlowReader and LikelySlowWriter speak of the moment of the load and the look after it.
- FeedRuns.AtomicFeedDelivers: fewer than 2^32 - 1 events, as many as the cache's 32-bit sequence tells apart; the bounded request queue and the fatal slow-reader and slow-writer exits, which only end a run, are not modelled.
- RetransmitServing.SavedConnection.HandleRequest: closing a client, notifying it of the error and registering socket events are not modelled; nothing is claimed of what a client gets that asked before the first message was cached (`early`), since the cache may then answer with its initial contents.
- RetransmitReceiving.ReceivePacket: a packet of another size or number, which the source asserts away, ends the request.
- Wire.EventRoundTrip: `Decoded` answers none for kind and side bytes that name no enumerator; the code would cast them.
- LazyRings.RunsAreQueues: waiting and the stop token are not modelled; a claim is tried or fails.
- SingleThreadRings.SingleThreadRingBuffer.TryPush: the cursors are unbounded.
- MarketMakers.PassiveMarketMaker.QueueNewOrderPair: prices are added without 32-bit overflow.
- Traders.Trader.Start: asks that the 64-bit client id counter does not wrap; a round's fills are those found in the buffer until it is empty.
- MarketMaking.NewOrderPasses: the position is the one in the risk data; whether it counts orders still open is not known, as what fills it in is only declared.
- RetransmitReceiving.ReceivePackets: sending the request is `Retransmission.SendRange`; the ghost parameter `whole` names the packets that may be on their way.
- Sockets, kqueue, multicast set-up, accepting connections: foreign calls; a socket is what each send and receive in turn does, any counts and errors, and the bytes the peer sends.
- C++ memory orderings, cache lines and `wfe`/`sev`: steps are sequentially consistent.
- Spin-waiting and thread scheduling: safety and the measures of sequential loops only.
- OrderManagementSystem: only declared in the repository; its risk data and fills are arbitrary inputs.
- `SeqLock`, `SharedRingBuffer`: they repeat the arguments of the cache and the ring.
- Logging, error texts, configuration and drivers.
