# Verified model of the exchange pipeline and the deposit ledger

The project models two services and proves, over whole runs, what keeps them correct.

**The exchange** (`cex/gitbitex-spot`). One stream of orders drives a price-time order book, which
emits numbered logs. A committer stores the logs in batches and approves snapshots. Replicas rebuild
the book from the logs and publish level changes, clients follow them by websocket, and a settlement
stage turns the logs into fills, bills and balances. Each stage is correct with respect to the one
before it:

| file | what it holds |
|---|---|
| Market, Decimals, DedupWindow | orders and logs in ticks, the market-buy division, the order-id window and its bitmap |
| Book, PriceTime, BookInvariant | the book as a value, the matching loop against price-time priority, the book invariant over runs |
| OrderBook | the book as the engine keeps it in memory, proved equal to the value |
| Recovery, Lifecycle | snapshot and replay, and the life of one order as the logs tell it |
| Replica, ReplicaRefinement, ReplicaSnapshots, ReplicaBook | the replica, its refinement of the book, its snapshots, its in-memory form and stream |
| Level2, ClientView | the snapshot and increment protocol of one client, and what the client sees of the engine |
| LogReader, Engine, EngineGap | the log filter, the engine with crashes, and a history that breaks it |
| AnyRun, TradeSizes | what the logs of a run say of its orders, whatever they are, and when trade sizes are positive |
| Settlement, TableStore, FillMaking, Ledger, Exchange, FinalSettlement | tables, their transactions, and conservation over the whole exchange |
| Solvency | when orders, holds and balances stay non-negative |
| Candles | candles and their merge |

**The deposit ledger** (`go-staking-interaction`): Deposits and LockManager model workers that take an
expiring lock and commit under a version check and a unique hash.

Sums holds sums over sequences and maps.

## How it is modelled

Decimals are integers in ticks: prices in units of 10^-QuoteScale, sizes in 10^-BaseScale, funds in
the product of both. A tree map is an ordered map, and removing the entry an iterator stands on does
not disturb the rest. Channels are FIFO queues, goroutines are steps taken in any order, and timers
are steps that may happen any time. The price of a market buy, the largest float, is the parameter
`topPrice`. Kafka, Redis and MySQL calls, clocks and random values are parameters or steps; order
offsets count from 0 without gaps.

Each stage that changes state in place is a class whose methods are proved equal to a function on
values; the theorems over runs are about these functions.

## What is assumed, and where the code is weaker than its intent

- Streams submit no id twice; `OrderBook.AddAgreesIff` says exactly when a repeated id splits table and
  queue. Nothing else is assumed of the orders by the book invariant, recovery, the replica, its clients,
  the engine histories, conservation and settlement. Only what an order may spend (Lifecycle,
  `BookInvariant.ApplyEffect`, `FillMaking.TradesWithinOrder`, `Solvency.NothingOverspent`) and that no
  run panics are for *good* orders: sizes, funds and prices not negative, and limit sells priced above 0
  and below 2 * 10^(16 - BaseScale), which placing an order does not check. `BookInvariant.PanicsIff` says
  exactly when the engine panics, to stay at that order from then on; `Decimals.BuyableSizeBound` exactly
  from which price on a market buy can overspend; and `Exchange.HoldsAreTied` what that does to holds.
- A market buy that overspent stops at the next maker, unless BaseScale is 16: then it can trade a size of
  minus one (`TradeSizes.SoldBack`), and balances are only told for asks below the bound.
- `Window.put` works on a copy (matching/window.go:119), so the window never slides while its bitmap is
  shared. `DedupWindow.AcceptsIff` says what it screens; ids above 10000 always pass.
- A snapshot shares the bitmap with the running book (matching/order_book.go:224).
  `Recovery.RecoveryEquivalence` and the engine histories are for a snapshot that owns its bits;
  `Recovery.SharedBitmapRecoveryIff` says exactly when the code as written still recovers.
- The committer approves a snapshot at once when its logs were received, stored or not
  (matching/engine.go:201). `Engine.HistoryDeliversIff` says of every history exactly when readers still
  get the run; `Engine.HistorySafe` that they do when each crash finds the logs of its snapshot stored;
  and `EngineGap.GapHistory` is a history in which one does not and the topic is left with a gap.
- The committer starts from the restored log number, although it is read after the applier was started
  (matching/engine.go:95-98, :165).
- A level-2 snapshot does not clear the unsent changes (pushing/client.go:184-193).
  `Level2.SessionInStep` holds when answered requests meet an empty buffer, which
  `Level2.RequestWithBufferIff` shows exact for the changes sent; `Level2.BookAfterRequestIff` says exactly
  when the book of the client is right all the same, and `Level2.StaleChangeRevived` is a session in which
  it is not. A snapshot is never older
  than anything sent or noted as a gap; changes that arrive while a snapshot is awaited are not noted.
- The lock on the balance row is taken after the balance was tested (service/account_service.go:92,
  :100), and the test is not repeated: `Solvency.BalancesNonNegativeIff` and
  `Solvency.BalanceOverdrawn` say when that overdraws a balance. No result on conservation depends on it.
- The two fills of a trade can be written apart and a restart resumes after the last one written
  (worker/fill_maker.go:43-46), so conservation is for crash-free fill making.
- `gorm:query_option` sets no row lock in the version of gorm in use, so the deposit transaction rests on
  the version check and the unique hash alone; a deposit that loses the check is dropped, not retried.
- Lock values are random; no two workers of a history draw the same (common/redis/lock_manager.go:191-195).
- The fill of a taker records the side of the maker and the other way round (worker/fill_maker.go:69,
  :81); settlement takes the side from the order, as the model does.

## Model

| member | source | states |
|---|---|---|
| DedupWindow.WindowStruct.Put | cex/gitbitex-spot/matching/window.go:119-133 | accepts or refuses exactly as the window value says, in bounds, and leaves the shared bits of exactly one more id; the range stays, because the receiver is a copy |
| DedupWindow.AcceptsIff | cex/gitbitex-spot/matching/window.go:119-133 | after any history of puts an id passes if and only if it is past the range, or inside it and no earlier id past the lower end left the same residue |
| DedupWindow.AcceptedOnce | cex/gitbitex-spot/matching/window.go:127-131 | no id of the range passes twice, whatever is put before and between |
| DedupWindow.RepeatPassesPastRange | cex/gitbitex-spot/matching/window.go:122-126 | an id past the range always passes again: the bound on the property above is exact |
| DedupWindow.SetInPlace | cex/gitbitex-spot/matching/window.go:48-56 | setting or clearing a bit of the byte bitmap changes the set of set bits by that one index |
| DedupWindow.SetBit | cex/gitbitex-spot/matching/window.go:62-67 | the byte with one bit set or cleared agrees with the old byte on the other seven |
| DedupWindow.NewBitmap | cex/gitbitex-spot/matching/window.go:36-42 | a new bitmap has room for every residue and no bit set |
| DedupWindow.NewWindow | cex/gitbitex-spot/matching/window.go:110-117 | a new window spans its range and has no bit set |
| Decimals.BuyableSizeExact | cex/gitbitex-spot/matching/order_book.go:142 | the size bought is the affordable size, or one tick more when the left-over funds are within half a division unit of a full tick |
| Decimals.BuyableSizeBound | cex/gitbitex-spot/matching/order_book.go:142 | rounding to 16 places and truncating is the floor for all funds if and only if the price is below 2 * 10^(16 - BaseScale) |
| Decimals.BuyableSizeWithin | cex/gitbitex-spot/matching/order_book.go:142-152 | below the bound, the size bought at a price is the floor of funds over price |
| Decimals.AffordableSize | cex/gitbitex-spot/matching/order_book.go:142-152 | any size up to the affordable one leaves funds of at least zero, and the affordable one leaves less than one tick costs |
| Decimals.OverspendWitness | cex/gitbitex-spot/matching/order_book.go:142 | at any price from the bound up, funds one short of a tick buy a whole tick |
| PriceTime.Overspends | cex/gitbitex-spot/matching/order_book.go:136-152 | the same through the matching loop: such a market buy ends with its funds at minus one |
| PriceTime.SweepIsPriceTime | cex/gitbitex-spot/matching/order_book.go:109-172 | the matching loop is price-time priority: makers hit are a prefix of the queue, all but the last bought out, each trade within the limit and at the maker price, nothing overspent, no early stop; books, logs and taker are those of these fills |
| PriceTime.PriceTimeUnique | cex/gitbitex-spot/matching/order_book.go:109-172 | there is only one way to keep price-time priority, so the property above determines the result |
| PriceTime.TradedVolume | cex/gitbitex-spot/matching/order_book.go:109-172 | a size-limited taker trades exactly the lesser of its size and all that rests within its limit |
| OrderBook.AddAgreesIff | cex/gitbitex-spot/matching/order_book.go:272-275 | adding an order keeps the id table and the tree map together if and only if its id does not rest at another price |
| OrderBook.Depth.Add | cex/gitbitex-spot/matching/order_book.go:272-275 | the table takes the order and the tree map its key, whatever rested before; the two still agree if and only if the id did not rest at another price, and then a new order is at its place in matching order and a repeated one replaces the old where it stood |
| OrderBook.Depth.DecrSize | cex/gitbitex-spot/matching/order_book.go:277-294 | fails exactly for an unknown id or too small a size, and otherwise takes the size off, removing the order from table and queue at zero |
| OrderBook.OrderBook.constructor | cex/gitbitex-spot/matching/order_book.go:71-87 | a new book is empty with a fresh window |
| OrderBook.OrderBook.ApplyOrder | cex/gitbitex-spot/matching/order_book.go:89-198 | the method over table and tree map is the specified application: panics when that does, same logs, counters, window and makers; the own side too if the id does not rest there, and otherwise table and tree map with the order put in, which is sound if and only if the old price is the same |
| OrderBook.OrderBook.MatchMakers | cex/gitbitex-spot/matching/order_book.go:109-172 | the iterate-and-remove loop computes the recursive sweep: kept makers, taker, logs, both counters |
| OrderBook.OrderBook.TradeSize | cex/gitbitex-spot/matching/order_book.go:113-153 | stops, divides by zero or trades exactly when and as much as the sweep does |
| OrderBook.OrderBook.CancelOrder | cex/gitbitex-spot/matching/order_book.go:200-217 | the method is the specified cancellation, also when nothing is found |
| OrderBook.OrderBook.Snapshot | cex/gitbitex-spot/matching/order_book.go:219-238 | lists every resting order of each side once, asks then bids, with both counters, and goes on sharing the bitmap; the whole lists no id twice when the sides share none |
| OrderBook.OrderBook.Restore | cex/gitbitex-spot/matching/order_book.go:240-251 | whatever is listed, table and tree map are those of adding the orders one by one, with the counters and the window, or a fresh window when there is none; when no order of a side is listed twice the book is the specified one |
| BookInvariant.ApplyEffect | cex/gitbitex-spot/matching/order_book.go:89-198 | what an accepted order does to an ordered book of good orders, told by its price-time fills: both sides, logs, counters, window |
| BookInvariant.ApplyKeepsInv | cex/gitbitex-spot/matching/order_book.go:89-198 | whatever the prices, sizes and funds: an application that does not panic keeps both sides sorted, ids unique across sides, sizes positive and every bid below every ask |
| BookInvariant.CancelKeepsInv | cex/gitbitex-spot/matching/order_book.go:200-217 | so does every cancellation |
| BookInvariant.PanicsIff | cex/gitbitex-spot/matching/order_book.go:136-142 | whatever the prices, sizes and funds: an order panics the engine if and only if it is an accepted market buy with funds left to spend and the best ask is priced at zero |
| BookInvariant.PanicReached | cex/gitbitex-spot/matching/order_book.go:136-142 | the shortest run that panics: a limit sell priced at zero comes to rest, then a market buy with funds arrives |
| BookInvariant.RunKeepsInv | cex/gitbitex-spot/matching/order_book.go:89-217 | the book invariant holds in every state that a run with unique ids reaches, whatever its prices, sizes and funds, and only submitted orders rest |
| BookInvariant.GoodRunSurvives | cex/gitbitex-spot/matching/order_book.go:89-217 | no run of good orders panics, and the orders that rest are good |
| BookInvariant.RunNumbered | cex/gitbitex-spot/matching/order_book.go:253-261 | for every run, log and trade numbers increase by one from one without a gap, and the counters count them |
| Recovery.RestoreIsIdentity | cex/gitbitex-spot/matching/order_book.go:219-251 | restoring a snapshot of any book that keeps the invariant, however it lists the orders, gives back that very book |
| Recovery.RecoveryEquivalence | cex/gitbitex-spot/matching/engine.go:102-158 | for every stream with unique ids, whatever its prices, sizes and funds, and every cut it reaches: a snapshot owning its bits, restored and fed the rest of the stream, ends in the same book with the same logs as the uninterrupted run, or panics where that does |
| Recovery.SharedBitmapRecoveryIff | cex/gitbitex-spot/matching/order_book.go:219-238 | with the bits shared until the snapshot is written, recovery of such a run gives the same logs if and only if no order inside the window range passed in between |
| Recovery.OneOrderLost | cex/gitbitex-spot/matching/order_book.go:224 | the least failing history: one order accepted between snapshot and write is never matched after recovery |
| AnyRun.RunAccount | cex/gitbitex-spot/matching/order_book.go:89-217 | for every run with unique ids that does not panic, whatever its prices, sizes and funds: orders are opened once, for exactly what their trades left; trades are between two orders on opposite sides, at the price of an open maker and within what is left of it; orders end once, limit orders for exactly what is left; and what rests is exactly what was opened and not ended, each with what its trades left |
| AnyRun.RunKnown | cex/gitbitex-spot/matching/order_book.go:89-217 | in particular both parties of a trade are orders of the run on opposite sides, every other log is about an order of the run, and none mentions an order after its end |
| Lifecycle.RunTracked | cex/gitbitex-spot/matching/order_book.go:89-217 | for every run of good orders and every submitted order, after any number of commands the logs so far form a life of the order (the grammar below) and the book holds exactly its unmatched size while it rests |
| Lifecycle.OrderAccount | cex/gitbitex-spot/matching/order_book.go:124-216 | opened or ended for exactly what its trades left; filled if and only if nothing is left; nothing logged after its end; what rests is what its trades left; never traded beyond size, funds or limit value |
| Lifecycle.TakerWholeLife | cex/gitbitex-spot/matching/order_book.go:109-197 | a taker matches within its limit, then opens or ends, within its budget |
| Lifecycle.MakerTracked | cex/gitbitex-spot/matching/order_book.go:157-171 | a resting order met by any taker is ended, reduced or untouched exactly as its logs say |
| Lifecycle.CancelTracked | cex/gitbitex-spot/matching/order_book.go:200-217 | a cancellation ends the order it finds and no other |
| Replica.SaveKeepsValid | cex/gitbitex-spot/pushing/order_book.go:77-148 | saving an order under its own price and side never panics, sets exactly its size, and keeps the level index the sums and counts of the orders |
| ReplicaRefinement.FeedOwn | cex/gitbitex-spot/pushing/order_book_stream.go:94-119 | a log in its place in such an account is taken without panic and leaves exactly what the account leaves of the order it changes, and every other entry alone |
| ReplicaRefinement.FeedMirrors | cex/gitbitex-spot/pushing/order_book_stream.go:94-119 | after every single log of every run with unique ids, whatever its prices, sizes and funds, even inside a command: the replica has not panicked, its index agrees, and its entries are the open orders with what the logs so far leave of each |
| ReplicaRefinement.ReplicaRefinesBook | cex/gitbitex-spot/pushing/order_book_stream.go:94-119 | after the logs of each command the replica holds exactly the resting orders of the engine, by id, size, price and side |
| ReplicaSnapshots.SaveIsItsChange | cex/gitbitex-spot/pushing/order_book.go:138-147 | a save changes nothing and publishes nothing, or publishes the one numbered change that turns the old levels into the new |
| ReplicaSnapshots.ChangesTellAll | cex/gitbitex-spot/pushing/order_book.go:138-147 | for every run, changes are numbered without gaps and patching them from any point gives the levels at any later one |
| ReplicaSnapshots.RestoreFullIsIdentity | cex/gitbitex-spot/pushing/order_book.go:168-193 | a full snapshot restored in any listing order is the same replica, levels included |
| ReplicaSnapshots.RestartedStream | cex/gitbitex-spot/pushing/order_book_stream.go:39-71 | a stream restarted from a full snapshot taken anywhere, reading on from its log number, ends in the same replica and publishes the rest of the same changes |
| ReplicaBook.OrderBook.SaveOrder | cex/gitbitex-spot/pushing/order_book.go:77-148 | the method changes orders, levels and numbers as specified and panics exactly when specified |
| ReplicaBook.OrderBook.SnapshotLevel2 | cex/gitbitex-spot/pushing/order_book.go:150-166 | lists the best levels of each side, best first, no more than asked for, none skipped |
| ReplicaBook.OrderBook.SnapshotFull | cex/gitbitex-spot/pushing/order_book.go:168-183 | lists every order of the table once with both numbers |
| ReplicaBook.OrderBook.Restore | cex/gitbitex-spot/pushing/order_book.go:185-193 | saves the listed orders one by one into a new replica and takes over the numbers |
| ReplicaBook.TopShows | cex/gitbitex-spot/pushing/order_book.go:150-166 | level rows show no level wrong, and all of them when there are no more than asked for |
| ReplicaBook.OrderBookStream.OnLog | cex/gitbitex-spot/pushing/order_book_stream.go:91-133 | feeds the log as specified; after a published change the offered level-2 snapshot is the best 1000 levels of a state at most ten changes old; full snapshots list the current table |
| ReplicaBook.OrderBookStream.OnTimer | cex/gitbitex-spot/pushing/order_book_stream.go:135-139 | afterwards the offered snapshot is of the current number |
| Level2.ChangeWriter.OnChange | cex/gitbitex-spot/pushing/client.go:163-231 | the loop body over one message is the specified step: same variables, same messages sent |
| Level2.StepInStep | cex/gitbitex-spot/pushing/client.go:170-230 | each message keeps: since snapshot s exactly the changes s + 1 to f were sent in order, the client book is the level map after f, the buffer holds what follows; numbers never step back |
| Level2.SessionInStep | cex/gitbitex-spot/pushing/client.go:163-231 | that for every session of lost, late and repeated changes in which answered requests meet an empty buffer, with cut or full snapshots; unanswered ones may meet anything |
| Level2.RequestWithBufferIff | cex/gitbitex-spot/pushing/client.go:170-194 | after an answered request, however many changes go into the next message: what was sent since the snapshot is exactly the changes after it if and only if the request met an empty buffer |
| Level2.BookAfterRequestIff | cex/gitbitex-spot/pushing/client.go:170-194 | and the book of the client is the level map then if and only if every level touched by the unsent changes, and not by the new ones, is in the snapshot as they leave it |
| Level2.StaleChangeRevived | cex/gitbitex-spot/pushing/client.go:184-193 | a session in which a stale change sent after a newer snapshot puts a sold-out level back into the client book |
| ClientView.ClientSeesReplica | cex/gitbitex-spot/pushing/client.go:163-231 | for every engine run and client session, the book of the client is the level index of the replica at some point of the run |
| ClientView.ShownIsLegit | cex/gitbitex-spot/pushing/order_book_stream.go:121-139 | what the stream stores for clients is what the session theorem lets them be shown |
| LogReader.ReadTopic | cex/gitbitex-spot/matching/kafka_log_reader.go:50-109 | the loop passes on what the filter passes, or dies when it does |
| LogReader.ReadAppend | cex/gitbitex-spot/matching/kafka_log_reader.go:73-81 | reading on after a pause equals reading in one go |
| LogReader.RunDeliveredIff | cex/gitbitex-spot/matching/kafka_log_reader.go:73-81 | a further stretch of the log is delivered as the ideal log goes on if and only if it starts at most one past the last number |
| LogReader.ExactlyOnceIff | cex/gitbitex-spot/matching/kafka_log_reader.go:73-81 | at every point each log was delivered once, in order, and the reader never died, if and only if no stretch of the topic leaves a gap |
| Engine.CommitterLoop.OnLog | cex/gitbitex-spot/matching/engine.go:171-197 | one log received: duplicates dropped, the batch stored when full or the channel is empty, the waiting snapshot released when covered |
| Engine.CommitterLoop.OnSnapshot | cex/gitbitex-spot/matching/engine.go:199-212 | one snapshot received: released at once when its logs were received, otherwise waiting, the older one dropped |
| Engine.HistoryInOrder | cex/gitbitex-spot/matching/engine.go:102-250 | for every stream with unique ids, one that panics included, and in every interleaving with crashes, logs sent one by one: the book, the logs being sent, the log channel and the batch are consecutive stretches of the run, and every snapshot on its way is one of the run |
| Engine.IncarnationStores | cex/gitbitex-spot/matching/engine.go:171-191 | between crashes and panics the topic grows by exactly one consecutive stretch of the logs of the run: each incarnation stores a gap-free, duplicate-free extension of what it started from |
| Engine.HistoryDeliversIff | cex/gitbitex-spot/matching/engine.go:164-250 | for every history, however it interleaves and crashes and whatever it approves: readers get exactly the run, once and in order, at every point, if and only if no step stores a batch that starts past the one after the highest number in the topic |
| Engine.HistorySafe | cex/gitbitex-spot/matching/engine.go:164-244 | for every history of crashes, panics and restarts from snapshots whose logs are in the topic by then, however early they were approved: readers get exactly the run up to the highest number stored, once and in order, and none dies |
| Engine.BackedHistorySafe | cex/gitbitex-spot/matching/engine.go:193-212 | in particular when every snapshot approved on the spot has its logs stored; then no approved or stored snapshot is ever ahead of the topic |
| Engine.PendingIsBacked | cex/gitbitex-spot/matching/engine.go:193-197 | a snapshot released by a store has all its logs stored |
| Engine.EmptyBatchBacked | cex/gitbitex-spot/matching/engine.go:201-205 | with an empty batch an approval on the spot is backed too |
| Engine.RestartDeliversIff | cex/gitbitex-spot/matching/engine.go:246-250 | after a restart from a snapshot of the run, on a topic that delivers, the next batch is delivered as the run goes on if and only if the snapshot is not ahead of the topic |
| EngineGap.GapHistory | cex/gitbitex-spot/matching/engine.go:182-204 | a history of good orders in which a snapshot is approved while one of its logs is in the batch, a crash loses that log, and every reader dies on the gap |
| TableStore.Store.PlaceOrder | cex/gitbitex-spot/service/order_service.go:27-105 | rounds, checks, tests the balance as it was seen, holds funds or size and adds the order, or changes nothing |
| TableStore.Store.HoldBalance | cex/gitbitex-spot/service/account_service.go:87-131 | tests what an earlier read outside the transaction saw, then moves the amount from available to hold with a settled bill without testing again, or refuses and changes nothing |
| TableStore.Store.Book | cex/gitbitex-spot/service/order_service.go:152-224 | books one fill: the row and the bills of either side, or the release of what is left |
| TableStore.Store.ExecuteFill | cex/gitbitex-spot/service/order_service.go:111-243 | settles the oldest hundred unsettled fills of a live order up to its end, or fails and changes nothing |
| TableStore.Store.ExecuteBill | cex/gitbitex-spot/service/account_service.go:25-85 | pays the oldest hundred unsettled bills of one account, creating it if needed |
| Ledger.PlaceOrderKeeps | cex/gitbitex-spot/service/order_service.go:67-104 | for every request and whatever balance was seen: keeps the tables sound and all money; the hold grows by exactly what the order ties up |
| Ledger.SettleFillKeeps | cex/gitbitex-spot/service/order_service.go:147-228 | each settled fill of a live order keeps holds equal to what the orders of their owner tie up, booked sums equal to settled fills, and all money |
| Ledger.ExecuteFillKeeps | cex/gitbitex-spot/service/order_service.go:138-228 | so does the whole loop with its break |
| Ledger.ExecuteBillKeeps | cex/gitbitex-spot/service/account_service.go:53-77 | paying bills keeps the same |
| TradeSizes.RunPositive | cex/gitbitex-spot/matching/order_book.go:113-153 | every trade of a run is of a positive size at a price of at least zero, even after a market buy overspent, unless sizes have as many places as the division and asks are priced past its bound |
| TradeSizes.SoldBack | cex/gitbitex-spot/matching/order_book.go:136-152 | in that case a market buy that overspent can trade a size of minus one |
| FillMaking.FillMaker.OnMatchLog | cex/gitbitex-spot/worker/fill_maker.go:60-85 | one fill for each party |
| FillMaking.FillMaker.OnDoneLog | cex/gitbitex-spot/worker/fill_maker.go:91-102 | one fill for the end |
| FillMaking.FillMaker.Flush | cex/gitbitex-spot/worker/fill_maker.go:107-126 | no fill is lost, added or reordered between channel, batch and table |
| FillMaking.MatchParties | cex/gitbitex-spot/worker/fill_maker.go:60-85 | both parties of a logged trade are orders of the run on opposite sides, trading a positive size at the price of the maker, in all runs that TradeSizes.RunPositive covers |
| FillMaking.TradesWithinOrder | cex/gitbitex-spot/matching/order_book.go:113-152 | whatever part of the trades of a run is booked to an order stays within its funds or size |
| Exchange.MoneyIsConserved | cex/gitbitex-spot/service/order_service.go:67-228 | for every crash-free interleaving of placing, sending, cancelling, matching, fill making, settling and paying, whatever is asked for and whatever balances the tests see: balances plus unpaid bills plus unsettled fills never change, per currency |
| Exchange.HoldsAreTied | cex/gitbitex-spot/service/order_service.go:152-224 | and every hold with that of unpaid bills is what the orders of its owner tie up: exactly what is unspent of the live ones if and only if no closed one spent more than it had |
| Exchange.NothingOutstanding | cex/gitbitex-spot/service/account_service.go:62-74 | once all fills are settled and all bills paid, the accounts hold in sum what they held at the opening |
| Solvency.NothingOverspent | cex/gitbitex-spot/service/order_service.go:152-224 | while asks are priced within the bound of the division: no order spends more than it has, no hold is negative, and holds are exactly what is unspent of live orders |
| Solvency.UnspentNonNegative | cex/gitbitex-spot/service/order_service.go:203-215 | what an order still ties up is then never negative, so the release on its end is exact |
| Solvency.BalancesNonNegativeIff | cex/gitbitex-spot/service/account_service.go:87-131 | in every such history, whatever the prices unless sizes have as many places as the division, no balance is ever negative if and only if every order was covered at the moment its hold was moved |
| Solvency.FreshReadCovers | cex/gitbitex-spot/service/account_service.go:92-98 | a test that sees the balance as it is when the hold is moved covers the order |
| Solvency.BalanceOverdrawn | cex/gitbitex-spot/service/account_service.go:92-105 | two orders of one user, both tested before either hold is moved, leave a negative balance, from any opening that covers only one |
| FinalSettlement.ClosedOrdersAreComplete | cex/gitbitex-spot/service/order_service.go:192-226 | in every such history an order is closed only with every trade the engine ever logs for it booked, so what is released is what its trades left |
| Deposits.Store.UpdateAssetWithOptimisticLock | go-staking-interaction/repository/account_repo.go:144-184 | writes both balances and the next version if and only if the version is the one read |
| Deposits.Store.ExecuteTransaction | go-staking-interaction/listener/sync_blockinfo.go:429-496 | bill, log and balance together or nothing |
| Deposits.NoLostUpdate | go-staking-interaction/listener/sync_blockinfo.go:429-496 | for every interleaving of workers and lock expiries: the bills of a balance chain from its opening, the balance ends the chain and is the opening plus all credits, no hash is credited twice |
| Deposits.WriteSucceedsIff | go-staking-interaction/repository/account_repo.go:165-181 | a deposit is credited if and only if its hash is new and nothing was committed to the account since its read; otherwise nothing changes and it is dropped |
| Deposits.VersionsKeepTokensApart | go-staking-interaction/common/redis/lock_manager.go:42-52 | locks are per token, rows per account: two rightful lock holders collide, and only the version check keeps the first credit |
| Deposits.CollidingDeposits | go-staking-interaction/listener/sync_blockinfo.go:429-496 | the shortest history that gets there: two deposits to one account in two tokens, neither late nor expired; the first is credited and the second dropped |
| Deposits.OnlyTheOwnerTouches | go-staking-interaction/common/redis/lock_manager.go:148-189 | but for time passing, only the owner of a key removes or prolongs it |
| Deposits.LockLasts | go-staking-interaction/common/redis/lock_manager.go:117-189 | a worker that takes a key owns it, and nobody else does, until its time is over or it releases it |
| LockManager.DistributedLock.TryLock | go-staking-interaction/common/redis/lock_manager.go:117-123 | takes the key exactly when it is free |
| LockManager.DistributedLock.Lock | go-staking-interaction/common/redis/lock_manager.go:125-145 | succeeds at the first try that finds the key free, and only then |
| LockManager.DistributedLock.Unlock | go-staking-interaction/common/redis/lock_manager.go:148-167 | removes the key if and only if it holds the value of this lock; keys of others stay |
| LockManager.DistributedLock.Renew | go-staking-interaction/common/redis/lock_manager.go:170-189 | prolongs it under the same condition |
| Candles.TickMaker.OnMatch | cex/gitbitex-spot/worker/tick_maker.go:77-107 | for trades in order of time, all eleven granularities: every bucket with a trade has a stored candle showing first, last, least, greatest and total |
| Candles.MergeTicks | cex/gitbitex-spot/pushing/ticker_stream.go:113-127 | merging candles given newest first yields the candle of all their trades in order of time |
| Candles.MergedShows | cex/gitbitex-spot/pushing/ticker_stream.go:120-123 | the merge of two candles is the candle of both stretches |

## Left out

- Red-black trees and the decimal library: their contracts are assumed as described above.
- Kafka, Redis, MySQL, JSON, HTTP and websocket calls, their errors and retries; a batch of logs, a snapshot and a transaction are each stored as a whole or not at all.
- Time: nothing is claimed to happen eventually, and the time stamps of logs, fills and bills are not modelled.
- Log and order offsets in the topics of replicas, fill maker and tick maker: carried along by the code, used only to start reading; the model restarts by log number.
- Widths of integers: sequence numbers and ids are unbounded, the code uses 64 bits.
- Several products at once: one book, one replica and one pair of currencies; client feeds and settlement of different products do not share state but for the message channel of a client.
- OrderBook.Depth.List: the order in which a Go map is walked; any listing is allowed where a snapshot is used, and this method yields one of them.
- OrderBook.OrderBook.ApplyOrder: what later orders do once table and tree map have parted and the loop of the code follows a stale key.
- OrderBook.OrderBook.Restore: for a new book, as at the start of the engine.
- ReplicaBook.OrderBook.Restore: for a new replica, as at the start of a stream.
- Engine.HistorySafe: restarts use a snapshot that owns its window bits, for the reason given above.
- ReplicaBook.OrderBookStream.OnLog: full snapshots are handed over at once; their writing to the store is not modelled.
- FillMaking.FillMaker.Flush: a failed insert is retried for ever by the code and taken to succeed here; the unique index on order and message is never hit, as no order has two fills of one log.
- Exchange.MoneyIsConserved: crashes of the fill maker are not covered, each order is sent to the engine once, nor is money moved in or out of the exchange by its wallet service.
- Deposits.NoLostUpdate: withdrawals from the same rows, which are not decided by the code modelled here.
- LockManager.DistributedLock.Lock: the time between tries; what others do in between is a parameter.
- Candles.TickMaker.OnMatch: the flusher and the reloading of candles after a restart.
- REST controllers, users and tokens, frontends, contract bindings, block parsing and the services around them: they check and pass on requests and rows, and decide nothing that the results above depend on.
