# A verified model of the order book engine

The engine takes orders from one producer, routes each instrument to one worker over a lock-free
ring, and matches the orders of an instrument in a book with price-time priority. This project
models it in layers and proves that the layers agree.

* **The objects.** `Orders`, `PriceLevels`, `ListLevels`, `OrderBooks`, `IdAllocators`, `OrderPools`,
  `SpscQueue.SPSCQueue`, `Producers` and `Workers` are classes with the source's fields and methods. Price
  levels keep the vector of entries with tombstones, the lazily advanced head and the id-to-index map; a
  book keeps two maps of level objects and a registry that share the same order objects.
* **The level as a value.** `LevelRep` is the level's representation, operation by operation: the queue
  it stands for, and where its head rests, which is on the first order (current), on a tombstone
  (stale), or on the entry of a dead order that the map has lost (haunted). `LevelRuns` follows a level
  over its whole life, also beside the older list level of `ListLevels`, and `Totals` says how its total
  quantity changes.
* **The book as the source stores it.** `EntryBook` is the engine on values: maps from price to such
  levels, the order table, the trade counter and the flag that gates matching. Where the source would
  erase an end iterator, whose effect is undefined, the outcome is `Undefined`. Every method of
  `OrderBook` is proved to compute it, on every book.
* **The book of queues.** `LevelBook` has a queue of ids at each price instead. `EntryBook` agrees with it
  unless the matching meets a haunted level, and `HeadMarks` follows, from the commands and the queues
  alone, which levels are stale or haunted. So `SourceRuns.Safe` tells before each command whether it
  will meet one: the runs of the source are defined on the safe logs and on no others.
* **The reference.** `PriceTimeBook` has two sequences in price-time order and nothing else.
  `Refinement` and `Runs` prove that flattening the queues gives the reference book, after every
  operation and every run, with the same replies; `SourceRuns.RunRefines` puts both steps together.
* **What trading means.** `Trading`, `Fills`, `Conservation` and `Priority` state the engine's laws: when a
  book is crossed, what a new order gets, what is conserved, who keeps which place. Laws of single
  operations are stated on the reference, laws of whole runs on the source's book.
* **The threads.** `SpscQueue` is the ring as two threads taking one load, slot access or store at a
  time. `IdSupply` is the id blocks, `Routing` the routing table, and `Pipeline` puts producer, rings,
  workers and books together, under every interleaving, up to shutdown. `Progress` says what the threads
  get done and in how many of their steps, whatever the others do in between.

Points where the code decides something a reader may not expect, and which the model follows:

* `modify_order` returns inside its switch (include/orderbook.h:155, include/orderbook.h:157), so the
  `try_match` at include/orderbook.h:167 is not reached: a modification never trades and may leave the
  book crossed. `Trading.ModifyCrossed` says exactly when. The next order that opens a level uncrosses
  the book, one that joins a level does not (`Trading.AddCrossed`).
* Matching is attempted only when an order opens a level. `Trading.GateSound` shows that this loses
  nothing exactly when the book was not crossed.
* Growing, at its price, an order that is alone in its level leaves the level's head on a tombstone
  (include/orderbook.h:194-197, include/price_level_v2.h:62-64). That does no harm while the order stays
  alone, or if it or a companion is cancelled or moved first. But once another order has joined and the
  first is filled and popped, its own entry comes under the head and the map no longer knows it
  (`LevelRep.PopQueue`). The next round of matching that finds this level at the front trades nothing
  with the dead order and erases an id that the map does not hold (include/price_level_v2.h:108).
  `EntryBook.RoundAgrees` shows that a round departs from the queues exactly then.
  `SourceRuns.GhostRunUndefined` gives runs of four commands that end so, such as BUY 10 at 100, grow it
  to 20, BUY 5 at 100, SELL 25 at 100.
* The older list level keeps the map entry of an order it pops (include/price_level.h:70-78), so removing
  that order later erases a list node that is gone. `LevelRuns.RunMatchesList` shows that on levels never
  refilled after they were drained this is the only way in which it departs from the tombstone level,
  which answers that there is no such order.
* Neither quantity nor price of a new order is validated. No theorem needs them to be: an order of
  quantity 0 rests, and its first match fills it with 0.
* The repository's README speaks of hashing symbols and of compare-and-swap. The code deals
  instruments round-robin (include/order_routing_system.h:50) and uses plain atomic loads and stores
  (include/spsc_queue.h:38-74).

Prices are reals, since the code only compares them. Quantities and ids are unsigned 64-bit numbers
and wrap where the code's do. Ids of orders stand for the orders in all value layers.

## Model

| member | source | states |
|---|---|---|
| Orders.Order.constructor | include/order.h:29-41 | a default order is NEW, unfilled and has the default id |
| Orders.Order.CopyFromClient | include/order.h:85-91 | an unused pool slot takes over the client's side, price and quantity, NEW and with nothing filled, under the allocated id |
| Orders.Order.Match | include/order.h:93-106 | refused exactly when the 64-bit sum exceeds the quantity; a fill that fits is never refused and completes the order exactly when nothing remains |
| Orders.Order.Cancel | include/order.h:108-115 | succeeds exactly on NEW and partially filled orders, and changes only the status, to CANCELLED |
| LevelRep.QueueIsIndex | include/price_level_v2.h:72-78 | the queue of a level holds exactly the ids of the map, each once, so the map's size is the number of resting orders |
| LevelRep.FrontIsHead | include/price_level_v2.h:93-99 | unless the level is haunted, the entry under the head names the oldest resting order, also where it is a tombstone |
| LevelRep.AddQueue | include/price_level_v2.h:38-42 | adding appends to the queue; the head stays what it was, except that a drained level becomes stale |
| LevelRep.RemoveQueue | include/price_level_v2.h:48-59 | removing takes exactly that order out, keeps the order of the others, heals a stale head and leaves a haunted one |
| LevelRep.AdvanceValid | include/price_level_v2.h:61-70 | advancing a level in exact correspondence with its map stays in bounds and makes the head current |
| LevelRep.PopQueue | include/price_level_v2.h:101-112 | popping a filled front is defined exactly if the level is not haunted; it drops the first of the queue, keeps a current level current, and leaves a stale one empty or haunted by the popped order |
| LevelRep.RequeueQueue | include/orderbook.h:194-197 | removing and re-adding moves the order to the back; the level is stale afterwards exactly if the order was alone and the level not haunted |
| LevelRep.StaleHeadResurfaces | include/orderbook.h:194-197 | for every level whose only order is re-queued and joined by another: once filled and popped, the order haunts the level, and popping it again is undefined |
| LevelRuns.RunMatchesList | include/price_level.h:20-78 | on every run that adds only orders not resting here, and none to a drained level, the tombstone level is defined; the list level is so exactly if no order is removed after its pop and before it is added again, and then both have the same orders in the same sequence, the same answers, size, front and total quantity |
| LevelRuns.RemovedAfterPop | include/price_level.h:27-36 | adding, popping and then removing an order is undefined on the list level, for every order, where the tombstone level answers no |
| ListLevels.ListPriceLevel.AddOrder | include/price_level.h:20-25 | a node for the order at the back, and the map points at it |
| ListLevels.ListPriceLevel.RemoveOrder | include/price_level.h:27-37 | not defined exactly where the iterator in the map dangles; else the node and its iterator go, or the answer is no |
| ListLevels.ListPriceLevel.Size | include/price_level.h:45-47 | the number of listed orders |
| ListLevels.ListPriceLevel.Front | include/price_level.h:62-64 | the first listed order |
| ListLevels.ListPriceLevel.PopFrontOrderIfFilled | include/price_level.h:70-78 | the first node goes exactly if its order is filled; the map keeps its iterator |
| ListLevels.ListPriceLevel.TotalQty | include/price_level.h:53-60 | what remains of the listed orders, as the laws of `Totals` determine it |
| LevelRuns.HeadAdvances | include/price_level_v2.h:61-70 | over the whole life of a level, through stale and haunted states and refills too, the head only moves forward and at most once for every order added |
| PriceLevels.PriceLevel.AddOrder | include/price_level_v2.h:38-42 | the object's new representation, its queue with the order at the back, and where the head rests |
| PriceLevels.PriceLevel.RemoveOrder | include/price_level_v2.h:48-59 | true exactly if the order rested here; the queue without it |
| PriceLevels.PriceLevel.IncrementToValid | include/price_level_v2.h:61-70 | the loop ends on the first valid entry without leaving the vector |
| PriceLevels.PriceLevel.Size | include/price_level_v2.h:72-74 | the number of resting orders |
| PriceLevels.PriceLevel.Front | include/price_level_v2.h:93-95 | the order object under the head, which is the first of the queue unless the level is haunted |
| PriceLevels.PriceLevel.PopFrontOrderIfFilled | include/price_level_v2.h:101-112 | not defined exactly on a haunted level whose front is filled; else the representation after the pop |
| PriceLevels.PriceLevel.TotalQty | include/price_level_v2.h:80-91 | what remains of the resting orders, as the laws of `Totals` determine it, wherever the head is; tombstones and dead orders add nothing |
| Totals.TotalEmpty | include/price_level_v2.h:80-91 | an empty queue has nothing left |
| Totals.TotalAdds | include/price_level_v2.h:80-91 | an order at the back raises the total by its quantity less what is filled of it, modulo 2^64 |
| Totals.TotalRemoves | include/price_level_v2.h:80-91 | an order that leaves, from wherever it stands, lowers it by as much |
| Totals.TotalChanges | include/price_level_v2.h:80-91 | new data for one order, in particular a fill of n, change it by the difference of what is left, and not at all if the order is elsewhere |
| LevelBook.Trade | include/orderbook.h:232-244 | a round keeps the invariant and strictly shrinks the set of live orders |
| LevelBook.MatchLoop | include/orderbook.h:217-245 | the loop terminates, keeps the invariant and ends uncrossed |
| LevelBook.Add | include/orderbook.h:46-63 | an add keeps live orders and resting orders the same, each in one level of its side and price |
| LevelBook.Cancel | include/orderbook.h:88-119 | so does a cancellation |
| LevelBook.Modify | include/orderbook.h:138-209 | so does a modification |
| LevelBook.RestsOnce | include/orderbook.h:122-125 | a live order is found in the level of its price and in no other, so the lookups of cancel and modify never miss |
| HeadMarks.CleanModify | include/orderbook.h:190-198 | where every head is current, exactly growing the only order of a level leaves one stale |
| EntryBook.JoinAgrees | include/orderbook.h:80-84 | an order that joins its level goes to the back of that queue, and no head changes |
| EntryBook.LeaveAgrees | include/orderbook.h:122-136 | an order that leaves goes from its queue alone, the level goes if that empties it, and the head is healed unless it is haunted |
| EntryBook.MovedAgrees | include/orderbook.h:172-200 | a modification moves the order between the queues, or to the back of its own, as the book of queues says, and leaves the marks foretold |
| EntryBook.SettledAgrees | include/orderbook.h:239-244 | popping and pruning the front takes a filled order off its queue, and is undefined exactly if it is filled and the level haunted |
| EntryBook.RoundAgrees | include/orderbook.h:232-244 | a round is one of the book of queues exactly unless one of the best levels is haunted, and then it is undefined |
| EntryBook.MatchAgrees | include/orderbook.h:217-245 | so is the whole loop, and the queues and marks before it tell which |
| EntryBook.AddAgrees | include/orderbook.h:46-63 | an add makes of the queues what the book of queues says, exactly unless its matching meets a haunted level |
| EntryBook.CancelAgrees | include/orderbook.h:88-119 | so does a cancellation, always |
| EntryBook.ModifyAgrees | include/orderbook.h:138-202 | and a modification, always |
| OrderBooks.MatchOrders | include/orderbook.h:251-257 | both orders are filled by the smaller remainder, and the guard in `Order::match` never fires |
| OrderBooks.TryEmplace | include/orderbook.h:80-82 | an empty level appears exactly where there was none |
| OrderBooks.Place | include/orderbook.h:80-84 | the order's entry goes to the back of the level object of its price, which is created if need be; every other level object is as before |
| OrderBooks.RemovePriceLevelIfEmpty | include/orderbook.h:130-136 | exactly empty levels disappear |
| OrderBooks.RemoveAndPrune | include/orderbook.h:122-136 | the order leaves its level object, which disappears from the map if that empties it; every other one is as before |
| OrderBooks.Requeue | include/orderbook.h:194-197 | the order leaves its level and joins the same object again, which is not pruned in between |
| OrderBooks.ModifyOrderDispatcher | include/orderbook.h:172-202 | the new levels, order data, flag and result of a modification |
| OrderBooks.OrderBook.constructor | include/orderbook.h:24-35 | a new book is empty and starts at the first id of its own block, whatever the counter; below 2^64 its desk is that of `IdSupply.Open` |
| OrderBooks.OrderBook.GetOrderId | include/orderbook.h:259-265 | the next id of the block, or the first of a newly fetched one, with block, next id and counter afterwards, wrapping at 2^64; below that never an id already registered |
| OrderBooks.OrderBook.AddOrderDispatcher | include/orderbook.h:79-86 | the order rests and is registered, and the flag says whether its level is new |
| OrderBooks.OrderBook.TradeOnce | include/orderbook.h:232-244 | a round on the objects is one of the book of queues, with the same orders, fills and count, exactly unless one of the best levels is haunted |
| OrderBooks.OrderBook.MatchLoop | include/orderbook.h:217-245 | the loop on the objects ends, is defined exactly if that of `EntryBook` is, computes it, and reports whether the book was crossed |
| OrderBooks.OrderBook.TryMatch | include/orderbook.h:211-249 | without the flag nothing changes; with it the loop runs; true exactly if the flag was set and the book crossed |
| OrderBooks.OrderBook.AddOrder | include/orderbook.h:46-63 | under an id new to the book, the whole new state is that of the book of queues, exactly unless the matching meets a haunted level, which the queues and marks before the call decide; an order that joins a level is registered with the client's data, NEW and unfilled, and nothing else changes in the table |
| OrderBooks.OrderBook.CancelOrder | include/orderbook.h:88-119 | new state and answer are those of the book of queues, on every book; true exactly for a registered NEW or partially filled order, which becomes CANCELLED, and else nothing changes |
| OrderBooks.OrderBook.ModifyOrder | include/orderbook.h:138-202 | refused, with the book unchanged, unless the order is registered, NEW or partially filled, the price positive and the quantity above what is filled; else it has exactly the new price and quantity, and the answer says whether one of them differs; new state and answer are those of the book of queues; with all heads current before, they are so afterwards exactly unless the call grows the only order of a level |
| OrderBooks.OrderBook.GetBestBid | include/orderbook.h:267-272 | -1 for no bids, else the price of the first bid in price-time order |
| OrderBooks.OrderBook.GetBestAsk | include/orderbook.h:274-280 | the same for asks |
| OrderBooks.OrderBook.GetTotalBidOrders | include/orderbook.h:286-292 | the number of live BUY orders in the registry |
| OrderBooks.OrderBook.GetTotalAskOrders | include/orderbook.h:294-300 | the number of live SELL orders in the registry |
| OrderPools.OrderPool.Allocate | include/order_pool.h:18-34 | every call hands out a slot never handed out before, in its default state; the storage grows exactly when all slots are taken |
| PriceTimeBook.InsertAt | include/orderbook.h:78-84 | a new order stands behind everyone at its price or better and ahead of everyone at a worse price |
| PriceTimeBook.Match | include/orderbook.h:211-249 | matching the reference keeps it sorted and complete and ends uncrossed |
| Refinement.FlattenInv | include/orderbook.h:316-317 | walking the map from `begin()` lists each live order of a side once, in price order |
| Refinement.FlattenSize | include/orderbook.h:286-300 | ... and there are as many as live orders |
| Refinement.GateRefines | include/orderbook.h:80-81 | a level exists at a price exactly if somebody rests at that price |
| Refinement.MatchRefines | include/orderbook.h:211-249 | the matching loop on levels is matching on the flat sequences |
| Refinement.AddRefines | include/orderbook.h:46-63 | flattening commutes with add |
| Refinement.CancelRefines | include/orderbook.h:88-127 | flattening commutes with cancel, and the answers agree |
| Refinement.ModifyRefines | include/orderbook.h:138-202 | flattening commutes with modify, and the answers agree |
| Runs.RunRefines | include/orderbook.h:46-257 | after every run of the book of queues, flattened, its fills, statuses and trade count, and all replies are those of the reference |
| Runs.StepMeans | include/worker.h:55-67 | what each kind of command answers and makes of the registered orders on the reference |
| SourceRuns.RunRefines | include/orderbook.h:46-257 | the source's run is defined exactly on the safe logs, and there its queues, fills, statuses, trade count and replies are those of the reference |
| SourceRuns.SafeNext | include/orderbook.h:46-63 | whether the next command keeps a run safe is known before it from the queues and the marks; only an add that opens a level can fail to |
| GhostSweep.AddUndefined | include/orderbook.h:46-63 | adding to an uncrossed book is undefined exactly if the order opens a level and one of the orders it takes to serve it rests at a haunted price, or at a stale price and not first there |
| GhostSweep.SafeAdd | include/orderbook.h:46-63 | so wherever the book is uncrossed, the next add keeps a safe run safe exactly if it is not blocked in this way |
| SourceRuns.SafeWithoutSoleGrowth | include/orderbook.h:190-198 | every run in which nobody grows an order alone in its level is safe |
| SourceRuns.GhostRunUndefined | include/orderbook.h:194-197 | every run that buys, grows, joins and then sells more than fills the grown order is safe up to the sale and undefined there |
| SourceRuns.LiveIffResting | include/orderbook.h:79-136 | in every book the source reaches on a safe log, an order is live exactly if the map of a level holds it, that is one level, on its side, at its current price; no level is empty; only a haunting entry is valid without being held |
| Trading.GateSound | include/orderbook.h:80-81 | matching only when a level was opened gives the same book as always matching, exactly if the book was uncrossed or the level is new |
| Trading.AddCrossed | include/orderbook.h:61-61 | after an add the book is crossed exactly if it was before and the order joined an existing level |
| Trading.CancelUncrossed | include/orderbook.h:88-119 | a cancellation never crosses a book |
| Trading.CancelCrossed | include/orderbook.h:88-119 | on any book: after an accepted cancellation it is crossed exactly if another order of that side crosses |
| Trading.ModifyCrossed | include/orderbook.h:152-168 | on any book: after an accepted modification it is crossed exactly if the order lands at a price at which the best opposite order would trade, or another order of its side would |
| Trading.ModifyAcross | include/orderbook.h:152-168 | an uncrossed book is crossed by a modification exactly if the order lands at a price at which the best opposite order would trade |
| Trading.RunUncrossed | include/orderbook.h:211-249 | on every safe run none of whose modifications lands across, in particular of adds and cancels, the source's book stays uncrossed |
| Trading.RunCrossed | include/orderbook.h:46-257 | after a safe run the source's book is crossed exactly if some modification landed across and no later command uncrossed the book |
| Fills.Sweep | include/orderbook.h:217-257 | an order that leads its side trades once with each of as many orders as it takes to serve it, a prefix of the other side: all but the last filled, nobody else touched |
| Fills.AddFill | include/orderbook.h:46-63 | a new order of quantity q in an uncrossed book is filled by exactly min(q, what remains across at crossing prices), out of a prefix of the other side, in as many trades as it takes orders to serve q; the data of every order afterwards are written out, the new one with the client's side, price and quantity, NEW exactly if nothing traded, and it rests in its place exactly if not filled |
| Fills.AddTerms | include/orderbook.h:46-63 | on any book, also a crossed one, a new order is registered with the client's side, price and quantity, and nobody else's are touched |
| Fills.MatchTerms | include/orderbook.h:211-257 | matching, on any book, changes fills and statuses only |
| Fills.TakersServe | include/orderbook.h:217-245 | the orders it takes to serve q are the shortest prefix that has q, at least one if anyone crosses, and all who cross from the front on if they have less |
| Conservation.RunConserves | include/orderbook.h:232-257 | after every safe run, in the source's book, total BUY fills equal total SELL fills, nobody is overfilled, and trades <= filled orders <= 2 * trades |
| Priority.ModifyOthers | include/orderbook.h:172-202 | a modification touches nobody else's data or relative place, trades nothing, and answers true exactly if it changed something |
| Priority.ModifyPlace | include/orderbook.h:190-198 | an order that is NEW or partially filled, given a positive price and a quantity above what is filled, keeps its place if it shrinks at its price; growing or a new price puts it behind its price and ahead of worse ones |
| Priority.CancelUndoesAdd | include/orderbook.h:88-127 | cancelling an order that has not traded restores the book from before it came, but for the registry |
| Priority.CancelTwice | include/orderbook.h:95-99 | a second cancellation is refused and changes nothing |
| Priority.CancelOthers | include/orderbook.h:88-127 | the answer of a cancellation; it takes that order out of its queue and touches nobody else's data or relative place |
| IdAllocators.IdAllocator.GetNextIdBlock | include/id_allocator.h:31-35 | the block from the old counter, and the counter at the block's end, both wrapping at 2^64 |
| IdSupply.BlocksGood | include/id_allocator.h:31-35 | the ids of the first n blocks are pairwise distinct and at least 1 exactly while n * block size < 2^64 |
| IdSupply.DrawKeeps | include/orderbook.h:259-265 | an id drawn below 2^64 is new to its book, which stays on its block |
| IdSupply.OpenAllKeeps | include/orderbook.h:27-34 | books opened one after another each start on a block of their own, and the counter moves one block per book |
| IdSupply.OpenAllAt | include/orderbook.h:27-34 | the book first named at position i issues its ids from the block number i, from its first id on |
| IdSupply.OpenAllCounts | include/orderbook.h:27-34 | every book named, also one of a repeated name, takes a block from the counter |
| IdSupply.IssueKeeps | include/orderbook.h:259-265 | an issued id is the next of the block or the first of a new one, was never issued by any book, and the books keep separate stretches |
| IdSupply.NeverTwice | include/orderbook.h:259-265 | whatever the order in which books draw, no id is issued twice and none is 0; each book's ids ascend |
| SpscQueue.ProducerKeeps | include/spsc_queue.h:38-62 | every atomic step of a push keeps the ring invariant, whatever the consumer is doing |
| SpscQueue.ConsumerKeeps | include/spsc_queue.h:64-74 | every atomic step of a pop keeps it too |
| SpscQueue.RunIsFifo | include/spsc_queue.h:38-74 | under every interleaving the popped items are a prefix of the pushed ones, at most capacity - 1 are in flight, and the slot about to be written is not the slot about to be read |
| SpscQueue.RunGrows | include/spsc_queue.h:38-74 | nothing pushed or popped is ever taken back |
| SpscQueue.RefusalsAreHonest | include/spsc_queue.h:43-44 | a push is refused exactly if the ring was full, and a pop exactly if it was empty, at the moment the other side's index was loaded, whatever the other thread does before the test |
| SpscQueue.PushAdvances | include/spsc_queue.h:38-62 | how a push goes on from each of its points, up to the item published and the answer yes, or refused |
| SpscQueue.PopAdvances | include/spsc_queue.h:64-74 | how a pop goes on; its last step takes the oldest item and answers with it |
| SpscQueue.SPSCQueue.Push | include/spsc_queue.h:38-49 | the object's push is the machine's steps in a row: refused exactly when capacity - 1 items are in it, else the item is last; the answer is the machine's |
| SpscQueue.SPSCQueue.Pop | include/spsc_queue.h:64-74 | the object's pop: nothing exactly when empty, else the oldest item; the answer is the machine's |
| Routing.BuildOrderRoutingSystem | include/order_routing_system.h:36-54 | worker w is dealt every n-th instrument from the w-th on, in the order of the list, and each name is routed to the worker of its first entry |
| Routing.DealtInOrder | include/order_routing_system.h:49-53 | the j-th instrument of worker w is number w + j * n of the list |
| Routing.RoutedToFirst | include/order_routing_system.h:53-53 | of a repeated name the first entry wins |
| Routing.RoutedToOwner | include/order_routing_system.h:49-54 | exactly the listed instruments are routed, each to a worker that was dealt it |
| Routing.OwnerUnique | include/order_routing_system.h:49-54 | with distinct names no other worker was dealt it |
| Routing.DealtEvenly | include/order_routing_system.h:49-53 | the first (count mod workers) workers get one instrument more than the others |
| Producers.Producer.Submit | include/producer.h:19-37 | accepted exactly if the instrument is routed and its worker's queue has room; the command is then last there, and no other queue changes |
| Producers.Producer.ShutdownPass | include/producer.h:45-59 | a pass gives exactly one SHUTDOWN to every queue that has room and got none yet; the count is that of the flags and reaches the number of workers exactly when all are set |
| Workers.Worker.constructor | include/worker.h:13-20 | exactly the instruments of the given books have a book, the first given for each, and every book starts valid with nothing processed |
| Workers.Worker.ProcessCommand | include/worker.h:46-70 | the command reaches exactly the book of its instrument, where it is added, modified or cancelled by its kind; if the run of that book stays safe, and only then, the state is defined and is the one its log of commands leads to, and all other books keep theirs |
| Pipeline.InitialInv | include/order_routing_system.h:36-67 | the freshly built system, whose books have each fetched a first block in turn, satisfies the invariant |
| Pipeline.BookKeysAt | include/order_routing_system.h:56-64 | the books are made worker by worker, and each worker's in the order of the list |
| Pipeline.InitialDesk | include/orderbook.h:27-34 | the book made at position p issues its first ids from the block number p, counting from id 1 |
| Pipeline.NextKeeps | include/producer.h:19-60 | every step of any thread keeps the invariant of the whole system |
| Pipeline.EachBookSequential | include/worker.h:22-70 | under every interleaving each book has processed, in submission order, exactly the accepted commands for its instrument up to some point, its ADDs under the ids issued to it, in ascending order; it is in the state the source reaches running them alone, which is defined exactly if they are a safe run, and then it is the price-time book's |
| Pipeline.ProjectKeeps | include/worker.h:46-51 | the commands for an instrument are exactly those that name it and are no SHUTDOWN, in the order accepted |
| Pipeline.IdsGloballyUnique | include/id_allocator.h:31-35 | no two books ever register the same id, and none registers 0 |
| Pipeline.NothingDropped | include/worker.h:46-51 | no accepted command is dropped at dispatch |
| Pipeline.ShutdownDrains | include/producer.h:40-60 | when shutting down has returned, each ring got exactly one SHUTDOWN behind everything accepted before, and a stopped worker has processed all of it |
| Progress.PushCompletes | include/spsc_queue.h:38-62 | whatever the workers do meanwhile, a push is over after five turns of the producer if the ring had room when the consumer's index was loaded, else after three, and only then refused; room at the start suffices |
| Progress.SubmitCompletes | include/producer.h:19-37 | a command submitted by a ready producer is answered within five of its turns and then last in the ring of the worker it is routed to, exactly if there is a route and that ring had room at the load; no other ring has got anything |
| Progress.StopTries | include/producer.h:46-58 | while shutting down, a ring without a SHUTDOWN gets it exactly if it had room at the load, and else is left for the next time round |
| Progress.StopPassesOver | include/producer.h:45-48 | a ring that has got its SHUTDOWN is passed over; after the last one the loop ends exactly if none is missing |
| Progress.ShutdownCompletes | include/producer.h:40-60 | with room in every ring, shutting n workers down ends within 5n + 2 turns of the producer, whatever the workers do, and every ring has got one SHUTDOWN behind what it held |
| Progress.PopCompletes | include/worker.h:27-28 | an idle worker with something in its ring has taken the oldest command after five of its turns, whatever the others do |
| Progress.CommandCompletes | include/worker.h:27-36 | after a sixth it has dealt with it: it stops exactly on SHUTDOWN, else the book of that instrument has the command last in its log and the state of the source for that log, and its other books are as before |
| Progress.WorkerCatchesUp | include/worker.h:22-36 | with m commands in its ring, none but the last a SHUTDOWN, 6m turns of a worker process all of them, in order |

## Left out

- OrderBooks.OrderBook.AddOrder: requires that an id can be issued with the shared counter below 2^64; IdSupply.BlocksGood says that ids repeat from there on.
- Workers.Worker.ProcessCommand: requires the same for an ADD. Where the matching meets a haunted level the source's behaviour is undefined and nothing is promised.
- OrderPools.OrderPool.Allocate: does not model that growing the vector may move orders; `OrderBook` allocates order objects of its own. Both match the code while a book stays within its initial pool.
- SourceRuns.RunRefines: a run of more than `SPACE_RESERVE` adds (include/core.h:18) makes the pool grow and move (include/order_pool.h:29-34), which leaves every earlier order pointer of the book dangling. So this and all other statements about runs, among them LiveIffResting, RunConserves, RunUncrossed and RunCrossed, match the code up to that many adds to a book.
- Pipeline.EachBookSequential: the same limit holds for each book. A book whose run has become undefined stays so and the rest of the engine goes on; in the source nothing can be said of the rest either.
- What the source does after erasing an end or dangling iterator: the model ends there. `remove_order_on_it` of the list level, which nobody calls.
- Pipeline.ShutdownDrains: the producer does nothing more after `submit_all_shutdown_commands` has returned.
- Progress.ShutdownCompletes: with a full ring the call returns only once its worker has made room, which needs a fair scheduler; Progress.WorkerCatchesUp says how many turns the worker needs.
- The outer loop of `submit_all_shutdown_commands` and the loop of `Worker::run` spin on other threads; they are thread programs in `Pipeline` and not methods.
- Building the books inside a `WorkerContext` is not a method; `Pipeline.Initial` describes the result and `Workers.Worker.constructor` takes the books over.
- Memory orders: steps interleave sequentially consistently. The release stores and acquire loads of the indices are what makes a published slot visible in the source.
- The trade counter's width, NaN and rounding of prices, time stamps, clocks, printing, `reserve` sizes, cache-line padding and core pinning.
- Moving a queue, and the moved-from value that `pop` leaves in a slot.
